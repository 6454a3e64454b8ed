/** What parsing and a restart do to single attribute lines, wherever in a text they stand. */
module SdpLines {
  import opened Basics
  import opened SdpScanner
  import opened SdpRewrite
  import opened SdpText

  /** Ends with a break, if it is not empty. */
  predicate Whole(s: string) { s == "" || s[|s| - 1] == '\r' || s[|s| - 1] == '\n' }

  /** Starts with a break, if it is not empty. */
  predicate Follows(s: string) { s == "" || s[0] == '\r' || s[0] == '\n' }

  lemma FirstOfWhole(s: string, t: string)
    requires Whole(s) && s != ""
    ensures LineEnd(s) < |s| && Whole(OtherLines(s))
    ensures FirstLine(s + t) == FirstLine(s) && LineEnd(s + t) == LineEnd(s) && OtherLines(s + t) == OtherLines(s) + t
  {
    LineEndIs(s);
    WholeHasBreak(s);
    var rest := s[LineEnd(s)..] + t;
    assert s + t == FirstLine(s) + rest;
    LineEndUnique(FirstLine(s), rest);
    assert rest[1..] == s[LineEnd(s) + 1..] + t;
  }

  lemma WholeHasBreak(s: string)
    requires Whole(s) && s != ""
    ensures LineEnd(s) < |s|
  {
    LineEndIs(s);
    assert s[|s| - 1] in s;
    assert LineEnd(s) == |s| ==> FirstLine(s) == s;
  }

  /** Whole lines are rewritten on their own. */
  lemma {:induction false} ReplaceWhole(p: Pattern, s: string, t: string, value: string)
    requires Whole(s) && p.key != []
    ensures ReplaceLines(p, s + t, value) == ReplaceLines(p, s, value) + ReplaceLines(p, t, value)
    decreases |s|
  {
    if s == "" {
      assert s + t == t;
      NothingToRewrite(p, value);
    } else {
      FirstOfWhole(s, t);
      LineEndIs(s);
      var line, break_, rest := ReplaceLine(p, FirstLine(s), value), [s[LineEnd(s)]], OtherLines(s);
      ReplaceWhole(p, rest, t, value);
      Associates(break_, ReplaceLines(p, rest, value), ReplaceLines(p, t, value));
      Associates(line, break_ + ReplaceLines(p, rest, value), ReplaceLines(p, t, value));
    }
  }

  lemma {:induction false} WholeStays(p: Pattern, s: string, value: string)
    requires Whole(s) && p.key != []
    ensures Whole(ReplaceLines(p, s, value))
    decreases |s|
  {
    if s == "" {
      NothingToRewrite(p, value);
    } else {
      assert s + "" == s;
      FirstOfWhole(s, "");
      LineEndIs(s);
      WholeStays(p, OtherLines(s), value);
    }
  }

  lemma NothingToRewrite(p: Pattern, value: string)
    requires p.key != []
    ensures ReplaceLine(p, "", value) == "" && ReplaceLines(p, "", value) == ""
  {
    assert Find(p, "").None?;
  }

  /** A break goes through unchanged. */
  lemma ReplaceBreak(p: Pattern, break_: char, rest: string, value: string)
    requires p.key != [] && Break(break_)
    ensures ReplaceLines(p, [break_] + rest, value) == [break_] + ReplaceLines(p, rest, value)
  {
    LineEndUnique("", [break_] + rest);
    assert "" + ([break_] + rest) == [break_] + rest;
    NothingToRewrite(p, value);
  }

  /** So is a line that a break, or nothing, follows. */
  lemma ReplaceBefore(p: Pattern, line: string, t: string, value: string)
    requires p.key != [] && BreakFree(line) && Follows(t)
    ensures ReplaceLines(p, line + t, value) == ReplaceLine(p, line, value) + ReplaceLines(p, t, value)
    ensures Follows(ReplaceLines(p, t, value))
  {
    LineEndUnique(line, t);
    if t == "" {
      assert line + t == line;
      NothingToRewrite(p, value);
    } else {
      ReplaceBreak(p, t[0], t[1..], value);
      assert t == [t[0]] + t[1..];
    }
  }

  // ----- a restart -----

  lemma RestartedAround(before: string, line: string, after: string, ufrag: string, pwd: string)
    requires Whole(before) && BreakFree(line) && Follows(after) && Token(ufrag) && Token(pwd)
    ensures Restarted(before + (line + after), ufrag, pwd) ==
            Restarted(before, ufrag, pwd) + (RestartedLine(line, ufrag, pwd) + Restarted(after, ufrag, pwd))
  {
    var half, rest := ReplaceLine(UFRAG_LINE, line, ufrag), ReplaceLines(UFRAG_LINE, after, ufrag);
    KeysDiffer();
    TokenBreakFree(ufrag);
    ReplacedLineBreakFree(UFRAG_LINE, line, ufrag);
    ReplaceWhole(UFRAG_LINE, before, line + after, ufrag);
    ReplaceBefore(UFRAG_LINE, line, after, ufrag);
    WholeStays(UFRAG_LINE, before, ufrag);
    ReplaceWhole(PWD_LINE, ReplaceLines(UFRAG_LINE, before, ufrag), half + rest, pwd);
    ReplaceBefore(PWD_LINE, half, rest, pwd);
  }

  /** In a line that begins with one key, another key comes after it. */
  lemma OtherKeyBehind(a: string, b: string, rest: string, j: nat)
    requires AttributeKey(a) && AttributeKey(b) && Apart(a, b) && b[0] != a[|a| - 1] && KeyAt(b, a + rest, j)
    ensures j >= |a|
  {
    var s := a + rest;
    var i :| 0 <= i < |a| && i < |b| && a[i] != b[i];
    assert s[j..j + |b|][1] == s[j + 1] && s[j..j + |b|][0] == s[j] && s[j..j + |b|][i] == s[j + i];
  }

  /** The line that begins with the key is cut after it and gets the value. */
  lemma CutAtStart(p: Pattern, rest: string, value: string)
    requires p.class_.NotBreak? && p.nonEmpty && rest != "" && BreakFree(rest)
    ensures ReplaceLine(p, p.key + rest, value) == p.key + value
  {
    assert rest[0] in rest;
    MatchAtZero(p, rest);
    FindLeftmost(p, p.key + rest, Some(0));
    assert (p.key + rest)[..0] == "";
  }

  lemma UfragLine(was: string, ufrag: string, pwd: string)
    requires was != "" && BreakFree(was) && Token(ufrag) && Token(pwd)
    ensures RestartedLine(UFRAG + was, ufrag, pwd) == UFRAG + ufrag
  {
    KeysDiffer();
    CutAtStart(UFRAG_LINE, was, ufrag);
    PrintedOther(UFRAG, PWD_LINE, ufrag);
  }

  lemma PwdLine(was: string, ufrag: string, pwd: string)
    requires was != "" && BreakFree(was) && Token(ufrag) && Token(pwd)
    ensures RestartedLine(PWD + was, ufrag, pwd) == PWD + pwd
  {
    KeysDiffer();
    var line := PWD + was;
    match Find(UFRAG_LINE, line)
    case None => CutAtStart(PWD_LINE, was, pwd);
    case Some(i) =>
      FindLeftmost(UFRAG_LINE, line, Some(i));
      OtherKeyBehind(PWD, UFRAG, was, i);
      PwdLineCut(was, i - |PWD|, ufrag, pwd);
      assert line[..i] == PWD + was[..i - |PWD|];
  }

  lemma PwdLineCut(was: string, i: nat, ufrag: string, pwd: string)
    requires i <= |was| && BreakFree(was) && Token(ufrag)
    ensures ReplaceLine(PWD_LINE, PWD + was[..i] + (UFRAG + ufrag), pwd) == PWD + pwd
  {
    KeysDiffer();
    TokenBreakFree(ufrag);
    var rest := was[..i] + (UFRAG + ufrag);
    assert PWD + was[..i] + (UFRAG + ufrag) == PWD + rest;
    CutAtStart(PWD_LINE, rest, pwd);
  }

  /** Wherever the line of the ufrag stands, it gets the new one; the text around it is rewritten on its own. */
  lemma UfragLineRestarted(before: string, was: string, after: string, ufrag: string, pwd: string)
    requires Whole(before) && was != "" && '\r' !in was && '\n' !in was && Follows(after)
    requires Token(ufrag) && Token(pwd)
    ensures Restarted(before + ("a=ice-ufrag:" + was + after), ufrag, pwd) ==
            Restarted(before, ufrag, pwd) + ("a=ice-ufrag:" + ufrag + Restarted(after, ufrag, pwd))
  {
    KeysDiffer();
    UfragLine(was, ufrag, pwd);
    RestartedAround(before, UFRAG + was, after, ufrag, pwd);
  }

  /** So does the line of the pwd. */
  lemma PwdLineRestarted(before: string, was: string, after: string, ufrag: string, pwd: string)
    requires Whole(before) && was != "" && '\r' !in was && '\n' !in was && Follows(after)
    requires Token(ufrag) && Token(pwd)
    ensures Restarted(before + ("a=ice-pwd:" + was + after), ufrag, pwd) ==
            Restarted(before, ufrag, pwd) + ("a=ice-pwd:" + pwd + Restarted(after, ufrag, pwd))
  {
    KeysDiffer();
    PwdLine(was, ufrag, pwd);
    RestartedAround(before, PWD + was, after, ufrag, pwd);
  }

  /** A key with nothing behind it is left alone. */
  lemma EmptyLinesStay(ufrag: string, pwd: string)
    ensures RestartedLine("a=ice-ufrag:", ufrag, pwd) == "a=ice-ufrag:"
    ensures RestartedLine("a=ice-pwd:", ufrag, pwd) == "a=ice-pwd:"
  {
    KeysDiffer();
    TooShort(UFRAG_LINE, UFRAG);
    TooShort(UFRAG_LINE, PWD);
    TooShort(PWD_LINE, PWD);
    assert UFRAG + "" == UFRAG;
    PrintedOther(UFRAG, PWD_LINE, "");
  }

  // ----- parsing -----

  lemma {:induction false} CaptureWhole(p: Pattern, s: string, t: string)
    requires Whole(s) && p.Valid()
    ensures Capture(p, s + t) == if Capture(p, s).Some? then Capture(p, s) else Capture(p, t)
    ensures CaptureLines(p, s + t) == CaptureLines(p, s) + CaptureLines(p, t)
    decreases |s|
  {
    NothingInEmpty(p);
    if s == "" {
      assert s + t == t;
      assert CaptureLines(p, "") == [];
    } else {
      FirstOfWhole(s, t);
      CaptureByLine(p, s);
      CaptureByLine(p, s + t);
      CaptureWhole(p, OtherLines(s), t);
      Associates(AsSeq(Capture(p, FirstLine(s))), CaptureLines(p, OtherLines(s)), CaptureLines(p, t));
    }
  }

  lemma CaptureBefore(p: Pattern, line: string, t: string)
    requires BreakFree(line) && Follows(t) && p.Valid()
    ensures Capture(p, line + t) == if Capture(p, line).Some? then Capture(p, line) else Capture(p, t)
    ensures CaptureLines(p, line + t) == AsSeq(Capture(p, line)) + CaptureLines(p, t)
  {
    NothingInEmpty(p);
    if t == "" {
      OneLine(line);
      assert line + t == line && CaptureLines(p, "") == [];
    } else {
      assert t == [t[0]] + t[1..];
      AfterLine(p, line, t[0], t[1..]);
      CaptureBreak(p, t[0], t[1..]);
    }
  }

  lemma CaptureBreak(p: Pattern, break_: char, rest: string)
    requires p.Valid() && Break(break_)
    ensures Capture(p, [break_] + rest) == Capture(p, rest)
    ensures CaptureLines(p, [break_] + rest) == CaptureLines(p, rest)
  {
    NothingInEmpty(p);
    assert "" + ([break_] + rest) == [break_] + rest;
    AfterLine(p, "", break_, rest);
  }

  lemma CaptureAround(p: Pattern, before: string, line: string, after: string)
    requires Whole(before) && BreakFree(line) && Follows(after) && p.Valid()
    ensures Capture(p, before).None? && Capture(p, line).Some? ==>
              Capture(p, before + (line + after)) == Capture(p, line)
    ensures CaptureLines(p, before + (line + after)) ==
            CaptureLines(p, before) + (AsSeq(Capture(p, line)) + CaptureLines(p, after))
  {
    CaptureWhole(p, before, line + after);
    CaptureBefore(p, line, after);
  }

  /** Blank, tab, vertical tab, form feed. */
  const BLANKS: string := " \t\U{0B}\U{0C}"

  /** Nothing of the rest of a line belongs to the value. */
  predicate EndsValue(tail: string) { '\r' !in tail && '\n' !in tail && (tail == "" || tail[0] in BLANKS) }

  /** No white space at all. */
  predicate Plain(v: string) { '\r' !in v && '\n' !in v && forall c :: c in BLANKS ==> c !in v }

  lemma PlainIsSpaceFree(v: string)
    requires Plain(v)
    ensures SpaceFree(v)
  {
    assert BLANKS[0] == ' ' && BLANKS[1] == '\t' && BLANKS[2] == '\U{0B}' && BLANKS[3] == '\U{0C}';
    forall c | c in v ensures !Space(c) {
      assert BLANKS[0] in BLANKS && BLANKS[1] in BLANKS && BLANKS[2] in BLANKS && BLANKS[3] in BLANKS;
    }
  }

  lemma ValueOfLine(p: Pattern, value: string, tail: string)
    requires p.class_.NotSpace? && p.nonEmpty && SpaceFree(value) && value != "" && EndsValue(tail)
    ensures Capture(p, p.key + (value + tail)) == Some(value)
  {
    var s, n := p.key + (value + tail), |p.key|;
    assert value[0] in value;
    MatchAtZero(p, value + tail);
    FindLeftmost(p, s, Some(0));
    assert forall k :: n <= k < n + |value| ==> s[k] == value[k - n] && s[k] in value;
    RunEndIs(NotSpace, s, n, n + |value|);
    assert s[n..n + |value|] == value;
  }

  lemma NoValueInLine(p: Pattern, tail: string)
    requires p.class_.NotSpace? && p.nonEmpty && AttributeKey(p.key) && EndsValue(tail) && '=' !in tail
    ensures Capture(p, p.key + tail).None?
  {
    var s := p.key + tail;
    forall j: nat ensures !MatchesAt(p, s, j) {
      if KeyAt(p.key, s, j) {
        assert s[j..j + |p.key|][1] == s[j + 1] == '=';
        assert j == 0;
        assert tail != "" ==> s[|p.key|] == tail[0];
      }
    }
    FindLeftmost(p, s, None);
  }

  /** The ufrag of a text is the first, wherever it stands, up to the first white space. */
  lemma UfragRead(before: string, ufrag: string, tail: string, after: string)
    requires Whole(before) && Follows(after) && EndsValue(tail) && Plain(ufrag) && ufrag != ""
    requires Parsed(before).iceUfrag == ""
    ensures Parsed(before + ("a=ice-ufrag:" + (ufrag + tail) + after)).iceUfrag == ufrag
  {
    KeysDiffer();
    PlainIsSpaceFree(ufrag);
    ValueOfLine(UFRAG_VALUE, ufrag, tail);
    NothingCaptured(UFRAG_VALUE, before);
    CaptureAround(UFRAG_VALUE, before, UFRAG + (ufrag + tail), after);
  }

  lemma PwdRead(before: string, pwd: string, tail: string, after: string)
    requires Whole(before) && Follows(after) && EndsValue(tail) && Plain(pwd) && pwd != ""
    requires Parsed(before).icePwd == ""
    ensures Parsed(before + ("a=ice-pwd:" + (pwd + tail) + after)).icePwd == pwd
  {
    KeysDiffer();
    PlainIsSpaceFree(pwd);
    ValueOfLine(PWD_VALUE, pwd, tail);
    NothingCaptured(PWD_VALUE, before);
    CaptureAround(PWD_VALUE, before, PWD + (pwd + tail), after);
  }

  /** No value is empty. */
  lemma NothingCaptured(p: Pattern, s: string)
    requires p.nonEmpty && OrEmpty(Capture(p, s)) == ""
    ensures Capture(p, s).None?
  {
    if Find(p, s).Some? {
      var i := Find(p, s).value;
      FindLeftmost(p, s, Some(i));
      RunEndIs(p.class_, s, i + |p.key|, RunEnd(p.class_, s, i + |p.key|));
    }
  }

  /** A key with nothing, or only white space, behind it names no value. */
  lemma EmptyValuesUnread(tail: string)
    requires EndsValue(tail) && '=' !in tail
    ensures Parsed("a=ice-ufrag:" + tail).iceUfrag == "" && Parsed("a=ice-pwd:" + tail).icePwd == ""
  {
    KeysDiffer();
    NoValueInLine(UFRAG_VALUE, tail);
    NoValueInLine(PWD_VALUE, tail);
  }

  /** A candidate line anywhere gives one candidate, the rest of the line, between those before and after it. */
  lemma CandidateRead(before: string, candidate: string, after: string)
    requires Whole(before) && Follows(after) && '\r' !in candidate && '\n' !in candidate
    ensures Parsed(before + ("a=candidate:" + candidate + after)).candidates ==
            Parsed(before).candidates + (["candidate:" + candidate] + Parsed(after).candidates)
  {
    KeysDiffer();
    CandidateCaptured(before, candidate, after);
    PrefixedJoins(CaptureLines(CANDIDATE_VALUE, before), [candidate], CaptureLines(CANDIDATE_VALUE, after));
    assert Prefixed([candidate]) == ["candidate:" + candidate];
  }

  lemma CandidateCaptured(before: string, candidate: string, after: string)
    requires Whole(before) && Follows(after) && BreakFree(candidate)
    ensures CaptureLines(CANDIDATE_VALUE, before + (CANDIDATE + candidate + after)) ==
            CaptureLines(CANDIDATE_VALUE, before) + ([candidate] + CaptureLines(CANDIDATE_VALUE, after))
  {
    KeysDiffer();
    PrintedCandidate(candidate);
    CaptureAround(CANDIDATE_VALUE, before, CANDIDATE + candidate, after);
  }

  lemma PrefixedJoins(a: seq<string>, b: seq<string>, c: seq<string>)
    ensures Prefixed(a + (b + c)) == Prefixed(a) + (Prefixed(b) + Prefixed(c))
  {
  }
}
