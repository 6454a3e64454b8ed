/** When the candidates of a description survive an ICE restart, on every text. */
module SdpCandidates {
  import opened Basics
  import opened SdpScanner
  import opened SdpRewrite
  import opened SdpText

  /** The two rewrites of a restart. */
  predicate Rewrite(rw: Pattern) { rw == UFRAG_LINE || rw == PWD_LINE }

  lemma KeyInCut(key: string, prefix: string, tail: string, j: nat)
    requires j + |key| <= |prefix|
    ensures KeyAt(key, prefix + tail, j) <==> KeyAt(key, prefix, j)
  {
    assert (prefix + tail)[j..j + |key|] == prefix[j..j + |key|];
  }

  /** A candidate key found in a rewritten line was the first of the line, and everything up to it is as it was. */
  lemma CandidateInRewritten(rw: Pattern, line: string, value: string)
    requires Rewrite(rw) && Token(value)
    ensures var now, was := Find(CANDIDATE_VALUE, ReplaceLine(rw, line, value)), Find(CANDIDATE_VALUE, line);
            now.Some? ==>
              && now == was
              && ReplaceLine(rw, line, value)[..now.value + |CANDIDATE|] == line[..now.value + |CANDIDATE|]
  {
    match Find(rw, line)
    case None =>
    case Some(i) =>
      assert line == line[..i] + line[i..];
      var now := Find(CANDIDATE_VALUE, line[..i] + (rw.key + value));
      if now.Some? { CandidateInCut(rw, line[..i], line[i..], value, now.value); }
  }

  lemma CandidateInCut(rw: Pattern, prefix: string, rest: string, value: string, j: nat)
    requires Rewrite(rw) && Token(value) && Find(CANDIDATE_VALUE, prefix + (rw.key + value)) == Some(j)
    ensures Find(CANDIDATE_VALUE, prefix + rest) == Some(j)
    ensures (prefix + (rw.key + value))[..j + |CANDIDATE|] == (prefix + rest)[..j + |CANDIDATE|]
  {
    KeysDiffer();
    var cut := prefix + (rw.key + value);
    FindLeftmost(CANDIDATE_VALUE, cut, Some(j));
    KeyBeforeCut(rw.key, CANDIDATE, prefix, value, j);
    KeyInCut(CANDIDATE, prefix, rest, j);
    forall i: nat | i < j ensures !MatchesAt(CANDIDATE_VALUE, prefix + rest, i) {
      KeyInCut(CANDIDATE, prefix, rest, i);
      KeyInCut(CANDIDATE, prefix, rw.key + value, i);
      assert !MatchesAt(CANDIDATE_VALUE, cut, i);
    }
    FindLeftmost(CANDIDATE_VALUE, prefix + rest, Some(j));
  }

  /** The candidate of a line is the rest of it. */
  lemma CandidateIsRest(line: string)
    requires BreakFree(line) && Find(CANDIDATE_VALUE, line).Some?
    ensures Capture(CANDIDATE_VALUE, line) == Some(line[Find(CANDIDATE_VALUE, line).value + |CANDIDATE|..])
  {
    var from := Find(CANDIDATE_VALUE, line).value + |CANDIDATE|;
    assert forall k :: from <= k < |line| ==> line[k] in line;
    RunEndIs(NotBreak, line, from, |line|);
    assert line[from..|line|] == line[from..];
  }

  /** A restart gives no line a candidate, and leaves a candidate only if it leaves the line. */
  lemma CandidateOfLine(line: string, ufrag: string, pwd: string)
    requires Token(ufrag) && Token(pwd) && BreakFree(line)
    ensures var was, now := Capture(CANDIDATE_VALUE, line), Capture(CANDIDATE_VALUE, RestartedLine(line, ufrag, pwd));
            (now.Some? ==> was.Some?) && (now == was <==> was.None? || RestartedLine(line, ufrag, pwd) == line)
  {
    var now := RestartedLine(line, ufrag, pwd);
    CandidateInRestarted(line, ufrag, pwd);
    RestartedBreakFree(line, ufrag, pwd);
    if Find(CANDIDATE_VALUE, now).Some? {
      SameCandidate(line, now, Find(CANDIDATE_VALUE, now).value);
    }
  }

  lemma CandidateInRestarted(line: string, ufrag: string, pwd: string)
    requires Token(ufrag) && Token(pwd)
    ensures var now, was := Find(CANDIDATE_VALUE, RestartedLine(line, ufrag, pwd)), Find(CANDIDATE_VALUE, line);
            now.Some? ==>
              && now == was
              && RestartedLine(line, ufrag, pwd)[..now.value + |CANDIDATE|] == line[..now.value + |CANDIDATE|]
  {
    CandidateInRewritten(UFRAG_LINE, line, ufrag);
    CandidateInRewritten(PWD_LINE, ReplaceLine(UFRAG_LINE, line, ufrag), pwd);
  }

  lemma SameCandidate(was: string, now: string, k: nat)
    requires BreakFree(was) && BreakFree(now)
    requires Find(CANDIDATE_VALUE, was) == Some(k) && Find(CANDIDATE_VALUE, now) == Some(k)
    requires was[..k + |CANDIDATE|] == now[..k + |CANDIDATE|]
    ensures Capture(CANDIDATE_VALUE, now) == Capture(CANDIDATE_VALUE, was) <==> now == was
  {
    CandidateIsRest(was);
    CandidateIsRest(now);
    var n := k + |CANDIDATE|;
    assert was == was[..n] + was[n..] && now == now[..n] + now[n..];
  }

  lemma RestartedBreakFree(line: string, ufrag: string, pwd: string)
    requires Token(ufrag) && Token(pwd) && BreakFree(line)
    ensures BreakFree(RestartedLine(line, ufrag, pwd))
  {
    KeysDiffer();
    TokenBreakFree(ufrag);
    TokenBreakFree(pwd);
    ReplacedLineBreakFree(UFRAG_LINE, line, ufrag);
    ReplacedLineBreakFree(PWD_LINE, ReplaceLine(UFRAG_LINE, line, ufrag), pwd);
  }

  /** The restart changes no line that names a candidate. */
  ghost predicate CandidateLinesKept(sdp: string, ufrag: string, pwd: string)
    decreases |sdp|
  {
    && (Contains(CANDIDATE, FirstLine(sdp)) ==> RestartedLine(FirstLine(sdp), ufrag, pwd) == FirstLine(sdp))
    && (LineEnd(sdp) < |sdp| ==> CandidateLinesKept(OtherLines(sdp), ufrag, pwd))
  }

  lemma CandidateNamed(line: string)
    ensures Capture(CANDIDATE_VALUE, line).Some? <==> Contains(CANDIDATE, line)
  {
    var found := Find(CANDIDATE_VALUE, line);
    FindLeftmost(CANDIDATE_VALUE, line, found);
    if found.Some? {
      assert KeyAt(CANDIDATE, line, found.value);
    } else {
      forall j: nat ensures !KeyAt(CANDIDATE, line, j) { assert !MatchesAt(CANDIDATE_VALUE, line, j); }
    }
  }

  lemma Split(a: seq<string>, b: seq<string>, c: seq<string>, d: seq<string>)
    requires |a| <= |c| && |b| <= |d|
    ensures a + b == c + d <==> a == c && b == d
  {
    if a + b == c + d {
      assert |a + b| == |c + d|;
      assert a == (a + b)[..|a|] && c == (c + d)[..|a|] && b == (a + b)[|a|..] && d == (c + d)[|a|..];
    }
  }

  lemma {:induction false} CandidatesOfLines(sdp: string, ufrag: string, pwd: string)
    requires Token(ufrag) && Token(pwd)
    ensures var was, now := CaptureLines(CANDIDATE_VALUE, sdp),
                            CaptureLines(CANDIDATE_VALUE, Restarted(sdp, ufrag, pwd));
            |now| <= |was| && (now == was <==> CandidateLinesKept(sdp, ufrag, pwd))
    decreases |sdp|
  {
    LineEndIs(sdp);
    RestartedLines(sdp, ufrag, pwd);
    CandidateOfLine(FirstLine(sdp), ufrag, pwd);
    CandidateNamed(FirstLine(sdp));
    if LineEnd(sdp) < |sdp| {
      CandidatesOfLines(OtherLines(sdp), ufrag, pwd);
    }
    FewerByLine(CANDIDATE_VALUE, sdp, Restarted(sdp, ufrag, pwd));
  }

  /** If no line gains anything, the same is found exactly if it is found in each line. */
  lemma FewerByLine(p: Pattern, s: string, t: string)
    requires LineEnd(s) == |s| <==> LineEnd(t) == |t|
    requires Capture(p, FirstLine(t)).Some? ==> Capture(p, FirstLine(s)).Some?
    requires LineEnd(s) < |s| ==> |CaptureLines(p, OtherLines(t))| <= |CaptureLines(p, OtherLines(s))|
    ensures |CaptureLines(p, t)| <= |CaptureLines(p, s)|
    ensures CaptureLines(p, t) == CaptureLines(p, s) <==>
            && Capture(p, FirstLine(t)) == Capture(p, FirstLine(s))
            && (LineEnd(s) < |s| ==> CaptureLines(p, OtherLines(t)) == CaptureLines(p, OtherLines(s)))
  {
    var a, c := AsSeq(Capture(p, FirstLine(t))), AsSeq(Capture(p, FirstLine(s)));
    assert a == c <==> Capture(p, FirstLine(t)) == Capture(p, FirstLine(s));
    if LineEnd(s) < |s| {
      Split(a, CaptureLines(p, OtherLines(t)), c, CaptureLines(p, OtherLines(s)));
    } else {
      assert CaptureLines(p, t) == a && CaptureLines(p, s) == c;
    }
  }

  lemma PrefixedSame(a: seq<string>, b: seq<string>)
    ensures Prefixed(a) == Prefixed(b) <==> a == b
  {
    if Prefixed(a) == Prefixed(b) {
      assert |a| == |Prefixed(a)| == |Prefixed(b)| == |b|;
      forall i | 0 <= i < |a| ensures a[i] == b[i] {
        assert Prefixed(a)[i] == "candidate:" + a[i] && Prefixed(b)[i] == "candidate:" + b[i];
        DroppedPrefix("candidate:", a[i], b[i]);
      }
    }
  }

  /** On every text: a restart leaves the candidates exactly if it changes no line that names one. */
  lemma CandidatesKeptExactly(sdp: string, ufrag: string, pwd: string)
    requires Token(ufrag) && Token(pwd)
    ensures Parsed(Restarted(sdp, ufrag, pwd)).candidates == Parsed(sdp).candidates <==>
            CandidateLinesKept(sdp, ufrag, pwd)
  {
    CandidatesOfLines(sdp, ufrag, pwd);
    PrefixedSame(CaptureLines(CANDIDATE_VALUE, Restarted(sdp, ufrag, pwd)), CaptureLines(CANDIDATE_VALUE, sdp));
  }

  // ----- for every pair of credentials -----

  /** No line that names a candidate has a ufrag or a pwd to rewrite. */
  ghost predicate CandidatesApart(sdp: string)
    decreases |sdp|
  {
    && (Contains(CANDIDATE, FirstLine(sdp)) ==>
          Find(UFRAG_LINE, FirstLine(sdp)).None? && Find(PWD_LINE, FirstLine(sdp)).None?)
    && (LineEnd(sdp) < |sdp| ==> CandidatesApart(OtherLines(sdp)))
  }

  /** A rewritten line is at least as long as the value put in last. */
  lemma RewrittenIsLong(line: string, value: string)
    ensures Find(UFRAG_LINE, line).Some? || Find(PWD_LINE, line).Some? ==>
              |RestartedLine(line, value, value)| >= |value|
  {
  }

  lemma {:induction false} KeptIffApart(sdp: string, value: string)
    requires |value| > |sdp|
    ensures CandidateLinesKept(sdp, value, value) ==> CandidatesApart(sdp)
    decreases |sdp|
  {
    RewrittenIsLong(FirstLine(sdp), value);
    if LineEnd(sdp) < |sdp| {
      KeptIffApart(OtherLines(sdp), value);
    }
  }

  lemma {:induction false} ApartIsKept(sdp: string, ufrag: string, pwd: string)
    requires CandidatesApart(sdp)
    ensures CandidateLinesKept(sdp, ufrag, pwd)
    decreases |sdp|
  {
    if LineEnd(sdp) < |sdp| {
      ApartIsKept(OtherLines(sdp), ufrag, pwd);
    }
  }

  ghost predicate AlwaysKept(sdp: string) {
    forall ufrag, pwd :: Token(ufrag) && Token(pwd) ==>
      Parsed(Restarted(sdp, ufrag, pwd)).candidates == Parsed(sdp).candidates
  }

  /** Whatever the new credentials: they stay exactly if no line holds a candidate and something to rewrite. */
  lemma CandidatesAlwaysKeptExactly(sdp: string)
    ensures AlwaysKept(sdp) <==> CandidatesApart(sdp)
  {
    if CandidatesApart(sdp) {
      forall ufrag, pwd | Token(ufrag) && Token(pwd)
        ensures Parsed(Restarted(sdp, ufrag, pwd)).candidates == Parsed(sdp).candidates
      {
        ApartIsKept(sdp, ufrag, pwd);
        CandidatesKeptExactly(sdp, ufrag, pwd);
      }
    }
    if AlwaysKept(sdp) {
      var value := seq(|sdp| + 1, _ => 'x');
      assert Token(value);
      CandidatesKeptExactly(sdp, value, value);
      KeptIffApart(sdp, value);
    }
  }
}
