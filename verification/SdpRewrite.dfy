/** regex_replace over a whole text, and what later searches see of it. */
module SdpRewrite {
  import opened Basics
  import opened SdpScanner

  /** Every match from left to right becomes key and value; the text between matches is copied. */
  function ReplaceAll(p: Pattern, s: string, value: string): string
    requires p.key != []
    decreases |s|
  {
    match Find(p, s)
    case None => s
    case Some(i) => s[..i] + (p.key + value + ReplaceAll(p, After(p, s, i), value))
  }

  function ReplaceLine(p: Pattern, line: string, value: string): string {
    match Find(p, line)
    case None => line
    case Some(i) => line[..i] + (p.key + value)
  }

  /** Each matching line is cut after its first key and gets the value; breaks and other lines stay. */
  function ReplaceLines(p: Pattern, s: string, value: string): string
    decreases |s|
  {
    ReplaceLine(p, FirstLine(s), value) +
    if LineEnd(s) == |s| then [] else [s[LineEnd(s)]] + ReplaceLines(p, OtherLines(s), value)
  }

  lemma ReplaceAllStep(p: Pattern, s: string, value: string, i: nat)
    requires p.key != [] && Find(p, s) == Some(i)
    ensures ReplaceAll(p, s, value) == s[..i] + (p.key + value + ReplaceAll(p, After(p, s, i), value))
  {
  }

  lemma ReplaceAllSkips(p: Pattern, s: string, value: string)
    requires p.Valid() && Find(p, FirstLine(s)).None? && LineEnd(s) < |s|
    ensures ReplaceAll(p, s, value) == FirstLine(s) + ([s[LineEnd(s)]] + ReplaceAll(p, OtherLines(s), value))
  {
    FindByLine(p, s);
    var line, rest := FirstLine(s), OtherLines(s);
    if Find(p, rest).Some? {
      ReplaceAllPast(p, s, value, Find(p, rest).value);
    } else {
      NothingToReplace(p, s, value);
      NothingToReplace(p, rest, value);
      assert s == line + ([s[LineEnd(s)]] + rest);
    }
  }

  lemma ReplaceAllPast(p: Pattern, s: string, value: string, i: nat)
    requires p.Valid() && LineEnd(s) < |s| && Find(p, OtherLines(s)) == Some(i)
    requires Find(p, s) == Some(LineEnd(s) + 1 + i)
    ensures ReplaceAll(p, s, value) == FirstLine(s) + ([s[LineEnd(s)]] + ReplaceAll(p, OtherLines(s), value))
  {
    var e, line, rest := LineEnd(s), FirstLine(s), OtherLines(s);
    MatchInOtherLines(p, s, i);
    ReplaceAllStep(p, s, value, e + 1 + i);
    ReplaceAllStep(p, rest, value, i);
    PrefixPastLine(s, e, i);
    var tail := p.key + value + ReplaceAll(p, After(p, rest, i), value);
    Associates(line, [s[e]] + rest[..i], tail);
    Associates([s[e]], rest[..i], tail);
  }

  lemma PrefixPastLine(s: string, e: nat, i: nat)
    requires e + 1 + i <= |s|
    ensures s[..e + 1 + i] == s[..e] + ([s[e]] + s[e + 1..][..i])
  {
  }

  lemma NothingToReplace(p: Pattern, s: string, value: string)
    requires p.key != [] && Find(p, s).None?
    ensures ReplaceAll(p, s, value) == s
  {
  }

  lemma ReplaceAllFromLineEnd(p: Pattern, s: string, value: string)
    requires p.Valid()
    ensures ReplaceAll(p, s[LineEnd(s)..], value) ==
            if LineEnd(s) == |s| then [] else [s[LineEnd(s)]] + ReplaceAll(p, OtherLines(s), value)
  {
    var e := LineEnd(s);
    NothingInEmpty(p);
    if e == |s| {
      assert s[e..] == [];
    } else {
      LineEndIs(s);
      var t := s[e..];
      LineEndUnique([], t);
      assert [] + t == t && t[1..] == s[e + 1..];
      ReplaceAllSkips(p, t, value);
    }
  }

  lemma ReplaceAllTakes(p: Pattern, s: string, value: string)
    requires p.Valid() && p.class_.NotBreak? && Find(p, FirstLine(s)).Some?
    ensures ReplaceAll(p, s, value) == ReplaceLine(p, FirstLine(s), value) + ReplaceAll(p, s[LineEnd(s)..], value)
  {
    FindByLine(p, s);
    var i := Find(p, FirstLine(s)).value;
    AfterLineMatch(p, s, i);
    ReplaceAllStep(p, s, value, i);
    assert s[..i] == FirstLine(s)[..i];
  }

  /** The global replacement works line by line on every text. */
  lemma {:induction false} ReplaceAllByLine(p: Pattern, s: string, value: string)
    requires p.Valid() && p.class_.NotBreak?
    ensures ReplaceAll(p, s, value) == ReplaceLines(p, s, value)
    decreases |s|
  {
    FindByLine(p, s);
    NothingInEmpty(p);
    if LineEnd(s) < |s| {
      ReplaceAllByLine(p, OtherLines(s), value);
    }
    if Find(p, FirstLine(s)).Some? {
      ReplaceAllTakes(p, s, value);
      ReplaceAllFromLineEnd(p, s, value);
    } else if LineEnd(s) < |s| {
      ReplaceAllSkips(p, s, value);
    } else {
      assert FirstLine(s) == s;
    }
  }

  lemma ReplacedLineBreakFree(p: Pattern, line: string, value: string)
    requires p.Valid() && BreakFree(line) && BreakFree(value)
    ensures BreakFree(ReplaceLine(p, line, value))
  {
  }

  /** The lines of the result are the replaced lines, with the same breaks between them. */
  lemma ReplacedLines(p: Pattern, s: string, value: string)
    requires p.Valid() && BreakFree(value)
    ensures var r := ReplaceLines(p, s, value);
            && FirstLine(r) == ReplaceLine(p, FirstLine(s), value)
            && (LineEnd(r) == |r| <==> LineEnd(s) == |s|)
            && (LineEnd(s) < |s| ==>
                  r[LineEnd(r)] == s[LineEnd(s)] && OtherLines(r) == ReplaceLines(p, OtherLines(s), value))
  {
    LineEndIs(s);
    var line := ReplaceLine(p, FirstLine(s), value);
    ReplacedLineBreakFree(p, FirstLine(s), value);
    LineEndUnique(line, if LineEnd(s) == |s| then [] else [s[LineEnd(s)]] + ReplaceLines(p, OtherLines(s), value));
  }

  // ----- searching for the same key -----

  /** Cutting a line after its leftmost match leaves no earlier one. */
  lemma NoEarlierMatch(rw: Pattern, p: Pattern, line: string, value: string, i: nat, j: nat)
    requires rw.key == p.key && rw.class_.NotBreak? && rw.nonEmpty && p.nonEmpty
    requires Find(rw, line) == Some(i) && j < i
    ensures !MatchesAt(p, line[..i] + (rw.key + value), j)
  {
    FindLeftmost(rw, line, Some(i));
    var n, cut := |rw.key|, line[..i] + (rw.key + value);
    assert cut[..i + n] == line[..i + n] by {
      assert line[..i + n] == line[..i] + line[i..i + n];
    }
    assert forall k :: j <= k < j + n ==> cut[k] == cut[..i + n][k] == line[..i + n][k] == line[k];
    assert cut[j..j + n] == line[j..j + n];
    assert cut[j + n] == cut[..i + n][j + n] == line[j + n];
    assert !MatchesAt(rw, line, j);
  }

  lemma MatchAtCut(p: Pattern, prefix: string, value: string)
    requires p.nonEmpty
    ensures MatchesAt(p, prefix + (p.key + value), |prefix|) <==> value != [] && p.class_.Has(value[0])
  {
    var i, j, cut := |prefix|, |prefix| + |p.key|, prefix + (p.key + value);
    assert cut[i..j] == p.key;
    assert value != [] ==> cut[j] == value[0];
  }

  lemma RunAtCut(p: Pattern, prefix: string, value: string)
    requires forall c :: c in value ==> p.class_.Has(c)
    ensures RunAt(p, prefix + (p.key + value), |prefix|) == value
  {
    var j, cut := |prefix| + |p.key|, prefix + (p.key + value);
    assert cut == (prefix + p.key) + value;
    assert forall k :: j <= k < |cut| ==> cut[k] == value[k - j];
    RunEndIs(p.class_, cut, j, |cut|);
  }

  /** The attribute of a replaced line is the new value. */
  lemma CaptureReplacedLine(rw: Pattern, p: Pattern, line: string, value: string)
    requires rw.Valid() && rw.key == p.key && rw.class_.NotBreak? && rw.nonEmpty && p.class_.NotSpace? && p.nonEmpty
    requires SpaceFree(value) && BreakFree(line)
    ensures Capture(p, ReplaceLine(rw, line, value)) ==
            if Find(rw, line).Some? && value != [] then Some(value) else None
  {
    match Find(rw, line)
    case None =>
      FindLeftmost(rw, line, None);
      forall j: nat ensures !MatchesAt(p, line, j) {
        assert !MatchesAt(rw, line, j);
      }
      FindLeftmost(p, line, None);
    case Some(i) =>
      var cut := line[..i] + (rw.key + value);
      forall j: nat | j < i ensures !MatchesAt(p, cut, j) {
        NoEarlierMatch(rw, p, line, value, i, j);
      }
      MatchAtCut(p, line[..i], value);
      if value == [] {
        FindLeftmost(p, cut, None);
      } else {
        assert value[0] in value;
        FindLeftmost(p, cut, Some(i));
        RunAtCut(p, line[..i], value);
      }
  }

  /** After a global replacement the attribute reads as the new value, if there was anything to replace. */
  lemma {:induction false} CaptureReplaced(rw: Pattern, p: Pattern, s: string, value: string)
    requires rw.Valid() && rw.key == p.key && rw.class_.NotBreak? && rw.nonEmpty && p.class_.NotSpace? && p.nonEmpty
    requires SpaceFree(value)
    ensures Capture(p, ReplaceLines(rw, s, value)) ==
            if Find(rw, s).Some? && value != [] then Some(value) else None
    decreases |s|
  {
    LineEndIs(s);
    FindByLine(rw, s);
    NothingInEmpty(rw);
    NothingInEmpty(p);
    ReplacedLines(rw, s, value);
    CaptureByLine(p, ReplaceLines(rw, s, value));
    CaptureReplacedLine(rw, p, FirstLine(s), value);
    if LineEnd(s) < |s| {
      CaptureReplaced(rw, p, OtherLines(s), value);
    }
  }

  lemma ReplaceLineTwice(p: Pattern, line: string, first: string, second: string)
    requires p.Valid() && p.class_.NotBreak? && p.nonEmpty
    requires first != [] && BreakFree(first)
    ensures ReplaceLine(p, ReplaceLine(p, line, first), second) == ReplaceLine(p, line, second)
  {
    if Find(p, line).Some? {
      var i := Find(p, line).value;
      var cut := line[..i] + (p.key + first);
      forall j: nat | j < i ensures !MatchesAt(p, cut, j) {
        NoEarlierMatch(p, p, line, first, i, j);
      }
      assert first[0] in first;
      MatchAtCut(p, line[..i], first);
      FindLeftmost(p, cut, Some(i));
      assert cut[..i] == line[..i];
    }
  }

  /** The last replacement wins; in particular replacing is idempotent. */
  lemma {:induction false} LastReplacementWins(p: Pattern, s: string, first: string, second: string)
    requires p.Valid() && p.class_.NotBreak? && p.nonEmpty
    requires first != [] && BreakFree(first)
    ensures ReplaceLines(p, ReplaceLines(p, s, first), second) == ReplaceLines(p, s, second)
    decreases |s|
  {
    ReplacedLines(p, s, first);
    ReplaceLineTwice(p, FirstLine(s), first, second);
    if LineEnd(s) < |s| {
      LastReplacementWins(p, OtherLines(s), first, second);
    }
  }

  // ----- searching for another key -----

  ghost predicate Contains(key: string, line: string) { exists j: nat :: KeyAt(key, line, j) }

  /** No line holds both keys. */
  ghost predicate Exclusive(a: string, b: string, s: string)
    decreases |s|
  {
    && !(Contains(a, FirstLine(s)) && Contains(b, FirstLine(s)))
    && (LineEnd(s) < |s| ==> Exclusive(a, b, OtherLines(s)))
  }

  /** The keys of the session description: `x=` and then no other equals sign. */
  predicate AttributeKey(key: string) {
    && |key| >= 2 && key[1] == '=' && BreakFree(key)
    && forall i :: 0 <= i < |key| && i != 1 ==> key[i] != '='
  }

  /** They differ somewhere both have a character. */
  predicate Apart(a: string, b: string) { exists i :: 0 <= i < |a| && i < |b| && a[i] != b[i] }

  /** Key and value contain no other key than the prefix already did. */
  lemma NoOtherKey(a: string, b: string, prefix: string, value: string, j: nat)
    requires AttributeKey(a) && AttributeKey(b) && Apart(a, b) && '=' !in value
    requires KeyAt(b, prefix + (a + value), j)
    ensures KeyAt(b, prefix + a, j)
  {
    var i, s := |prefix|, prefix + (a + value);
    assert s[j + 1] == s[j..j + |b|][1] == '=';
    assert s[i + 1] == a[1];
    assert j + |b| <= i + 1;
    assert (prefix + a)[..i + 1] == s[..i + 1];
    assert s[j..j + |b|] == s[..i + 1][j..j + |b|] == (prefix + a)[j..j + |b|];
  }

  lemma ReplacedLineLacksOther(rw: Pattern, key: string, line: string, value: string)
    requires AttributeKey(rw.key) && AttributeKey(key) && Apart(rw.key, key) && '=' !in value
    requires Find(rw, line).Some? && !Contains(key, line)
    ensures !Contains(key, ReplaceLine(rw, line, value))
  {
    var i := Find(rw, line).value;
    FindLeftmost(rw, line, Some(i));
    var n := i + |rw.key|;
    assert line[..i] + rw.key == line[..n];
    forall j: nat ensures !KeyAt(key, line[..i] + (rw.key + value), j) {
      assert !KeyAt(key, line, j);
      KeyInPrefix(key, line, n, j);
      if KeyAt(key, line[..i] + (rw.key + value), j) {
        NoOtherKey(rw.key, key, line[..i], value, j);
      }
    }
  }

  lemma KeyInPrefix(key: string, s: string, n: nat, j: nat)
    requires n <= |s|
    ensures KeyAt(key, s[..n], j) ==> KeyAt(key, s, j)
  {
    assert j + |key| <= n ==> s[..n][j..j + |key|] == s[j..j + |key|];
  }

  /** Either the line is untouched, or it holds the other key neither before nor after. */
  lemma OtherKeyUntouched(rw: Pattern, key: string, line: string, value: string)
    requires AttributeKey(rw.key) && AttributeKey(key) && Apart(rw.key, key) && '=' !in value
    requires !(Contains(rw.key, line) && Contains(key, line))
    ensures ReplaceLine(rw, line, value) == line ||
            (!Contains(key, line) && !Contains(key, ReplaceLine(rw, line, value)))
  {
    if Find(rw, line).Some? {
      FindLeftmost(rw, line, Find(rw, line));
      assert KeyAt(rw.key, line, Find(rw, line).value);
      ReplacedLineLacksOther(rw, key, line, value);
    }
  }

  lemma NotFoundWithoutKey(p: Pattern, line: string)
    requires !Contains(p.key, line)
    ensures Find(p, line).None?
  {
    FindLeftmost(p, line, Find(p, line));
  }

  lemma CaptureOtherKeyInLine(rw: Pattern, p: Pattern, line: string, value: string)
    requires AttributeKey(rw.key) && AttributeKey(p.key) && Apart(rw.key, p.key) && '=' !in value
    requires !(Contains(rw.key, line) && Contains(p.key, line))
    ensures Find(p, ReplaceLine(rw, line, value)).Some? <==> Find(p, line).Some?
    ensures Capture(p, ReplaceLine(rw, line, value)) == Capture(p, line)
  {
    OtherKeyUntouched(rw, p.key, line, value);
    if ReplaceLine(rw, line, value) != line {
      NotFoundWithoutKey(p, line);
      NotFoundWithoutKey(p, ReplaceLine(rw, line, value));
    }
  }

  /** Where no line holds both keys, replacing one leaves every search for the other as it was. */
  lemma {:induction false} OtherKeyKept(rw: Pattern, p: Pattern, s: string, value: string)
    requires AttributeKey(rw.key) && AttributeKey(p.key) && Apart(rw.key, p.key) && '=' !in value && BreakFree(value)
    requires Exclusive(rw.key, p.key, s)
    ensures Capture(p, ReplaceLines(rw, s, value)) == Capture(p, s)
    ensures CaptureLines(p, ReplaceLines(rw, s, value)) == CaptureLines(p, s)
    ensures Find(p, ReplaceLines(rw, s, value)).Some? <==> Find(p, s).Some?
    decreases |s|
  {
    LineEndIs(s);
    NothingInEmpty(p);
    var r := ReplaceLines(rw, s, value);
    ReplacedLines(rw, s, value);
    CaptureByLine(p, s);
    CaptureByLine(p, r);
    FindByLine(p, s);
    FindByLine(p, r);
    CaptureOtherKeyInLine(rw, p, FirstLine(s), value);
    if LineEnd(s) < |s| {
      OtherKeyKept(rw, p, OtherLines(s), value);
    }
  }

  /** Replacing one key keeps any two keys apart that were apart from it and from each other. */
  lemma {:induction false} ExclusiveKept(rw: Pattern, a: string, b: string, s: string, value: string)
    requires AttributeKey(rw.key) && AttributeKey(a) && AttributeKey(b) && '=' !in value && BreakFree(value)
    requires Apart(rw.key, a) && Apart(rw.key, b)
    requires Exclusive(rw.key, a, s) && Exclusive(rw.key, b, s) && Exclusive(a, b, s)
    ensures Exclusive(a, b, ReplaceLines(rw, s, value))
    decreases |s|
  {
    ReplacedLines(rw, s, value);
    OtherKeyUntouched(rw, a, FirstLine(s), value);
    OtherKeyUntouched(rw, b, FirstLine(s), value);
    if LineEnd(s) < |s| {
      ExclusiveKept(rw, a, b, OtherLines(s), value);
    }
  }

  // ----- two replacements -----

  /** Texts with the same breaks whose lines are the same once replaced. */
  lemma SameReplaced(p: Pattern, s: string, t: string, value: string)
    requires ReplaceLine(p, FirstLine(s), value) == ReplaceLine(p, FirstLine(t), value)
    requires LineEnd(s) == |s| <==> LineEnd(t) == |t|
    requires LineEnd(s) < |s| ==>
               && s[LineEnd(s)] == t[LineEnd(t)]
               && ReplaceLines(p, OtherLines(s), value) == ReplaceLines(p, OtherLines(t), value)
    ensures ReplaceLines(p, s, value) == ReplaceLines(p, t, value)
  {
  }

  lemma SameLines(s: string, t: string)
    requires FirstLine(s) == FirstLine(t) && (LineEnd(s) == |s| <==> LineEnd(t) == |t|)
    requires LineEnd(s) < |s| ==> s[LineEnd(s)] == t[LineEnd(t)] && OtherLines(s) == OtherLines(t)
    ensures s == t
  {
    assert forall u :: LineEnd(u) < |u| ==> u == FirstLine(u) + [u[LineEnd(u)]] + OtherLines(u);
    assert forall u :: LineEnd(u) == |u| ==> u == FirstLine(u);
  }

  /** A line that lacks b's key is the same to b before and after the replacement of a. */
  lemma CommuteWithout(a: Pattern, b: Pattern, line: string, valueA: string, valueB: string)
    requires AttributeKey(a.key) && AttributeKey(b.key) && Apart(a.key, b.key) && '=' !in valueA
    requires !Contains(b.key, line)
    ensures ReplaceLine(a, ReplaceLine(b, line, valueB), valueA) == ReplaceLine(b, ReplaceLine(a, line, valueA), valueB)
  {
    NotFoundWithoutKey(b, line);
    if Find(a, line).Some? {
      ReplacedLineLacksOther(a, b.key, line, valueA);
      NotFoundWithoutKey(b, ReplaceLine(a, line, valueA));
    }
  }

  /** Where no line holds both keys, the two replacements can be made in either order. */
  lemma {:induction false} Commute(a: Pattern, b: Pattern, s: string, valueA: string, valueB: string)
    requires AttributeKey(a.key) && AttributeKey(b.key) && Apart(a.key, b.key) && Apart(b.key, a.key)
    requires '=' !in valueA && '=' !in valueB && BreakFree(valueA) && BreakFree(valueB)
    requires Exclusive(a.key, b.key, s)
    ensures ReplaceLines(a, ReplaceLines(b, s, valueB), valueA) == ReplaceLines(b, ReplaceLines(a, s, valueA), valueB)
    decreases |s|
  {
    ReplacedLines(a, s, valueA);
    ReplacedLines(b, s, valueB);
    ReplacedLines(a, ReplaceLines(b, s, valueB), valueA);
    ReplacedLines(b, ReplaceLines(a, s, valueA), valueB);
    if Contains(b.key, FirstLine(s)) {
      CommuteWithout(b, a, FirstLine(s), valueB, valueA);
    } else {
      CommuteWithout(a, b, FirstLine(s), valueA, valueB);
    }
    if LineEnd(s) < |s| {
      Commute(a, b, OtherLines(s), valueA, valueB);
    }
    SameLines(ReplaceLines(a, ReplaceLines(b, s, valueB), valueA), ReplaceLines(b, ReplaceLines(a, s, valueA), valueB));
  }
}
