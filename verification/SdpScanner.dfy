/**
The regular expressions of the signaling code, all of the shape "literal key, then a greedy run of
a character class": leftmost search, the captured run, and the replacement of every match. Each is
shown to work line by line, a line ending at each CR or LF.
*/
module SdpScanner {
  import opened Basics

  predicate Break(c: char) { c == '\r' || c == '\n' }

  /** `\s` of the expressions. */
  predicate Space(c: char) {
    Break(c) || c == ' ' || c == '\t' || c == '\U{0B}' || c == '\U{0C}'
  }

  predicate BreakFree(s: string) { forall c :: c in s ==> !Break(c) }
  predicate SpaceFree(s: string) { forall c :: c in s ==> !Space(c) }

  /** `.` and `[^\r\n]` are NotBreak, `[^\s]` is NotSpace. */
  datatype Class = NotBreak | NotSpace {
    predicate Has(c: char) { if NotBreak? then !Break(c) else !Space(c) }
  }

  /** `key` followed by `class*`, or by `class+` when the run must not be empty. */
  datatype Pattern = Pattern(key: string, class_: Class, nonEmpty: bool) {
    predicate Valid() { key != [] && BreakFree(key) }
  }

  predicate KeyAt(key: string, s: string, i: nat) {
    i + |key| <= |s| && s[i..i + |key|] == key
  }

  predicate MatchesAt(p: Pattern, s: string, i: nat) {
    var j := i + |p.key|;
    KeyAt(p.key, s, i) && (p.nonEmpty ==> j < |s| && p.class_.Has(s[j]))
  }

  /** regex_search: where the leftmost match begins. */
  function Find(p: Pattern, s: string): (r: Option<nat>)
    ensures r.Some? ==> r.value + |p.key| <= |s|
  {
    FindFrom(p, s, 0)
  }

  function FindFrom(p: Pattern, s: string, from: nat): (r: Option<nat>)
    requires from <= |s|
    ensures r.Some? ==> r.value + |p.key| <= |s|
    decreases |s| - from
  {
    if MatchesAt(p, s, from) then Some(from)
    else if from == |s| then None
    else FindFrom(p, s, from + 1)
  }

  ghost predicate Leftmost(p: Pattern, s: string, r: Option<nat>) {
    match r
    case None => forall j: nat :: !MatchesAt(p, s, j)
    case Some(i) => MatchesAt(p, s, i) && forall j: nat :: j < i ==> !MatchesAt(p, s, j)
  }

  lemma {:induction false} FindFromLeftmost(p: Pattern, s: string, from: nat)
    requires from <= |s| && forall j: nat :: j < from ==> !MatchesAt(p, s, j)
    ensures Leftmost(p, s, FindFrom(p, s, from))
    decreases |s| - from
  {
    if !MatchesAt(p, s, from) && from < |s| {
      FindFromLeftmost(p, s, from + 1);
    }
  }

  /** Find is the leftmost match, and only that. */
  lemma FindLeftmost(p: Pattern, s: string, r: Option<nat>)
    ensures Leftmost(p, s, r) <==> r == Find(p, s)
  {
    FindFromLeftmost(p, s, 0);
    var f := Find(p, s);
    if Leftmost(p, s, r) && r.Some? {
      assert MatchesAt(p, s, r.value);
    }
    if f.Some? {
      assert MatchesAt(p, s, f.value);
    }
  }

  /** Where the greedy run that starts at from ends. */
  function RunEnd(c: Class, s: string, from: nat): (e: nat)
    requires from <= |s|
    ensures from <= e <= |s|
    decreases |s| - from
  {
    if from < |s| && c.Has(s[from]) then RunEnd(c, s, from + 1) else from
  }

  ghost predicate Run(c: Class, s: string, from: nat, e: nat) {
    from <= e <= |s| && (forall k :: from <= k < e ==> c.Has(s[k])) && (e < |s| ==> !c.Has(s[e]))
  }

  /** RunEnd is the longest run, and only that. */
  lemma RunEndIs(c: Class, s: string, from: nat, e: nat)
    requires from <= |s|
    ensures Run(c, s, from, e) <==> e == RunEnd(c, s, from)
    decreases |s| - from
  {
    if from < |s| && c.Has(s[from]) {
      RunEndIs(c, s, from + 1, e);
    }
  }

  /** The run captured by a match at i, and the text after that match. */
  function RunAt(p: Pattern, s: string, i: nat): string
    requires i + |p.key| <= |s|
  {
    s[i + |p.key|..RunEnd(p.class_, s, i + |p.key|)]
  }

  function After(p: Pattern, s: string, i: nat): (t: string)
    requires i + |p.key| <= |s|
    ensures |t| <= |s| - |p.key|
  {
    s[RunEnd(p.class_, s, i + |p.key|)..]
  }

  /** The captured run of the leftmost match. */
  function Capture(p: Pattern, s: string): Option<string> {
    match Find(p, s)
    case None => None
    case Some(i) => Some(RunAt(p, s, i))
  }

  // ----- lines -----

  function LineEnd(s: string): (e: nat)
    ensures e <= |s|
  {
    RunEnd(NotBreak, s, 0)
  }

  function FirstLine(s: string): string { s[..LineEnd(s)] }

  /** What follows the first break; empty when there is none. */
  function OtherLines(s: string): string { if LineEnd(s) == |s| then "" else s[LineEnd(s) + 1..] }

  lemma LineEndIs(s: string)
    ensures BreakFree(FirstLine(s)) && (LineEnd(s) < |s| ==> Break(s[LineEnd(s)]))
  {
    RunEndIs(NotBreak, s, 0, LineEnd(s));
  }

  lemma LineEndUnique(line: string, rest: string)
    requires BreakFree(line) && (rest != [] ==> Break(rest[0]))
    ensures LineEnd(line + rest) == |line| && FirstLine(line + rest) == line
    ensures OtherLines(line + rest) == if rest == [] then [] else rest[1..]
  {
    var s := line + rest;
    assert forall k :: 0 <= k < |line| ==> s[k] in line;
    RunEndIs(NotBreak, s, 0, |line|);
  }

  /** A match never spans a break, so it lies in the first line or past it. */
  lemma MatchByLine(p: Pattern, s: string, i: nat)
    requires p.Valid()
    ensures i <= LineEnd(s) ==> (MatchesAt(p, s, i) <==> MatchesAt(p, FirstLine(s), i))
    ensures i > LineEnd(s) ==> (MatchesAt(p, s, i) <==> MatchesAt(p, OtherLines(s), i - LineEnd(s) - 1))
  {
    LineEndIs(s);
    var e, j := LineEnd(s), i + |p.key|;
    if i <= e {
      if e < j <= |s| {
        assert s[i..j][e - i] == s[e];
      } else if j <= e {
        assert s[..e][i..j] == s[i..j];
      }
    } else if j <= |s| {
      assert s[e + 1..][i - e - 1..j - e - 1] == s[i..j];
    }
  }

  lemma FindByLine(p: Pattern, s: string)
    requires p.Valid()
    ensures Find(p, FirstLine(s)).Some? ==> Find(p, s) == Find(p, FirstLine(s))
    ensures Find(p, FirstLine(s)).None? ==>
              Find(p, s) == match Find(p, OtherLines(s)) case None => None case Some(k) => Some(LineEnd(s) + 1 + k)
  {
    FindLeftmost(p, FirstLine(s), Find(p, FirstLine(s)));
    FindLeftmost(p, OtherLines(s), Find(p, OtherLines(s)));
    if Find(p, FirstLine(s)).Some? {
      FindInFirstLine(p, s, Find(p, FirstLine(s)).value);
    } else {
      FindPastFirstLine(p, s, Find(p, OtherLines(s)));
    }
  }

  lemma FindInFirstLine(p: Pattern, s: string, i: nat)
    requires p.Valid() && Leftmost(p, FirstLine(s), Some(i))
    ensures Find(p, s) == Some(i)
  {
    forall j: nat | j <= i ensures MatchesAt(p, s, j) <==> j == i {
      MatchByLine(p, s, j);
    }
    FindLeftmost(p, s, Some(i));
  }

  lemma FindPastFirstLine(p: Pattern, s: string, r: Option<nat>)
    requires p.Valid() && Leftmost(p, FirstLine(s), None) && Leftmost(p, OtherLines(s), r)
    ensures Find(p, s) == if r.Some? then Some(LineEnd(s) + 1 + r.value) else None
  {
    var e := LineEnd(s);
    forall j: nat | r.Some? ==> j <= e + 1 + r.value
      ensures MatchesAt(p, s, j) <==> r.Some? && j == e + 1 + r.value
    {
      MatchByLine(p, s, j);
    }
    FindLeftmost(p, s, if r.Some? then Some(e + 1 + r.value) else None);
  }

  /** A match in a part of the text that a break or the end of the text follows. */
  lemma MatchInside(p: Pattern, s: string, at: nat, part: string, i: nat)
    requires at + |part| <= |s| && s[at..at + |part|] == part && i + |p.key| <= |part|
    requires at + |part| < |s| ==> Break(s[at + |part|])
    ensures RunAt(p, s, at + i) == RunAt(p, part, i)
    ensures After(p, s, at + i) == After(p, part, i) + s[at + |part|..]
  {
    var j := i + |p.key|;
    var k := RunEnd(p.class_, part, j);
    RunEndIs(p.class_, part, j, k);
    assert forall m :: at + j <= m < at + |part| ==> s[m] == part[m - at];
    RunEndIs(p.class_, s, at + j, at + k);
  }

  lemma MatchInFirstLine(p: Pattern, s: string, i: nat)
    requires i + |p.key| <= LineEnd(s)
    ensures RunAt(p, s, i) == RunAt(p, FirstLine(s), i)
    ensures After(p, s, i) == After(p, FirstLine(s), i) + s[LineEnd(s)..]
  {
    LineEndIs(s);
    MatchInside(p, s, 0, FirstLine(s), i);
  }

  lemma MatchInOtherLines(p: Pattern, s: string, i: nat)
    requires LineEnd(s) < |s| && i + |p.key| <= |OtherLines(s)|
    ensures RunAt(p, s, LineEnd(s) + 1 + i) == RunAt(p, OtherLines(s), i)
    ensures After(p, s, LineEnd(s) + 1 + i) == After(p, OtherLines(s), i)
  {
    MatchInside(p, s, LineEnd(s) + 1, OtherLines(s), i);
  }

  /** The captured run is found in the first line that has one. */
  lemma CaptureByLine(p: Pattern, s: string)
    requires p.Valid()
    ensures Capture(p, s) ==
            if Capture(p, FirstLine(s)).Some? then Capture(p, FirstLine(s)) else Capture(p, OtherLines(s))
  {
    FindByLine(p, s);
    if Find(p, FirstLine(s)).Some? {
      MatchInFirstLine(p, s, Find(p, FirstLine(s)).value);
    } else if Find(p, OtherLines(s)).Some? {
      MatchInOtherLines(p, s, Find(p, OtherLines(s)).value);
    }
  }

  // ----- all matches -----

  /** regex_search restarted at the suffix of each match. */
  function CaptureAll(p: Pattern, s: string): seq<string>
    requires p.key != []
    decreases |s|
  {
    match Find(p, s)
    case None => []
    case Some(i) => [RunAt(p, s, i)] + CaptureAll(p, After(p, s, i))
  }

  /** One captured run for each line that has a match. */
  function CaptureLines(p: Pattern, s: string): seq<string>
    decreases |s|
  {
    AsSeq(Capture(p, FirstLine(s))) + if LineEnd(s) == |s| then [] else CaptureLines(p, OtherLines(s))
  }

  function AsSeq(v: Option<string>): seq<string> { if v.Some? then [v.value] else [] }

  lemma CaptureAllSkips(p: Pattern, s: string)
    requires p.Valid() && Find(p, FirstLine(s)).None?
    ensures CaptureAll(p, s) == CaptureAll(p, OtherLines(s))
  {
    FindByLine(p, s);
    var rest := OtherLines(s);
    if Find(p, rest).Some? {
      var i := Find(p, rest).value;
      MatchInOtherLines(p, s, i);
      CaptureAllStep(p, s, LineEnd(s) + 1 + i);
      CaptureAllStep(p, rest, i);
    }
  }

  lemma CaptureAllStep(p: Pattern, s: string, i: nat)
    requires p.Valid() && Find(p, s) == Some(i)
    ensures CaptureAll(p, s) == [RunAt(p, s, i)] + CaptureAll(p, After(p, s, i))
  {
  }

  lemma CaptureAllTakes(p: Pattern, s: string)
    requires p.Valid() && p.class_.NotBreak? && Find(p, FirstLine(s)).Some?
    ensures CaptureAll(p, s) == [Capture(p, FirstLine(s)).value] + CaptureAll(p, OtherLines(s))
  {
    FindByLine(p, s);
    var i := Find(p, FirstLine(s)).value;
    CaptureAllStep(p, s, i);
    AfterLineMatch(p, s, i);
    CaptureAllFromLineEnd(p, s);
  }

  lemma AfterLineMatch(p: Pattern, s: string, i: nat)
    requires p.class_.NotBreak? && i + |p.key| <= LineEnd(s)
    ensures RunAt(p, s, i) == RunAt(p, FirstLine(s), i) && After(p, s, i) == s[LineEnd(s)..]
  {
    LineEndIs(s);
    MatchInFirstLine(p, s, i);
    RunToLineEnd(p, FirstLine(s), i);
  }

  lemma CaptureAllFromLineEnd(p: Pattern, s: string)
    requires p.Valid()
    ensures CaptureAll(p, s[LineEnd(s)..]) == CaptureAll(p, OtherLines(s))
  {
    var e := LineEnd(s);
    if e < |s| {
      LineEndIs(s);
      CaptureAllAfterBreak(p, s[e..]);
      assert s[e..][1..] == s[e + 1..];
    } else {
      assert s[e..] == [];
    }
  }

  lemma CaptureAllAfterBreak(p: Pattern, s: string)
    requires p.Valid() && s != [] && Break(s[0])
    ensures CaptureAll(p, s) == CaptureAll(p, s[1..])
  {
    LineEndUnique([], s);
    assert [] + s == s;
    NothingInEmpty(p);
    CaptureAllSkips(p, s);
  }

  /** `.*` runs to the end of a line. */
  lemma RunToLineEnd(p: Pattern, line: string, i: nat)
    requires p.class_.NotBreak? && BreakFree(line) && i + |p.key| <= |line|
    ensures RunAt(p, line, i) == line[i + |p.key|..] && After(p, line, i) == []
  {
    RunEndIs(NotBreak, line, i + |p.key|, |line|);
  }

  /** The suffix-restarting search finds exactly one run per matching line, in order, on every text. */
  lemma {:induction false} CaptureAllByLine(p: Pattern, s: string)
    requires p.Valid() && p.class_.NotBreak?
    ensures CaptureAll(p, s) == CaptureLines(p, s)
    decreases |s|
  {
    NothingInEmpty(p);
    if Find(p, FirstLine(s)).None? {
      CaptureAllSkips(p, s);
    } else {
      CaptureAllTakes(p, s);
    }
    if LineEnd(s) < |s| {
      CaptureAllByLine(p, OtherLines(s));
    }
  }

  lemma NothingInEmpty(p: Pattern)
    requires p.Valid()
    ensures Find(p, []).None? && CaptureAll(p, []) == []
  {
  }
}
