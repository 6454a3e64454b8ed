/**
HttpSession::ParseCandidates and the text half of RtcPeer::RestartIce, over the fragments of
section 9 of RFC 8840 (attribute syntax of sections 5.1 and 5.4 of RFC 8839).
*/
module SdpText {
  import opened Basics
  import opened SdpScanner
  import opened SdpRewrite

  const UFRAG: string := "a=ice-ufrag:"
  const PWD: string := "a=ice-pwd:"
  const CANDIDATE: string := "a=candidate:"

  // ParseCandidates: `a=ice-ufrag:([^\s]+)`, `a=ice-pwd:([^\s]+)`, `a=candidate:(.*)`
  const UFRAG_VALUE := Pattern(UFRAG, NotSpace, true)
  const PWD_VALUE := Pattern(PWD, NotSpace, true)
  const CANDIDATE_VALUE := Pattern(CANDIDATE, NotBreak, false)

  // RestartIce: `a=ice-ufrag:([^\r\n]+)`, `a=ice-pwd:([^\r\n]+)`
  const UFRAG_LINE := Pattern(UFRAG, NotBreak, true)
  const PWD_LINE := Pattern(PWD, NotBreak, true)

  datatype IceCandidates = IceCandidates(iceUfrag: string, icePwd: string, candidates: seq<string>)

  function OrEmpty(v: Option<string>): string { if v.Some? then v.value else "" }

  function Prefixed(runs: seq<string>): seq<string> {
    seq(|runs|, i requires 0 <= i < |runs| => "candidate:" + runs[i])
  }

  /**
  What the parser is for, line by line: the first value of each attribute (empty when there is
  none) and, in order, one candidate for each line that names one.
  */
  function Parsed(sdp: string): IceCandidates {
    IceCandidates(OrEmpty(Capture(UFRAG_VALUE, sdp)), OrEmpty(Capture(PWD_VALUE, sdp)),
                  Prefixed(CaptureLines(CANDIDATE_VALUE, sdp)))
  }

  lemma KeysDiffer()
    ensures AttributeKey(UFRAG) && AttributeKey(PWD) && AttributeKey(CANDIDATE)
    ensures Apart(UFRAG, PWD) && Apart(UFRAG, CANDIDATE) && Apart(PWD, CANDIDATE)
    ensures Apart(PWD, UFRAG) && Apart(CANDIDATE, UFRAG) && Apart(CANDIDATE, PWD)
  {
    assert UFRAG[6] != PWD[6] && UFRAG[2] != CANDIDATE[2] && PWD[2] != CANDIDATE[2];
  }

  lemma PrefixedFirst(before: seq<string>, run: string, rest: seq<string>)
    ensures before + Prefixed([run] + rest) == (before + ["candidate:" + run]) + Prefixed(rest)
  {
  }

  method ParseCandidates(sdp: string) returns (result: IceCandidates)
    ensures result == Parsed(sdp)
  {
    KeysDiffer();
    var candidates: seq<string> := [];
    var suffix := sdp;
    while true
      invariant candidates + Prefixed(CaptureAll(CANDIDATE_VALUE, suffix)) == Prefixed(CaptureAll(CANDIDATE_VALUE, sdp))
      decreases |suffix|
    {
      var match_ := Find(CANDIDATE_VALUE, suffix);
      if match_.None? {
        break;
      }
      var run := RunAt(CANDIDATE_VALUE, suffix, match_.value);
      CaptureAllStep(CANDIDATE_VALUE, suffix, match_.value);
      suffix := After(CANDIDATE_VALUE, suffix, match_.value);
      PrefixedFirst(candidates, run, CaptureAll(CANDIDATE_VALUE, suffix));
      candidates := candidates + ["candidate:" + run];
    }
    CaptureAllByLine(CANDIDATE_VALUE, sdp);
    result := IceCandidates(OrEmpty(Capture(UFRAG_VALUE, sdp)), OrEmpty(Capture(PWD_VALUE, sdp)), candidates);
  }

  // ----- ICE restart -----

  /** A value that a fragment can carry: no white space, no `=`, no `$`. Every ice-char string is one. */
  predicate Token(v: string) { SpaceFree(v) && '=' !in v && '$' !in v }

  /** The description re-applied by an ICE restart. */
  function Restarted(sdp: string, ufrag: string, pwd: string): string {
    ReplaceLines(PWD_LINE, ReplaceLines(UFRAG_LINE, sdp, ufrag), pwd)
  }

  method RewriteRemote(sdp: string, ufrag: string, pwd: string) returns (remote: string)
    requires '$' !in ufrag && '$' !in pwd
    ensures remote == Restarted(sdp, ufrag, pwd)
  {
    KeysDiffer();
    ReplaceAllByLine(UFRAG_LINE, sdp, ufrag);
    remote := ReplaceAll(UFRAG_LINE, sdp, ufrag);
    ReplaceAllByLine(PWD_LINE, remote, pwd);
    remote := ReplaceAll(PWD_LINE, remote, pwd);
  }

  /** No line holds two of the three keys, as when each key stands only at the start of a line. */
  ghost predicate OneKeyPerLine(sdp: string) {
    Exclusive(UFRAG, PWD, sdp) && Exclusive(UFRAG, CANDIDATE, sdp) && Exclusive(PWD, CANDIDATE, sdp)
  }

  /**
  Rewrite, then parse: the new credentials wherever there were credentials to replace, and the very
  candidates of the old description.
  */
  lemma RestartThenParse(sdp: string, ufrag: string, pwd: string)
    requires Token(ufrag) && Token(pwd) && OneKeyPerLine(sdp)
    ensures Parsed(Restarted(sdp, ufrag, pwd)) ==
            IceCandidates(if Find(UFRAG_LINE, sdp).Some? then ufrag else "",
                          if Find(PWD_LINE, sdp).Some? then pwd else "",
                          Parsed(sdp).candidates)
  {
    KeysDiffer();
    TokenBreakFree(ufrag);
    TokenBreakFree(pwd);
    var half := ReplaceLines(UFRAG_LINE, sdp, ufrag);
    CaptureReplaced(UFRAG_LINE, UFRAG_VALUE, sdp, ufrag);
    OtherKeyKept(UFRAG_LINE, PWD_LINE, sdp, ufrag);
    OtherKeyKept(UFRAG_LINE, CANDIDATE_VALUE, sdp, ufrag);
    ExclusiveKept(UFRAG_LINE, PWD, CANDIDATE, sdp, ufrag);
    ReplacedStaysExclusive(sdp, ufrag);
    CaptureReplaced(PWD_LINE, PWD_VALUE, half, pwd);
    OtherKeyKept(PWD_LINE, UFRAG_VALUE, half, pwd);
    OtherKeyKept(PWD_LINE, CANDIDATE_VALUE, half, pwd);
  }

  lemma TokenBreakFree(v: string)
    requires Token(v)
    ensures BreakFree(v)
  {
  }

  /** A line that gets a new ufrag holds no pwd key, before or after. */
  lemma {:induction false} ReplacedStaysExclusive(sdp: string, ufrag: string)
    requires Token(ufrag) && Exclusive(UFRAG, PWD, sdp)
    ensures Exclusive(PWD, UFRAG, ReplaceLines(UFRAG_LINE, sdp, ufrag))
    decreases |sdp|
  {
    KeysDiffer();
    TokenBreakFree(ufrag);
    ReplacedLines(UFRAG_LINE, sdp, ufrag);
    OtherKeyUntouched(UFRAG_LINE, PWD, FirstLine(sdp), ufrag);
    if LineEnd(sdp) < |sdp| {
      ReplacedStaysExclusive(OtherLines(sdp), ufrag);
    }
  }

  /** What a restart makes of one line. */
  function RestartedLine(line: string, ufrag: string, pwd: string): string {
    ReplaceLine(PWD_LINE, ReplaceLine(UFRAG_LINE, line, ufrag), pwd)
  }

  /** Line by line, with the same breaks; a line with neither key stays as it is. */
  lemma RestartedLines(sdp: string, ufrag: string, pwd: string)
    requires Token(ufrag) && Token(pwd)
    ensures var r := Restarted(sdp, ufrag, pwd);
            && FirstLine(r) == RestartedLine(FirstLine(sdp), ufrag, pwd)
            && (LineEnd(r) == |r| <==> LineEnd(sdp) == |sdp|)
            && (LineEnd(sdp) < |sdp| ==>
                  r[LineEnd(r)] == sdp[LineEnd(sdp)] && OtherLines(r) == Restarted(OtherLines(sdp), ufrag, pwd))
    ensures !Contains(UFRAG, FirstLine(sdp)) && !Contains(PWD, FirstLine(sdp)) ==>
              FirstLine(Restarted(sdp, ufrag, pwd)) == FirstLine(sdp)
  {
    TokenBreakFree(ufrag);
    TokenBreakFree(pwd);
    ReplacedLines(UFRAG_LINE, sdp, ufrag);
    ReplacedLines(PWD_LINE, ReplaceLines(UFRAG_LINE, sdp, ufrag), pwd);
    if !Contains(UFRAG, FirstLine(sdp)) && !Contains(PWD, FirstLine(sdp)) {
      NotFoundWithoutKey(UFRAG_LINE, FirstLine(sdp));
      NotFoundWithoutKey(PWD_LINE, FirstLine(sdp));
    }
  }

  // ----- what can be read back after a restart, on every text -----

  /** The ufrag key of the line is not behind a pwd key. */
  ghost predicate UfragKept(line: string) {
    match Find(UFRAG_LINE, line)
    case None => false
    case Some(i) => !Contains(PWD, line[..i])
  }

  /** The pwd key of the line is not behind a ufrag key. */
  ghost predicate PwdKept(line: string) {
    match Find(UFRAG_LINE, line)
    case None => Find(PWD_LINE, line).Some?
    case Some(i) => Contains(PWD, line[..i])
  }

  ghost predicate SomeUfragKept(sdp: string)
    decreases |sdp|
  {
    UfragKept(FirstLine(sdp)) || (LineEnd(sdp) < |sdp| && SomeUfragKept(OtherLines(sdp)))
  }

  ghost predicate SomePwdKept(sdp: string)
    decreases |sdp|
  {
    PwdKept(FirstLine(sdp)) || (LineEnd(sdp) < |sdp| && SomePwdKept(OtherLines(sdp)))
  }

  /** A key found in a cut line ends before the cut. */
  lemma KeyBeforeCut(a: string, b: string, prefix: string, value: string, j: nat)
    requires AttributeKey(a) && AttributeKey(b) && Apart(a, b) && '=' !in value && b[|b| - 1] != a[0]
    requires KeyAt(b, prefix + (a + value), j)
    ensures j + |b| <= |prefix| && KeyAt(b, prefix, j)
  {
    var s := prefix + (a + value);
    NoOtherKey(a, b, prefix, value, j);
    assert s[j + 1] == s[j..j + |b|][1] == '=';
    assert s[|prefix| + 1] == a[1];
    assert s[j + |b| - 1] == s[j..j + |b|][|b| - 1];
    assert s[|prefix|] == a[0];
    assert prefix[j..j + |b|] == s[j..j + |b|];
  }

  /** Whether the pwd rewrite finds a key once the ufrag has been rewritten. */
  lemma PwdFound(line: string, ufrag: string)
    requires Token(ufrag) && BreakFree(line)
    ensures Find(PWD_LINE, ReplaceLine(UFRAG_LINE, line, ufrag)).Some? <==> PwdKept(line)
  {
    KeysDiffer();
    if Find(UFRAG_LINE, line).Some? {
      var i := Find(UFRAG_LINE, line).value;
      var cut := line[..i] + (UFRAG + ufrag);
      var found := Find(PWD_LINE, cut);
      FindLeftmost(PWD_LINE, cut, found);
      if found.Some? {
        KeyBeforeCut(UFRAG, PWD, line[..i], ufrag, found.value);
      } else {
        forall j: nat ensures !KeyAt(PWD, line[..i], j) {
          if KeyAt(PWD, line[..i], j) { PwdMatchBefore(line[..i], ufrag, j); }
        }
      }
    }
  }

  lemma PwdMatchBefore(prefix: string, ufrag: string, j: nat)
    requires KeyAt(PWD, prefix, j) && BreakFree(prefix)
    ensures MatchesAt(PWD_LINE, prefix + (UFRAG + ufrag), j)
  {
    var s := prefix + (UFRAG + ufrag);
    assert s[j..j + |PWD|] == prefix[j..j + |PWD|];
    assert j + |PWD| == |prefix| ==> s[j + |PWD|] == UFRAG[0];
    assert j + |PWD| < |prefix| ==> s[j + |PWD|] == prefix[j + |PWD|];
  }

  /** A cut at a pwd key leaves no ufrag of a line that has none before it. */
  lemma NoUfragBeforePwd(line: string, source: string, cut: nat, pwd: string)
    requires Token(pwd) && BreakFree(source) && cut < |source| && cut <= |line| && line[..cut] == source[..cut]
    requires forall j: nat :: j + |UFRAG| <= cut ==> !MatchesAt(UFRAG_LINE, source, j)
    ensures Find(UFRAG_LINE, line[..cut] + (PWD + pwd)).None?
  {
    KeysDiffer();
    var s := line[..cut] + (PWD + pwd);
    forall j: nat ensures !MatchesAt(UFRAG_LINE, s, j) {
      if KeyAt(UFRAG, s, j) {
        KeyBeforeCut(PWD, UFRAG, line[..cut], pwd, j);
        assert source[j..j + |UFRAG|] == source[..cut][j..j + |UFRAG|] == UFRAG;
        assert source[j + |UFRAG|] in source;
        assert MatchesAt(UFRAG_LINE, source, j);
      }
    }
    FindLeftmost(UFRAG_LINE, s, None);
  }

  /** What the rewrite does not find cannot be read. */
  lemma NoUfragToRead(line: string)
    requires Find(UFRAG_LINE, line).None?
    ensures Capture(UFRAG_VALUE, line).None?
  {
    FindLeftmost(UFRAG_LINE, line, None);
    forall j: nat ensures !MatchesAt(UFRAG_VALUE, line, j) {
      assert !MatchesAt(UFRAG_LINE, line, j);
    }
    FindLeftmost(UFRAG_VALUE, line, None);
  }

  /** The pwd rewrite of a line in which the ufrag rewrite found nothing. */
  lemma NoUfragStays(line: string, pwd: string)
    requires Token(pwd) && BreakFree(line) && Find(UFRAG_LINE, line).None?
    ensures Find(UFRAG_LINE, ReplaceLine(PWD_LINE, line, pwd)).None?
  {
    FindLeftmost(UFRAG_LINE, line, None);
    FindLeftmost(PWD_LINE, line, Find(PWD_LINE, line));
    if Find(PWD_LINE, line).Some? {
      NoUfragBeforePwd(line, line, Find(PWD_LINE, line).value, pwd);
    }
  }

  /** The pwd rewrite cuts the new ufrag off with the rest of the line. */
  lemma UfragCutOff(line: string, i: nat, ufrag: string, pwd: string)
    requires Token(ufrag) && Token(pwd) && BreakFree(line)
    requires Find(UFRAG_LINE, line) == Some(i) && Contains(PWD, line[..i])
    ensures Find(UFRAG_LINE, RestartedLine(line, ufrag, pwd)).None?
  {
    var cut := line[..i] + (UFRAG + ufrag);
    var k := PwdBefore(line[..i], ufrag);
    FindLeftmost(UFRAG_LINE, line, Some(i));
    assert cut[..k] == line[..i][..k] == line[..k];
    NoUfragBeforePwd(cut, line, k, pwd);
  }

  /** The leftmost key of the prefix is what the pwd rewrite finds. */
  lemma PwdBefore(prefix: string, ufrag: string) returns (k: nat)
    requires BreakFree(prefix) && Contains(PWD, prefix) && Token(ufrag)
    ensures k < |prefix| && Find(PWD_LINE, prefix + (UFRAG + ufrag)) == Some(k)
    ensures KeyAt(PWD, prefix, k) && forall j: nat :: j < k ==> !KeyAt(PWD, prefix, j)
  {
    KeysDiffer();
    var first: nat :| KeyAt(PWD, prefix, first);
    PwdMatchBefore(prefix, ufrag, first);
    var found := Find(PWD_LINE, prefix + (UFRAG + ufrag));
    FindLeftmost(PWD_LINE, prefix + (UFRAG + ufrag), found);
    k := found.value;
    KeyBeforeCut(UFRAG, PWD, prefix, ufrag, k);
    forall j: nat | j < k ensures !KeyAt(PWD, prefix, j) {
      if KeyAt(PWD, prefix, j) { PwdMatchBefore(prefix, ufrag, j); }
    }
  }

  lemma UfragOfLine(line: string, ufrag: string, pwd: string)
    requires Token(ufrag) && Token(pwd) && ufrag != "" && BreakFree(line)
    ensures Capture(UFRAG_VALUE, RestartedLine(line, ufrag, pwd)) == if UfragKept(line) then Some(ufrag) else None
  {
    KeysDiffer();
    match Find(UFRAG_LINE, line)
    case None =>
      NoUfragStays(line, pwd);
      NoUfragToRead(RestartedLine(line, ufrag, pwd));
    case Some(i) =>
      PwdFound(line, ufrag);
      if Contains(PWD, line[..i]) {
        UfragCutOff(line, i, ufrag, pwd);
        NoUfragToRead(RestartedLine(line, ufrag, pwd));
      } else {
        CaptureReplacedLine(UFRAG_LINE, UFRAG_VALUE, line, ufrag);
      }
  }

  lemma PwdOfLine(line: string, ufrag: string, pwd: string)
    requires Token(ufrag) && Token(pwd) && pwd != "" && BreakFree(line)
    ensures Capture(PWD_VALUE, RestartedLine(line, ufrag, pwd)) == if PwdKept(line) then Some(pwd) else None
  {
    KeysDiffer();
    TokenBreakFree(ufrag);
    PwdFound(line, ufrag);
    ReplacedLineBreakFree(UFRAG_LINE, line, ufrag);
    CaptureReplacedLine(PWD_LINE, PWD_VALUE, ReplaceLine(UFRAG_LINE, line, ufrag), pwd);
  }

  lemma {:induction false} CapturesAfterRestart(sdp: string, ufrag: string, pwd: string)
    requires Token(ufrag) && Token(pwd) && ufrag != "" && pwd != ""
    ensures var r := Restarted(sdp, ufrag, pwd);
            && Capture(UFRAG_VALUE, r) == (if SomeUfragKept(sdp) then Some(ufrag) else None)
            && Capture(PWD_VALUE, r) == (if SomePwdKept(sdp) then Some(pwd) else None)
    decreases |sdp|
  {
    var r := Restarted(sdp, ufrag, pwd);
    KeysDiffer();
    LineEndIs(sdp);
    RestartedLines(sdp, ufrag, pwd);
    UfragOfLine(FirstLine(sdp), ufrag, pwd);
    PwdOfLine(FirstLine(sdp), ufrag, pwd);
    CaptureByLine(UFRAG_VALUE, r);
    CaptureByLine(PWD_VALUE, r);
    NothingInEmpty(UFRAG_VALUE);
    NothingInEmpty(PWD_VALUE);
    if LineEnd(sdp) < |sdp| {
      CapturesAfterRestart(OtherLines(sdp), ufrag, pwd);
    }
  }

  /**
  On every text: the new ufrag is read back exactly when some line has a ufrag key that is not behind
  a pwd key, and the new pwd exactly when some line has a pwd key that is not behind a ufrag key.
  */
  lemma RestartReadsExactly(sdp: string, ufrag: string, pwd: string)
    requires Token(ufrag) && Token(pwd) && ufrag != "" && pwd != ""
    ensures Parsed(Restarted(sdp, ufrag, pwd)).iceUfrag == ufrag <==> SomeUfragKept(sdp)
    ensures Parsed(Restarted(sdp, ufrag, pwd)).icePwd == pwd <==> SomePwdKept(sdp)
  {
    CapturesAfterRestart(sdp, ufrag, pwd);
  }

  // ----- two restarts, on every text -----

  /** Where the pwd rewrite cuts in front of a ufrag key does not depend on the ufrag. */
  lemma CutBefore(prefix: string, ufrag: string, ufrag': string, pwd: string)
    requires BreakFree(prefix) && Contains(PWD, prefix) && Token(ufrag) && Token(ufrag')
    ensures ReplaceLine(PWD_LINE, prefix + (UFRAG + ufrag), pwd)
            == ReplaceLine(PWD_LINE, prefix + (UFRAG + ufrag'), pwd)
  {
    var s, t := prefix + (UFRAG + ufrag), prefix + (UFRAG + ufrag');
    var k := PwdBefore(prefix, ufrag);
    var k' := PwdBefore(prefix, ufrag');
    assert k == k' && s[..k] == prefix[..k] == t[..k];
  }

  lemma CutOffTwice(line: string, i: nat, ufrag: string, pwd: string, ufrag': string, pwd': string)
    requires Token(ufrag) && Token(pwd) && ufrag != "" && pwd != "" && Token(ufrag') && BreakFree(line)
    requires Find(UFRAG_LINE, line) == Some(i) && Contains(PWD, line[..i])
    ensures RestartedLine(RestartedLine(line, ufrag, pwd), ufrag', pwd') == RestartedLine(line, ufrag', pwd')
  {
    TokenBreakFree(pwd);
    UfragCutOff(line, i, ufrag, pwd);
    ReplaceLineTwice(PWD_LINE, ReplaceLine(UFRAG_LINE, line, ufrag), pwd, pwd');
    CutBefore(line[..i], ufrag, ufrag', pwd');
  }

  lemma RestartLineTwice(line: string, ufrag: string, pwd: string, ufrag': string, pwd': string)
    requires Token(ufrag) && Token(pwd) && ufrag != "" && pwd != "" && Token(ufrag') && BreakFree(line)
    ensures RestartedLine(RestartedLine(line, ufrag, pwd), ufrag', pwd') == RestartedLine(line, ufrag', pwd')
  {
    match Find(UFRAG_LINE, line)
    case None =>
      TokenBreakFree(pwd);
      NoUfragStays(line, pwd);
      ReplaceLineTwice(PWD_LINE, line, pwd, pwd');
    case Some(i) =>
      if Contains(PWD, line[..i]) {
        CutOffTwice(line, i, ufrag, pwd, ufrag', pwd');
      } else {
        TokenBreakFree(ufrag);
        PwdFound(line, ufrag);
        ReplaceLineTwice(UFRAG_LINE, line, ufrag, ufrag');
      }
  }

  /** A later restart overrides an earlier one; in particular a restart is idempotent. */
  lemma {:induction false} RestartOverrides(sdp: string, ufrag: string, pwd: string, ufrag': string, pwd': string)
    requires Token(ufrag) && Token(pwd) && ufrag != "" && pwd != "" && Token(ufrag')
    ensures Restarted(Restarted(sdp, ufrag, pwd), ufrag', pwd') == Restarted(sdp, ufrag', pwd')
    decreases |sdp|
  {
    var r := Restarted(sdp, ufrag, pwd);
    LineEndIs(sdp);
    RestartedLines(sdp, ufrag, pwd);
    RestartLineTwice(FirstLine(sdp), ufrag, pwd, ufrag', pwd');
    if LineEnd(sdp) < |sdp| {
      RestartOverrides(OtherLines(sdp), ufrag, pwd, ufrag', pwd');
    }
    SameRestarted(r, sdp, ufrag', pwd');
  }

  lemma SameRestarted(s: string, t: string, ufrag: string, pwd: string)
    requires Token(ufrag) && RestartedLine(FirstLine(s), ufrag, pwd) == RestartedLine(FirstLine(t), ufrag, pwd)
    requires LineEnd(s) == |s| <==> LineEnd(t) == |t|
    requires LineEnd(s) < |s| ==>
               && s[LineEnd(s)] == t[LineEnd(t)]
               && Restarted(OtherLines(s), ufrag, pwd) == Restarted(OtherLines(t), ufrag, pwd)
    ensures Restarted(s, ufrag, pwd) == Restarted(t, ufrag, pwd)
  {
    TokenBreakFree(ufrag);
    ReplacedLines(UFRAG_LINE, s, ufrag);
    ReplacedLines(UFRAG_LINE, t, ufrag);
    var a, b := ReplaceLines(UFRAG_LINE, s, ufrag), ReplaceLines(UFRAG_LINE, t, ufrag);
    assert ReplaceLine(PWD_LINE, FirstLine(a), pwd) == ReplaceLine(PWD_LINE, FirstLine(b), pwd);
    SameReplaced(PWD_LINE, a, b, pwd);
  }

  /** Without one key per line a restart can lose the ufrag: the pwd rewrite takes the whole line. */
  lemma RestartCanLoseUfrag()
    ensures var sdp := PWD + UFRAG + "x";
            Find(UFRAG_LINE, sdp).Some? && Parsed(Restarted(sdp, "u", "w")).iceUfrag == ""
  {
    KeysDiffer();
    var sdp := PWD + UFRAG + "x";
    UfragRewriteInsidePwd();
    PwdRewriteTakesLine(UFRAG + "u");
    TooShort(UFRAG_VALUE, PWD + "w");
  }

  lemma UfragRewriteInsidePwd()
    ensures var sdp := PWD + UFRAG + "x";
            Find(UFRAG_LINE, sdp).Some? && ReplaceLines(UFRAG_LINE, sdp, "u") == PWD + (UFRAG + "u")
  {
    KeysDiffer();
    var sdp := PWD + UFRAG + "x";
    OneLine(sdp);
    UfragInsidePwd("x");
    FindLeftmost(UFRAG_LINE, sdp, Some(|PWD|));
    assert sdp[..|PWD|] == PWD;
  }

  lemma PwdRewriteTakesLine(v: string)
    requires v != [] && BreakFree(v)
    ensures ReplaceLines(PWD_LINE, PWD + v, "w") == PWD + "w"
  {
    var s := PWD + v;
    assert v[0] in v;
    OneLine(s);
    MatchAtZero(PWD_LINE, v);
    FindLeftmost(PWD_LINE, s, Some(0));
    assert ReplaceLine(PWD_LINE, s, "w") == s[..0] + (PWD + "w") == PWD + "w";
    assert ReplaceLines(PWD_LINE, s, "w") == ReplaceLine(PWD_LINE, s, "w") + [];
  }

  lemma UfragInsidePwd(v: string)
    requires v != [] && BreakFree(v) && '=' !in v
    ensures Leftmost(UFRAG_LINE, PWD + UFRAG + v, Some(|PWD|))
  {
    KeysDiffer();
    assert PWD + (UFRAG + v) == PWD + UFRAG + v;
    assert v[0] in v;
    MatchAtCut(UFRAG_LINE, PWD, v);
    forall j: nat | j < |PWD| ensures !KeyAt(UFRAG, PWD + UFRAG + v, j) {
      NoUfragInPwd(PWD + UFRAG + v, j);
    }
  }

  /** The one `=` of the key is not at its place before the end of `a=ice-pwd:`. */
  lemma NoUfragInPwd(s: string, j: nat)
    requires |s| >= 22 && s[..|PWD|] == PWD && s[|PWD|] == 'a' && j < |PWD|
    ensures !KeyAt(UFRAG, s, j)
  {
    assert s[6] == PWD[6] && s[j] == PWD[j] && (j + 1 < |PWD| ==> s[j + 1] == PWD[j + 1]);
    assert j + |UFRAG| <= |s| ==> s[j..j + |UFRAG|][1] == s[j + 1] && s[j..j + |UFRAG|][6] == s[j + 6];
  }

  lemma OneLine(s: string)
    requires BreakFree(s)
    ensures LineEnd(s) == |s| && FirstLine(s) == s
  {
    LineEndUnique(s, []);
    assert s + [] == s;
  }

  lemma TooShort(p: Pattern, s: string)
    requires |s| <= |p.key| && p.nonEmpty
    ensures Find(p, s).None?
  {
    FindLeftmost(p, s, None);
  }

  // ----- printing -----

  const CRLF: string := "\r\n"

  function CandidateLines(candidates: seq<string>): string {
    if candidates == [] then "" else "a=candidate:" + candidates[0] + "\r\n" + CandidateLines(candidates[1..])
  }

  /** A line, a break, then the rest of the text. */
  lemma AfterLine(p: Pattern, line: string, break_: char, rest: string)
    requires p.Valid() && BreakFree(line) && Break(break_)
    ensures var s := line + ([break_] + rest);
            && Capture(p, s) == (if Capture(p, line).Some? then Capture(p, line) else Capture(p, rest))
            && CaptureLines(p, s) ==
               AsSeq(Capture(p, line)) + CaptureLines(p, rest)
  {
    LineEndUnique(line, [break_] + rest);
    assert ([break_] + rest)[1..] == rest;
    CaptureByLine(p, line + ([break_] + rest));
  }

  /** A printed line, then the rest of the text. */
  lemma AfterPrintedLine(p: Pattern, line: string, rest: string)
    requires p.Valid() && BreakFree(line)
    ensures Capture(p, line + CRLF + rest) == if Capture(p, line).Some? then Capture(p, line) else Capture(p, rest)
    ensures CaptureLines(p, line + CRLF + rest) ==
            AsSeq(Capture(p, line)) + CaptureLines(p, rest)
  {
    var tail := ['\n'] + rest;
    assert line + CRLF + rest == line + (['\r'] + tail);
    AfterLine(p, line, '\r', tail);
    assert [] + tail == tail;
    AfterLine(p, [], '\n', rest);
    NothingInEmpty(p);
    assert AsSeq(Capture(p, [])) + CaptureLines(p, rest) == CaptureLines(p, rest);
  }

  lemma PrintedValue(p: Pattern, v: string)
    requires p.Valid() && v != [] && forall c :: c in v ==> p.class_.Has(c)
    ensures Capture(p, p.key + v) == Some(v)
  {
    assert [] + (p.key + v) == p.key + v;
    assert v[0] in v;
    MatchAtZero(p, v);
    FindLeftmost(p, p.key + v, Some(0));
    RunAtCut(p, [], v);
  }

  lemma MatchAtZero(p: Pattern, v: string)
    requires p.nonEmpty ==> v != [] && p.class_.Has(v[0])
    ensures MatchesAt(p, p.key + v, 0)
  {
  }

  lemma PrintedCandidate(c: string)
    requires BreakFree(c)
    ensures Capture(CANDIDATE_VALUE, CANDIDATE + c) == Some(c)
  {
    assert [] + (CANDIDATE + c) == CANDIDATE + c;
    MatchAtZero(CANDIDATE_VALUE, c);
    FindLeftmost(CANDIDATE_VALUE, CANDIDATE + c, Some(0));
    RunAtCut(CANDIDATE_VALUE, [], c);
  }

  /** A line with another key has no such attribute. */
  lemma PrintedOther(a: string, p: Pattern, v: string)
    requires AttributeKey(a) && AttributeKey(p.key) && Apart(a, p.key) && '=' !in v
    ensures Capture(p, a + v).None?
  {
    forall j: nat ensures !KeyAt(p.key, a + v, j) {
      if KeyAt(p.key, a + v, j) {
        assert [] + (a + v) == a + v && [] + a == a;
        NoOtherKey(a, p.key, [], v, j);
        NoKeyInKey(a, p.key, j);
      }
    }
    FindLeftmost(p, a + v, None);
  }

  lemma NoKeyInKey(a: string, b: string, j: nat)
    requires AttributeKey(a) && AttributeKey(b) && Apart(a, b)
    ensures !KeyAt(b, a, j)
  {
    var k :| 0 <= k < |a| && k < |b| && a[k] != b[k];
    assert j + |b| <= |a| ==> a[j..j + |b|][1] == a[j + 1] && a[j..j + |b|][k] == a[j + k];
  }

  lemma {:induction false} PrintedCandidates(candidates: seq<string>)
    requires forall c :: c in candidates ==> BreakFree(c)
    ensures CaptureLines(CANDIDATE_VALUE, CandidateLines(candidates)) == candidates
  {
    KeysDiffer();
    NothingInEmpty(CANDIDATE_VALUE);
    if candidates != [] {
      var c, rest := candidates[0], candidates[1..];
      PrintedCandidates(rest);
      PrintedCandidate(c);
      AfterPrintedLine(CANDIDATE_VALUE, CANDIDATE + c, CandidateLines(rest));
    }
  }

  lemma PrintedPwd(pwd: string, candidates: seq<string>)
    requires Token(pwd) && pwd != "" && forall c :: c in candidates ==> BreakFree(c)
    ensures var s := PWD + pwd + CRLF + CandidateLines(candidates);
            Capture(PWD_VALUE, s) == Some(pwd) && CaptureLines(CANDIDATE_VALUE, s) == candidates
  {
    KeysDiffer();
    TokenBreakFree(pwd);
    PrintedValue(PWD_VALUE, pwd);
    PrintedOther(PWD, CANDIDATE_VALUE, pwd);
    PrintedCandidates(candidates);
    AfterPrintedLine(PWD_VALUE, PWD + pwd, CandidateLines(candidates));
    AfterPrintedLine(CANDIDATE_VALUE, PWD + pwd, CandidateLines(candidates));
  }

  lemma PrintedUfrag(ufrag: string, rest: string)
    requires Token(ufrag) && ufrag != ""
    ensures var s := UFRAG + ufrag + CRLF + rest;
            && Capture(UFRAG_VALUE, s) == Some(ufrag) && Capture(PWD_VALUE, s) == Capture(PWD_VALUE, rest)
            && CaptureLines(CANDIDATE_VALUE, s) == CaptureLines(CANDIDATE_VALUE, rest)
  {
    KeysDiffer();
    TokenBreakFree(ufrag);
    PrintedValue(UFRAG_VALUE, ufrag);
    PrintedOther(UFRAG, PWD_VALUE, ufrag);
    PrintedOther(UFRAG, CANDIDATE_VALUE, ufrag);
    AfterPrintedLine(UFRAG_VALUE, UFRAG + ufrag, rest);
    AfterPrintedLine(PWD_VALUE, UFRAG + ufrag, rest);
    AfterPrintedLine(CANDIDATE_VALUE, UFRAG + ufrag, rest);
  }

  /** A fragment with the credentials and a line for each candidate gives them all back, in order. */
  lemma PrintThenParse(ufrag: string, pwd: string, candidates: seq<string>)
    requires Token(ufrag) && Token(pwd) && ufrag != "" && pwd != ""
    requires forall c :: c in candidates ==> BreakFree(c)
    ensures var sdp := "a=ice-ufrag:" + ufrag + "\r\n" + ("a=ice-pwd:" + pwd + "\r\n" + CandidateLines(candidates));
            var parsed := Parsed(sdp);
            && parsed.iceUfrag == ufrag && parsed.icePwd == pwd && |parsed.candidates| == |candidates|
            && forall i :: 0 <= i < |candidates| ==> parsed.candidates[i] == "candidate:" + candidates[i]
  {
    PrintedPwd(pwd, candidates);
    PrintedUfrag(ufrag, PWD + pwd + CRLF + CandidateLines(candidates));
  }
}
