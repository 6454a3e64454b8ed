/** HttpSession::ParseRoutes and the resource paths it takes apart. */
module Routes {
  import opened Basics

  predicate Segment(s: string) { s != [] && '/' !in s }

  /** Index of the first slash, or the length. */
  function Slash(s: string): (i: nat)
    ensures i <= |s| && '/' !in s[..i] && (i < |s| ==> s[i] == '/')
  {
    if s == [] || s[0] == '/' then 0 else
    var i := 1 + Slash(s[1..]);
    assert s[..i] == [s[0]] + s[1..][..i - 1];
    i
  }

  /** The slash-free pieces, empty ones dropped. */
  function Segments(target: string): seq<string> {
    if target == [] then [] else
    var i := Slash(target);
    Piece(target[..i]) + (if i == |target| then [] else Segments(target[i + 1..]))
  }

  function Piece(s: string): seq<string> { if s == [] then [] else [s] }

  lemma SlashUnique(s: string, i: nat)
    requires i <= |s| && '/' !in s[..i] && (i < |s| ==> s[i] == '/')
    ensures Slash(s) == i
  {
    if s != [] && s[0] != '/' {
      assert s[1..][..i - 1] == s[..i][1..];
      SlashUnique(s[1..], i - 1);
    }
  }

  /** The getline loop: each turn takes the piece up to the next slash and drops the slash. */
  method ParseRoutes(target: string) returns (routes: seq<string>)
    ensures routes == Segments(target)
  {
    routes := [];
    var stream := target;
    while stream != []
      invariant routes + Segments(stream) == Segments(target)
      decreases |stream|
    {
      var end := Slash(stream);
      var piece := stream[..end];
      stream := if end < |stream| then stream[end + 1..] else [];
      Associates(routes, Piece(piece), Segments(stream));
      routes := routes + Piece(piece);  // pushed unless empty
    }
  }

  /** Splitting is a homomorphism from slash-joined text to sequence concatenation. */
  lemma {:induction false} SegmentsOfJoined(a: string, b: string)
    ensures Segments(a + "/" + b) == Segments(a) + Segments(b)
    decreases |a|
  {
    var all := a + "/" + b;
    var i := Slash(a);
    if i == |a| {
      assert a[..i] == a;
      SegmentsOfOne(a);
      assert all[..i] == a && all[i + 1..] == b;
      SegmentsStep(all, i);
    } else {
      assert all[..i] == a[..i] && all[i + 1..] == a[i + 1..] + "/" + b;
      SegmentsOfJoined(a[i + 1..], b);
      Associates(Piece(a[..i]), Segments(a[i + 1..]), Segments(b));
      SegmentsStep(all, i);
      SegmentsStep(a, i);
    }
  }

  lemma SegmentsStep(s: string, i: nat)
    requires i < |s| && s[i] == '/' && '/' !in s[..i]
    ensures Segments(s) == Piece(s[..i]) + Segments(s[i + 1..])
  {
    SlashUnique(s, i);
  }

  lemma SegmentsOfOne(s: string)
    requires '/' !in s
    ensures Segments(s) == Piece(s)
  {
    assert s[..|s|] == s;
    SlashUnique(s, |s|);
  }

  /** An absolute path. */
  function Render(segments: seq<string>): string {
    if segments == [] then "" else "/" + (segments[0] + Render(segments[1..]))
  }

  /** Parsing a rendered path gives its segments back. */
  lemma {:induction false} RenderThenParse(segments: seq<string>)
    requires forall s :: s in segments ==> Segment(s)
    ensures Segments(Render(segments)) == segments
  {
    if segments == [] {
    } else {
      var head, rest := segments[0], segments[1..];
      RenderThenParse(rest);
      SegmentsAfterSlash(head + Render(rest));
      assert Render(segments) == "/" + (head + Render(rest));
      SegmentsOfRendered(head, rest);
    }
  }

  lemma SegmentsOfRendered(head: string, rest: seq<string>)
    requires Segments(Render(rest)) == rest && Segment(head)
    ensures Segments(head + Render(rest)) == [head] + rest
  {
    SegmentsOfOne(head);
    if rest == [] {
      assert head + Render(rest) == head;
    } else {
      SegmentsBeforeSlash(head, rest[0] + Render(rest[1..]));
    }
  }

  lemma SegmentsBeforeSlash(head: string, tail: string)
    ensures Segments(head + ("/" + tail)) == Segments(head) + Segments("/" + tail)
  {
    SegmentsAfterSlash(tail);
    assert head + ("/" + tail) == head + "/" + tail;
    SegmentsOfJoined(head, tail);
  }

  lemma SegmentsAfterSlash(s: string)
    ensures Segments("/" + s) == Segments(s)
  {
    SegmentsOfJoined("", s);
    assert "" + "/" + s == "/" + s;
  }

  /** What parsing yields: non-empty slash-free pieces ... */
  lemma {:induction false} SegmentsAreSegments(target: string)
    ensures forall s :: s in Segments(target) ==> Segment(s)
  {
    if target != [] && Slash(target) < |target| {
      SegmentsAreSegments(target[Slash(target) + 1..]);
    }
  }

  /** ... that put together are the target without its slashes. */
  lemma {:induction false} SegmentsCoverTarget(target: string)
    ensures Flatten(Segments(target)) == WithoutSlashes(target)
    decreases |target|
  {
    if target == [] {
    } else {
      var i := Slash(target);
      var rest := if i == |target| then [] else target[i + 1..];
      SegmentsCoverTarget(rest);
      FlattenPiece(target[..i], Segments(rest));
      WithoutSlashesPiece(target, i, rest);
    }
  }

  lemma WithoutSlashesPiece(target: string, i: nat, rest: string)
    requires i <= |target| && '/' !in target[..i]
    requires if i == |target| then rest == [] else target[i] == '/' && rest == target[i + 1..]
    ensures WithoutSlashes(target) == target[..i] + WithoutSlashes(rest)
  {
    assert target == target[..i] + target[i..];
    WithoutSlashesJoins(target[..i], target[i..]);
    WithoutSlashesKeeps(target[..i]);
    WithoutSlashesRest(target[i..], rest);
  }

  lemma WithoutSlashesRest(s: string, rest: string)
    requires if s == [] then rest == [] else s[0] == '/' && rest == s[1..]
    ensures WithoutSlashes(s) == WithoutSlashes(rest)
  {
    assert s != [] ==> "" + WithoutSlashes(s[1..]) == WithoutSlashes(s[1..]);
  }

  function Flatten(segments: seq<string>): string {
    if segments == [] then "" else segments[0] + Flatten(segments[1..])
  }

  function WithoutSlashes(s: string): string {
    if s == [] then "" else (if s[0] == '/' then "" else [s[0]]) + WithoutSlashes(s[1..])
  }

  lemma FlattenPiece(s: string, rest: seq<string>)
    ensures Flatten(Piece(s) + rest) == s + Flatten(rest)
  {
    if s == [] {
      assert Piece(s) + rest == rest;
    } else {
      assert (Piece(s) + rest)[1..] == rest;
    }
  }

  lemma {:induction false} WithoutSlashesJoins(a: string, b: string)
    ensures WithoutSlashes(a + b) == WithoutSlashes(a) + WithoutSlashes(b)
  {
    if a == [] {
      assert a + b == b;
    } else {
      assert (a + b)[1..] == a[1..] + b;
      WithoutSlashesJoins(a[1..], b);
    }
  }

  lemma WithoutSlashesKeeps(s: string)
    requires '/' !in s
    ensures WithoutSlashes(s) == s
  {
  }

  const RESOURCE: string := "resource"

  /** The path of the Location that POST answers with. */
  function ResourcePath(id: string): string { "/" + (RESOURCE + "/" + id) }

  lemma ResourcePathIs(id: string)
    ensures ResourcePath(id) == "/resource/" + id
  {
    assert "/" + (RESOURCE + "/" + id) == "/resource/" + id;
  }

  lemma ResourcePathParses(id: string)
    requires Segment(id)
    ensures Segments("/resource/" + id) == ["resource", id]
  {
    ResourcePathIs(id);
    SegmentsOfOne(RESOURCE);
    SegmentsOfOne(id);
    SegmentsAfterSlash(RESOURCE + "/" + id);
    SegmentsOfJoined(RESOURCE, id);
  }
}
