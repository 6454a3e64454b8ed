/**
Two latches in a row: the encoder subtracts the first camera timestamp that is not zero, each peer the
first encoder timestamp that is not zero among the frames it sees while its track is open. Both latches
are uint64_t with 0 for "not set yet"; all arithmetic between them and int64_t timestamps is modulo 2^64.
*/
module Timestamps {
  const TWO_63: int := 0x8000_0000_0000_0000
  const TWO_64: int := 0x1_0000_0000_0000_0000

  predicate IsInt64(x: int) { -TWO_63 <= x < TWO_63 }

  function ToUInt64(x: int): (u: nat)
    ensures u < TWO_64
  {
    x % TWO_64
  }

  function ToInt64(u: int): int { if ToUInt64(u) < TWO_63 then ToUInt64(u) else ToUInt64(u) - TWO_64 }

  /** The latch after a frame. */
  function Latched(start: nat, ts: int): nat { if start == 0 then ToUInt64(ts) else start }

  /** frame->pts: the unsigned difference, stored as int64_t. */
  function Pts(start: nat, ts: int): int { ToInt64(ToUInt64(ts) - start) }

  /** What sendFrame is told: the unsigned difference. */
  function Elapsed(start: nat, ts: int): nat { ToUInt64(ToUInt64(ts) - start) }

  // ----- one subtraction -----

  /** The encoder's difference is exact wherever it fits int64_t, also below zero. */
  lemma PtsExact(start: nat, ts: int)
    requires IsInt64(ts) && start < TWO_63
    ensures Pts(start, ts) == ts - start <==> IsInt64(ts - start)
  {
  }

  /** The peer's is exact only from its start on; below, it wraps to more than 2^63. */
  lemma ElapsedExact(start: nat, ts: int)
    requires IsInt64(ts) && start < TWO_63
    ensures Elapsed(start, ts) == ts - start <==> ts >= start
    ensures 0 <= ts < start ==> Elapsed(start, ts) > TWO_63
  {
  }

  // ----- streams -----

  /** The latch after a whole stream. */
  function StartOf(stream: seq<int>): nat {
    if stream == [] then 0 else Latched(StartOf(stream[..|stream| - 1]), stream[|stream| - 1])
  }

  /** Every pts the encoder gives, in order. */
  function AllPts(stream: seq<int>): (r: seq<int>)
    ensures |r| == |stream|
  {
    if stream == [] then [] else AllPts(stream[..|stream| - 1]) + [Pts(StartOf(stream), stream[|stream| - 1])]
  }

  /** Every duration a peer sends, for the frames it sees. */
  function AllElapsed(stream: seq<int>): (r: seq<int>)
    ensures |r| == |stream|
  {
    if stream == [] then []
    else AllElapsed(stream[..|stream| - 1]) + [Elapsed(StartOf(stream), stream[|stream| - 1])]
  }

  /** What the two latches are for: time since the first timestamp that is not zero. */
  function FirstNonZero(stream: seq<int>): int {
    if stream == [] then 0 else if stream[0] != 0 then stream[0] else FirstNonZero(stream[1..])
  }

  function Since(first: int, ts: int): int { if ts < first then 0 else ts - first }

  predicate Clock(stream: seq<int>) {
    && (forall i :: 0 <= i < |stream| ==> 0 <= stream[i] < TWO_63)
    && (forall i, j :: 0 <= i <= j < |stream| ==> stream[i] <= stream[j])
  }

  lemma {:induction false} FirstOfMore(stream: seq<int>, next: int)
    ensures FirstNonZero(stream + [next]) ==
            if FirstNonZero(stream) == 0 then next else FirstNonZero(stream)
  {
    if stream == [] {
    } else {
      assert (stream + [next])[1..] == stream[1..] + [next];
      FirstOfMore(stream[1..], next);
    }
  }

  /** Zero is read as "not set", and timestamps are never negative: the latch is the first that is not zero. */
  lemma {:induction false} StartIsFirst(stream: seq<int>)
    requires forall i :: 0 <= i < |stream| ==> 0 <= stream[i] < TWO_63
    ensures StartOf(stream) == FirstNonZero(stream)
  {
    if stream == [] {
    } else {
      var rest, last := stream[..|stream| - 1], stream[|stream| - 1];
      StartIsFirst(rest);
      FirstOfMore(rest, last);
      assert rest + [last] == stream;
    }
  }

  lemma {:induction false} FirstIsLeast(stream: seq<int>, i: nat)
    requires Clock(stream) && i < |stream|
    ensures stream[i] == 0 || FirstNonZero(stream) <= stream[i]
    ensures FirstNonZero(stream) == 0 ==> stream[i] == 0
  {
    if stream[0] == 0 && i > 0 { FirstIsLeast(stream[1..], i - 1); }
  }

  /** A prefix has the same first, unless it is all zero. */
  lemma FirstOfPrefix(stream: seq<int>, n: nat)
    requires n <= |stream|
    ensures FirstNonZero(stream[..n]) == 0 || FirstNonZero(stream[..n]) == FirstNonZero(stream)
    decreases |stream| - n
  {
    if n < |stream| {
      assert stream[..n + 1] == stream[..n] + [stream[n]];
      FirstOfMore(stream[..n], stream[n]);
      FirstOfPrefix(stream, n + 1);
    } else {
      assert stream[..n] == stream;
    }
  }

  lemma PtsAt(stream: seq<int>, i: nat)
    requires i < |stream|
    ensures AllPts(stream)[i] == Pts(StartOf(stream[..i + 1]), stream[i])
    ensures AllElapsed(stream)[i] == Elapsed(StartOf(stream[..i + 1]), stream[i])
  {
    if i < |stream| - 1 {
      PtsAt(stream[..|stream| - 1], i);
      assert stream[..|stream| - 1][..i + 1] == stream[..i + 1];
    } else {
      assert stream[..i + 1] == stream;
    }
  }

  lemma {:induction false} FirstUpToLast(stream: seq<int>)
    requires Clock(stream) && stream != []
    ensures FirstNonZero(stream) <= stream[|stream| - 1]
  {
    if stream[0] == 0 && |stream| > 1 { FirstUpToLast(stream[1..]); }
  }

  lemma SubtractsStart(start: nat, ts: int)
    requires start <= ts < TWO_63
    ensures Pts(start, ts) == Elapsed(start, ts) == ts - start
  {
    PtsExact(start, ts);
    ElapsedExact(start, ts);
  }

  /** For a camera clock each result, the encoder's and the peer's, is the time since the first timestamp not zero. */
  lemma LatchSubtractsFirst(stream: seq<int>, i: nat)
    requires Clock(stream) && i < |stream|
    ensures AllPts(stream)[i] == Since(FirstNonZero(stream), stream[i])
    ensures AllElapsed(stream)[i] == Since(FirstNonZero(stream), stream[i])
  {
    var seen := stream[..i + 1];
    PtsAt(stream, i);
    StartIsFirst(seen);
    FirstOfPrefix(stream, i + 1);
    FirstIsLeast(seen, i);
    FirstUpToLast(seen);
    FirstNotNegative(stream);
    FirstNotNegative(seen);
    SubtractsStart(StartOf(seen), stream[i]);
  }

  lemma {:induction false} FirstNotNegative(stream: seq<int>)
    requires Clock(stream)
    ensures 0 <= FirstNonZero(stream) < TWO_63
  {
    if stream == [] {
    } else {
      FirstNotNegative(stream[1..]);
    }
  }

  /** So the result is a clock again: nothing negative, nothing out of order, no wrap. */
  lemma LatchKeepsClock(stream: seq<int>)
    requires Clock(stream)
    ensures Clock(AllPts(stream)) && AllElapsed(stream) == AllPts(stream)
  {
    FirstNotNegative(stream);
    forall i | 0 <= i < |stream|
      ensures AllPts(stream)[i] == AllElapsed(stream)[i] == Since(FirstNonZero(stream), stream[i])
    {
      LatchSubtractsFirst(stream, i);
    }
  }

  // ----- encoder and peer together -----

  /** A packet as a peer's callback gets it, and whether the track is open then. */
  datatype Packet = Packet(pts: int, open: bool)

  /** The timestamps a peer sees. */
  function Seen(packets: seq<Packet>): seq<int> {
    if packets == [] then []
    else var rest, last := Seen(packets[..|packets| - 1]), packets[|packets| - 1];
         if last.open then rest + [last.pts] else rest
  }

  /** The peer's callback over a run: latch and durations sent. */
  datatype PeerTrack = PeerTrack(start: nat, sent: seq<int>)

  function OnPacket(track: PeerTrack, packet: Packet): PeerTrack {
    if !packet.open then track
    else var start := Latched(track.start, packet.pts);
         PeerTrack(start, track.sent + [Elapsed(start, packet.pts)])
  }

  function OnPackets(packets: seq<Packet>): PeerTrack {
    if packets == [] then PeerTrack(0, [])
    else OnPacket(OnPackets(packets[..|packets| - 1]), packets[|packets| - 1])
  }

  /** Frames that pass while the track is closed leave no trace. */
  lemma {:induction false} ClosedIsUnseen(packets: seq<Packet>)
    ensures OnPackets(packets) == PeerTrack(StartOf(Seen(packets)), AllElapsed(Seen(packets)))
  {
    if packets == [] {
    } else {
      var rest, last := packets[..|packets| - 1], packets[|packets| - 1];
      ClosedIsUnseen(rest);
      assert (Seen(rest) + [last.pts])[..|Seen(rest)|] == Seen(rest);
    }
  }

  /** The encoder hands on every frame with its pts, in order; open says when this peer's track was open. */
  predicate Delivered(camera: seq<int>, packets: seq<Packet>) {
    && |packets| == |camera|
    && forall i :: 0 <= i < |packets| ==> packets[i].pts == AllPts(camera)[i]
  }

  /** Which frames a peer sees, by index. */
  function OpenAt(packets: seq<Packet>): (r: seq<nat>)
    ensures forall k :: 0 <= k < |r| ==> r[k] < |packets|
    ensures forall k, l :: 0 <= k < l < |r| ==> r[k] < r[l]
  {
    if packets == [] then []
    else var rest := OpenAt(packets[..|packets| - 1]);
         if packets[|packets| - 1].open then rest + [|packets| - 1] else rest
  }

  lemma {:induction false} SeenAt(packets: seq<Packet>)
    ensures |Seen(packets)| == |OpenAt(packets)|
    ensures forall k :: 0 <= k < |OpenAt(packets)| ==> Seen(packets)[k] == packets[OpenAt(packets)[k]].pts
  {
    if packets == [] {
    } else {
      SeenAt(packets[..|packets| - 1]);
    }
  }

  lemma SeenIsClock(camera: seq<int>, packets: seq<Packet>)
    requires Clock(camera) && Delivered(camera, packets)
    ensures Clock(Seen(packets))
  {
    LatchKeepsClock(camera);
    SeenAt(packets);
  }

  /**
  End to end, for any camera clock and any opening and closing of the track: what a peer sends is never
  negative and never decreases, and two durations differ by exactly what the camera's timestamps differ
  if and only if the earlier frame had a pts that is not zero, or the two timestamps are equal.
  */
  lemma PeerDurations(camera: seq<int>, packets: seq<Packet>, k: nat, l: nat)
    requires Clock(camera) && Delivered(camera, packets) && k <= l < |OpenAt(packets)|
    ensures var sent := OnPackets(packets).sent;
            var i, j := OpenAt(packets)[k], OpenAt(packets)[l];
            && |sent| == |OpenAt(packets)| && 0 <= sent[k] <= sent[l]
            && sent[k] == Since(FirstNonZero(Seen(packets)), packets[i].pts)
            && (sent[l] - sent[k] == camera[j] - camera[i] <==> packets[i].pts > 0 || camera[i] == camera[j])
  {
    var seen := Seen(packets);
    ClosedIsUnseen(packets);
    SeenAt(packets);
    SeenIsClock(camera, packets);
    LatchSubtractsFirst(seen, k);
    LatchSubtractsFirst(seen, l);
    FirstNotNegative(seen);
    FirstIsLeast(seen, k);
    FirstIsLeast(seen, l);
    LatchSubtractsFirst(camera, OpenAt(packets)[k]);
    LatchSubtractsFirst(camera, OpenAt(packets)[l]);
    FirstNotNegative(camera);
    FirstIsLeast(camera, OpenAt(packets)[k]);
    FirstIsLeast(camera, OpenAt(packets)[l]);
    assert camera[OpenAt(packets)[k]] <= camera[OpenAt(packets)[l]];
  }

  lemma {:induction false} OpenStarts(packets: seq<Packet>)
    requires |packets| >= 2 && packets[0].open && packets[1].open
    ensures |OpenAt(packets)| >= 2 && OpenAt(packets)[0] == 0 && OpenAt(packets)[1] == 1
  {
    if |packets| == 2 {
      assert packets[..1][..0] == [];
      assert OpenAt(packets[..1]) == [0];
    } else {
      OpenStarts(packets[..|packets| - 1]);
    }
  }

  /**
  The first frame has pts 0, which a peer reads as "not set": whatever comes later, a track that is open
  for the first two frames is sent 0 for both, however far apart they were taken.
  */
  lemma SecondFrameIsZeroToo(camera: seq<int>, packets: seq<Packet>)
    requires Clock(camera) && Delivered(camera, packets) && |camera| >= 2 && 0 < camera[0]
    requires packets[0].open && packets[1].open
    ensures var sent := OnPackets(packets).sent;
            |sent| >= 2 && sent[0] == 0 && sent[1] == 0
  {
    var seen := Seen(packets);
    OpenStarts(packets);
    PeerDurations(camera, packets, 0, 1);
    LatchSubtractsFirst(camera, 0);
    SeenAt(packets);
    SeenIsClock(camera, packets);
    FirstNotNegative(seen);
    assert seen[0] == 0 && FirstNonZero(seen) == FirstNonZero(seen[1..]);
    assert seen[1..][0] == seen[1];
    ClosedIsUnseen(packets);
    LatchSubtractsFirst(seen, 1);
  }
}

/** The methods around the latches. */
module TimestampMethods {
  import opened Timestamps

  class LibAvEncoder {
    /** 0 until a frame with another timestamp arrives. */
    var videoStartTs: nat
    /** The camera's timestamps so far. */
    ghost var camera: seq<int>

    ghost predicate Valid() reads this { videoStartTs == StartOf(camera) }

    constructor ()
      ensures Valid() && camera == []
    {
      videoStartTs, camera := 0, [];
    }

    /** EncodeBuffer up to avcodec_send_frame. */
    method StampFrame(ts: int) returns (pts: int)
      requires Valid() && IsInt64(ts)
      modifies this
      ensures Valid() && camera == old(camera) + [ts] && AllPts(camera) == AllPts(old(camera)) + [pts]
    {
      if videoStartTs == 0 {
        videoStartTs := ToUInt64(ts);
      }
      pts := ToInt64(ToUInt64(ts) - videoStartTs);
      camera := camera + [ts];
      assert camera[..|camera| - 1] == old(camera);
    }
  }

  /** What avcodec_receive_packet answers. */
  datatype Received = Ready(pts: int) | Again | EndOfFile | Error(code: int)

  predicate Stops(answer: Received) { !answer.Ready? }

  /** encode: hands on every packet that is ready, in order, then stops; only other errors throw. */
  method Drain(answers: seq<Received>) returns (published: seq<int>, thrown: bool)
    requires exists i :: 0 <= i < |answers| && Stops(answers[i])
    ensures |published| < |answers| && Stops(answers[|published|])
    ensures forall i :: 0 <= i < |published| ==> answers[i] == Ready(published[i])
    ensures thrown <==> answers[|published|].Error?
  {
    published, thrown := [], false;
    ghost var last :| 0 <= last < |answers| && Stops(answers[last]);
    while true
      invariant |published| <= last
      invariant forall i :: 0 <= i < |published| ==> answers[i] == Ready(published[i])
      decreases last - |published|
    {
      var answer := answers[|published|];
      match answer {
        case Ready(pts) => published := published + [pts];
        case Again => return;
        case EndOfFile => return;
        case Error(_) => return published, true;
      }
    }
  }

  /** The part of RtcPeer that its encoder callback uses. */
  class PeerSender {
    var startTs: nat
    var sent: seq<int>
    ghost var packets: seq<Packet>

    ghost predicate Valid() reads this { PeerTrack(startTs, sent) == OnPackets(packets) }

    constructor ()
      ensures Valid() && packets == []
    {
      startTs, sent, packets := 0, [], [];
    }

    /** The function SubscribeEncoder subscribes. */
    method OnFrame(timestamp: int, open: bool)
      requires Valid() && IsInt64(timestamp)
      modifies this
      ensures Valid() && packets == old(packets) + [Packet(timestamp, open)]
    {
      if open {
        if startTs == 0 {
          startTs := ToUInt64(timestamp);
        }
        sent := sent + [ToUInt64(ToUInt64(timestamp) - startTs)];
      }
      packets := packets + [Packet(timestamp, open)];
      assert packets[..|packets| - 1] == old(packets);
    }
  }
}
