/**
Mapping and unmapping of V4L2 buffers, against a kernel that keeps books: which mappings are live,
which were made and released, which descriptors were closed. Outcomes of its calls are parameters.
*/
module V4L2Buffers {
  import opened Basics

  type Address = nat

  datatype Pointer = Null | MapFailed | At(address: Address)
  datatype Mapping = Mapping(address: Address, length: nat)

  /** What the kernel answers for one buffer of MMap, where it is asked. */
  datatype Answer = Answer(queried: bool, length: nat, exported: Option<int>, mapped: Option<Address>)

  datatype Type = SinglePlane | MultiPlane | OtherType
  datatype Memory = MemoryMmap | MemoryDmabuf | OtherMemory

  datatype V4L2Buffer = V4L2Buffer(start: Pointer, length: nat, dmafd: int)

  const NEW_BUFFER := V4L2Buffer(Null, 0, 0)

  /** The mapping a buffer holds, if any, in a list of none or one. */
  function Held(buffer: V4L2Buffer): seq<Mapping> {
    if buffer.start.At? then [Mapping(buffer.start.address, buffer.length)] else []
  }

  function AllHeld(buffers: seq<V4L2Buffer>): seq<Mapping> {
    if buffers == [] then [] else AllHeld(buffers[..|buffers| - 1]) + Held(buffers[|buffers| - 1])
  }

  function Descriptor(buffer: V4L2Buffer): seq<int> { if buffer.dmafd != 0 then [buffer.dmafd] else [] }

  function Descriptors(buffers: seq<V4L2Buffer>): seq<int> {
    if buffers == [] then [] else Descriptors(buffers[..|buffers| - 1]) + Descriptor(buffers[|buffers| - 1])
  }

  function Unmapped(buffers: seq<V4L2Buffer>): seq<V4L2Buffer> {
    seq(|buffers|, i requires 0 <= i < |buffers| => buffers[i].(start := Null))
  }

  // ----- the kernel -----

  class Kernel {
    var live: map<Address, nat>
    var made: seq<Mapping>
    var released: seq<Mapping>
    var closed: seq<int>

    constructor ()
      ensures live == map[] && made == [] && released == [] && closed == []
    {
      live, made, released, closed := map[], [], [], [];
    }

    method Mmap(address: Address, length: nat)
      requires address !in live
      modifies this
      ensures live == old(live)[address := length] && made == old(made) + [Mapping(address, length)]
      ensures released == old(released) && closed == old(closed)
    {
      live, made := live[address := length], made + [Mapping(address, length)];
    }

    /** Only a live mapping, with its own length, is released; anything else is refused or does not free it. */
    method Munmap(start: Pointer, length: nat)
      modifies `live, `released
      ensures if start.At? && start.address in old(live) && old(live)[start.address] == length
              then live == old(live) - {start.address} && released == old(released) + [Mapping(start.address, length)]
              else live == old(live) && released == old(released)
    {
      if start.At? && start.address in live && live[start.address] == length {
        live, released := live - {start.address}, released + [Mapping(start.address, length)];
      }
    }

    method Close(fd: int)
      modifies `closed
      ensures closed == old(closed) + [fd]
    {
      closed := closed + [fd];
    }
  }

  // ----- books -----

  predicate Distinct(mappings: seq<Mapping>) {
    forall i, j :: 0 <= i < j < |mappings| ==> mappings[i].address != mappings[j].address
  }

  /** live is before plus these mappings, no two at one address. */
  predicate Added(live: map<Address, nat>, before: map<Address, nat>, mappings: seq<Mapping>) {
    && Distinct(mappings)
    && (forall m :: m in mappings ==> m.address !in before && m.address in live && live[m.address] == m.length)
    && (forall a :: a in before ==> a in live && live[a] == before[a])
    && (forall a :: a in live && a !in before ==> exists i :: 0 <= i < |mappings| && mappings[i].address == a)
  }

  lemma AddedNone(live: map<Address, nat>)
    ensures Added(live, live, [])
  {
  }

  lemma AddedOnly(live: map<Address, nat>, before: map<Address, nat>)
    requires Added(live, before, [])
    ensures live == before
  {
  }

  lemma AddOne(live: map<Address, nat>, before: map<Address, nat>, mappings: seq<Mapping>, m: Mapping)
    requires Added(live, before, mappings) && m.address !in live
    ensures Added(live[m.address := m.length], before, mappings + [m])
  {
    var now, more := live[m.address := m.length], mappings + [m];
    forall a | a in now && a !in before ensures exists i :: 0 <= i < |more| && more[i].address == a {
      if a == m.address {
        assert more[|mappings|].address == a;
      } else {
        var i :| 0 <= i < |mappings| && mappings[i].address == a;
        assert more[i].address == a;
      }
    }
  }

  /** Releasing the first of them leaves the rest. */
  lemma ReleaseOne(live: map<Address, nat>, before: map<Address, nat>, mappings: seq<Mapping>)
    requires Added(live, before, mappings) && mappings != []
    ensures mappings[0].address in live && live[mappings[0].address] == mappings[0].length
    ensures Added(live - {mappings[0].address}, before, mappings[1..])
  {
    var first, rest, now := mappings[0], mappings[1..], live - {mappings[0].address};
    assert first in mappings;
    forall m | m in rest ensures m in mappings && m.address != first.address {
      var i :| 0 <= i < |rest| && rest[i] == m;
      assert mappings[i + 1] == m;
    }
    forall a | a in now && a !in before ensures exists i :: 0 <= i < |rest| && rest[i].address == a {
      var i :| 0 <= i < |mappings| && mappings[i].address == a;
      assert rest[i - 1].address == a;
    }
  }

  lemma {:induction false} HeldJoins(a: seq<V4L2Buffer>, b: seq<V4L2Buffer>)
    ensures AllHeld(a + b) == AllHeld(a) + AllHeld(b)
  {
    if b == [] {
      assert a + b == a;
    } else {
      var rest, last := b[..|b| - 1], b[|b| - 1];
      HeldJoins(a, rest);
      assert (a + b)[..|a + b| - 1] == a + rest;
      Associates(AllHeld(a), AllHeld(rest), Held(last));
    }
  }

  lemma HeldSingle(buffer: V4L2Buffer)
    ensures AllHeld([buffer]) == Held(buffer)
  {
    assert [buffer][..0] == [] && [] + Held(buffer) == Held(buffer);
  }

  lemma HeldOne(buffers: seq<V4L2Buffer>)
    requires buffers != []
    ensures AllHeld(buffers) == Held(buffers[0]) + AllHeld(buffers[1..])
  {
    HeldSingle(buffers[0]);
    HeldJoins([buffers[0]], buffers[1..]);
    assert buffers == [buffers[0]] + buffers[1..];
  }

  lemma {:induction false} NoneHeld(buffers: seq<V4L2Buffer>)
    requires forall buffer :: buffer in buffers ==> !buffer.start.At?
    ensures AllHeld(buffers) == []
  {
    if buffers == [] {
    } else {
      NoneHeld(buffers[..|buffers| - 1]);
      assert buffers[|buffers| - 1] in buffers;
    }
  }

  /** An unmapped group holds no mapping and keeps its descriptors. */
  lemma {:induction false} UnmappedHoldsNothing(buffers: seq<V4L2Buffer>)
    ensures AllHeld(Unmapped(buffers)) == [] && Descriptors(Unmapped(buffers)) == Descriptors(buffers)
  {
    NoneHeld(Unmapped(buffers));
    if buffers != [] {
      UnmappedHoldsNothing(buffers[..|buffers| - 1]);
      assert Unmapped(buffers)[..|buffers| - 1] == Unmapped(buffers[..|buffers| - 1]);
    }
  }

  // ----- MMap and UnMap -----

  /** One turn of MMap's loop passes. */
  predicate Passes(answer: Answer, kind: Type, hasDmafd: bool) {
    answer.queried && (hasDmafd ==> answer.exported.Some?) && (!kind.OtherType? ==> answer.mapped.Some?)
  }

  /** What that turn leaves of the buffer, also where it does not pass. */
  function Filled(buffer: V4L2Buffer, answer: Answer, kind: Type, hasDmafd: bool): V4L2Buffer {
    if !answer.queried || (hasDmafd && answer.exported.None?) then buffer else
    var exported := if hasDmafd then buffer.(dmafd := answer.exported.value) else buffer;
    if kind.OtherType? then exported
    else exported.(length := answer.length,
                   start := if answer.mapped.Some? then Pointer.At(answer.mapped.value) else Null)
  }

  /** The kernel maps at addresses that are not in use. */
  predicate Honest(answers: seq<Answer>, live: map<Address, nat>) {
    && (forall i :: 0 <= i < |answers| && answers[i].mapped.Some? ==> answers[i].mapped.value !in live)
    && (forall i, j :: 0 <= i < j < |answers| && answers[i].mapped.Some? && answers[j].mapped.Some? ==>
          answers[i].mapped.value != answers[j].mapped.value)
  }

  // ----- what the loops do, turn by turn -----

  /** A group's buffers together with the kernel's books. */
  datatype Books = Books(buffers: seq<V4L2Buffer>, live: map<Address, nat>, made: seq<Mapping>,
                         released: seq<Mapping>, closed: seq<int>)

  function MapTurn(b: Books, i: nat, answer: Answer, kind: Type, hasDmafd: bool): Books
    requires i < |b.buffers|
  {
    var mapped := Mapped(answer, kind, hasDmafd);
    b.(buffers := b.buffers[i := Filled(b.buffers[i], answer, kind, hasDmafd)], made := b.made + mapped,
       live := if mapped == [] then b.live else b.live[mapped[0].address := mapped[0].length])
  }

  /** The mapping a turn makes, in a list of none or one. */
  function Mapped(answer: Answer, kind: Type, hasDmafd: bool): seq<Mapping> {
    if answer.queried && (hasDmafd ==> answer.exported.Some?) && !kind.OtherType? && answer.mapped.Some?
    then [Mapping(answer.mapped.value, answer.length)] else []
  }

  function MapTurns(b: Books, n: nat, answers: seq<Answer>, kind: Type, hasDmafd: bool): (after: Books)
    requires n <= |b.buffers| && n <= |answers|
    ensures |after.buffers| == |b.buffers|
  {
    if n == 0 then b
    else MapTurn(MapTurns(b, n - 1, answers, kind, hasDmafd), n - 1, answers[n - 1], kind, hasDmafd)
  }

  /** munmap frees a live mapping given its own length, and nothing otherwise. */
  predicate Frees(live: map<Address, nat>, buffer: V4L2Buffer) {
    buffer.start.At? && buffer.start.address in live && live[buffer.start.address] == buffer.length
  }

  function UnmapTurn(b: Books, i: nat): Books
    requires i < |b.buffers|
  {
    var buffer := b.buffers[i];
    b.(buffers := b.buffers[i := buffer.(start := Null)], closed := b.closed + Descriptor(buffer),
       live := if Frees(b.live, buffer) then b.live - {buffer.start.address} else b.live,
       released := if Frees(b.live, buffer) then b.released + Held(buffer) else b.released)
  }

  function UnmapTurns(b: Books, n: nat): (after: Books)
    requires n <= |b.buffers|
    ensures |after.buffers| == |b.buffers|
  {
    if n == 0 then b else UnmapTurn(UnmapTurns(b, n - 1), n - 1)
  }

  // ----- what they amount to -----

  /** No buffer from the given one on holds a mapping. */
  predicate EmptyFrom(buffers: seq<V4L2Buffer>, i: nat) {
    forall j :: i <= j < |buffers| ==> buffers[j].start.Null?
  }

  lemma {:induction false} HeldOfUpdate(was: seq<V4L2Buffer>, i: nat, buffer: V4L2Buffer)
    requires i < |was| && EmptyFrom(was, i)
    ensures AllHeld(was) == AllHeld(was[..i]) && AllHeld(was[i := buffer]) == AllHeld(was[..i]) + Held(buffer)
  {
    var now, last := was[i := buffer], |was| - 1;
    if i == last {
      assert now[..last] == was[..last];
      assert AllHeld(was) == AllHeld(was[..last]) + [];
    } else {
      HeldOfUpdate(was[..last], i, buffer);
      assert was[..last][..i] == was[..i] && now[..last] == was[..last][i := buffer];
      assert AllHeld(was) == AllHeld(was[..last]) + [] && AllHeld(now) == AllHeld(now[..last]) + [];
    }
  }

  predicate Fresh(buffers: seq<V4L2Buffer>) { EmptyFrom(buffers, 0) }

  /** Each turn of MMap touches its own buffer only. */
  lemma {:induction false} MapTurnsFill(b: Books, n: nat, answers: seq<Answer>, kind: Type, hasDmafd: bool)
    requires n <= |b.buffers| && n <= |answers|
    ensures var after := MapTurns(b, n, answers, kind, hasDmafd);
            && (forall i :: 0 <= i < n ==> after.buffers[i] == Filled(b.buffers[i], answers[i], kind, hasDmafd))
            && (forall i :: n <= i < |b.buffers| ==> after.buffers[i] == b.buffers[i])
            && after.released == b.released && after.closed == b.closed
  {
    if n == 0 {
    } else {
      MapTurnsFill(b, n - 1, answers, kind, hasDmafd);
    }
  }

  /** A turn that passes on a group of a known type makes one mapping of the queried length; its buffer holds it. */
  lemma PassingTurnMaps(b: Books, i: nat, answer: Answer, kind: Type, hasDmafd: bool)
    requires i < |b.buffers| && !kind.OtherType? && Passes(answer, kind, hasDmafd)
    ensures answer.mapped.Some?
    ensures var after, m := MapTurn(b, i, answer, kind, hasDmafd), Mapping(answer.mapped.value, answer.length);
            && after.made == b.made + [m] && Held(after.buffers[i]) == [m]
            && m.address in after.live && after.live[m.address] == m.length
            && after.buffers[i].dmafd == if hasDmafd then answer.exported.value else b.buffers[i].dmafd
  {
  }

  /** A turn passes exactly if every call the kernel is asked for succeeds; one that does not makes no mapping. */
  lemma FailingTurnMapsNothing(b: Books, i: nat, answer: Answer, kind: Type, hasDmafd: bool)
    requires i < |b.buffers|
    ensures Passes(answer, kind, hasDmafd) <==>
            answer.queried && (answer.exported.Some? || !hasDmafd) && (answer.mapped.Some? || kind.OtherType?)
    ensures !Passes(answer, kind, hasDmafd) || kind.OtherType? ==>
              var after := MapTurn(b, i, answer, kind, hasDmafd);
              after.made == b.made && after.live == b.live
  {
  }

  lemma {:induction false} StaysFree(b: Books, n: nat, later: nat, answers: seq<Answer>, kind: Type, hasDmafd: bool)
    requires n <= |b.buffers| && n <= later < |answers| && Honest(answers, b.live)
    ensures answers[later].mapped.Some? ==>
              answers[later].mapped.value !in MapTurns(b, n, answers, kind, hasDmafd).live
  {
    if n == 0 {
    } else {
      StaysFree(b, n - 1, later, answers, kind, hasDmafd);
    }
  }

  ghost predicate Booked(b: Books, start: Books) {
    Added(b.live, start.live, AllHeld(b.buffers)) && b.made == start.made + AllHeld(b.buffers)
  }

  /** A turn that fills the first empty buffer adds its mapping to the books. */
  lemma MapTurnHeld(b: Books, start: Books, i: nat, answer: Answer, kind: Type, hasDmafd: bool)
    requires i < |b.buffers| && Booked(b, start)
    requires EmptyFrom(b.buffers, i)
    requires answer.mapped.Some? ==> answer.mapped.value !in b.live
    ensures Booked(MapTurn(b, i, answer, kind, hasDmafd), start)
  {
    var filled := Filled(b.buffers[i], answer, kind, hasDmafd);
    HeldOfUpdate(b.buffers, i, filled);
    Associates(start.made, AllHeld(b.buffers), Held(filled));
    if filled.start.At? {
      AddOne(b.live, start.live, AllHeld(b.buffers), Mapping(filled.start.address, filled.length));
    } else {
      assert AllHeld(b.buffers) + [] == AllHeld(b.buffers);
    }
  }

  lemma FreshIsBooked(b: Books)
    requires Fresh(b.buffers)
    ensures Booked(b, b)
  {
    NoneHeld(b.buffers);
    AddedNone(b.live);
  }

  lemma RestIsFresh(b: Books, n: nat, answers: seq<Answer>, kind: Type, hasDmafd: bool)
    requires n < |b.buffers| && n < |answers| && Fresh(b.buffers) && Honest(answers, b.live)
    ensures var now := MapTurns(b, n, answers, kind, hasDmafd);
            && EmptyFrom(now.buffers, n)
            && (answers[n].mapped.Some? ==> answers[n].mapped.value !in now.live)
  {
    MapTurnsFill(b, n, answers, kind, hasDmafd);
    StaysFree(b, n, n, answers, kind, hasDmafd);
  }

  /**
  However many turns MMap takes over a fresh group, every mapping it made is live, and held, with its
  length, by the buffer it was made for.
  */
  lemma {:induction false} MappedIsHeld(b: Books, n: nat, answers: seq<Answer>, kind: Type, hasDmafd: bool)
    requires n <= |b.buffers| && n <= |answers| && Fresh(b.buffers) && Honest(answers, b.live)
    ensures Booked(MapTurns(b, n, answers, kind, hasDmafd), b)
  {
    if n == 0 {
      FreshIsBooked(b);
    } else {
      MappedIsHeld(b, n - 1, answers, kind, hasDmafd);
      MappedStep(b, n, answers, kind, hasDmafd);
    }
  }

  lemma MappedStep(b: Books, n: nat, answers: seq<Answer>, kind: Type, hasDmafd: bool)
    requires 0 < n <= |b.buffers| && n <= |answers| && Fresh(b.buffers) && Honest(answers, b.live)
    requires Booked(MapTurns(b, n - 1, answers, kind, hasDmafd), b)
    ensures Booked(MapTurns(b, n, answers, kind, hasDmafd), b)
  {
    RestIsFresh(b, n - 1, answers, kind, hasDmafd);
    MapTurnHeld(MapTurns(b, n - 1, answers, kind, hasDmafd), b, n - 1, answers[n - 1], kind, hasDmafd);
  }

  /** The next buffer is as it was, and the next address free. */
  lemma BeforeTurn(b: Books, i: nat, answers: seq<Answer>, kind: Type, hasDmafd: bool)
    requires i < |b.buffers| && i < |answers| && Honest(answers, b.live)
    ensures MapTurns(b, i, answers, kind, hasDmafd).buffers[i] == b.buffers[i]
    ensures answers[i].mapped.Some? ==> answers[i].mapped.value !in MapTurns(b, i, answers, kind, hasDmafd).live
  {
    MapTurnsFill(b, i, answers, kind, hasDmafd);
    StaysFree(b, i, i, answers, kind, hasDmafd);
  }

  lemma {:induction false} UnmapTurnsClear(b: Books, n: nat)
    requires n <= |b.buffers|
    ensures var after := UnmapTurns(b, n);
            && after.buffers == Unmapped(b.buffers[..n]) + b.buffers[n..]
            && after.closed == b.closed + Descriptors(b.buffers[..n]) && after.made == b.made
  {
    if n == 0 {
      assert b.buffers[..0] == [] && b.buffers[0..] == b.buffers;
      assert Unmapped([]) + b.buffers == b.buffers && b.closed + [] == b.closed;
    } else {
      UnmapTurnsClear(b, n - 1);
      UnmapTurnClears(b, UnmapTurns(b, n - 1), n - 1);
    }
  }

  lemma UnmapTurnClears(b: Books, almost: Books, i: nat)
    requires i < |b.buffers| && almost.buffers == Unmapped(b.buffers[..i]) + b.buffers[i..]
    requires almost.closed == b.closed + Descriptors(b.buffers[..i])
    ensures UnmapTurn(almost, i).buffers == Unmapped(b.buffers[..i + 1]) + b.buffers[i + 1..]
    ensures UnmapTurn(almost, i).closed == b.closed + Descriptors(b.buffers[..i + 1])
  {
    assert almost.buffers[i] == b.buffers[i] && b.buffers[..i + 1][..i] == b.buffers[..i];
    Associates(b.closed, Descriptors(b.buffers[..i]), Descriptor(b.buffers[i]));
  }

  lemma FreesHeld(live: map<Address, nat>, before: map<Address, nat>, buffer: V4L2Buffer, rest: seq<Mapping>)
    requires Added(live, before, Held(buffer) + rest)
    ensures if buffer.start.At? then Frees(live, buffer) && Added(live - {buffer.start.address}, before, rest)
            else !Frees(live, buffer) && Added(live, before, rest)
  {
    if buffer.start.At? {
      ReleaseOne(live, before, Held(buffer) + rest);
      assert (Held(buffer) + rest)[1..] == rest;
    } else {
      assert Held(buffer) + rest == rest;
    }
  }

  lemma UnmapTurnFrees(almost: Books, before: map<Address, nat>, i: nat, rest: seq<Mapping>)
    requires i < |almost.buffers| && Added(almost.live, before, Held(almost.buffers[i]) + rest)
    ensures Added(UnmapTurn(almost, i).live, before, rest)
    ensures UnmapTurn(almost, i).released == almost.released + Held(almost.buffers[i])
  {
    FreesHeld(almost.live, before, almost.buffers[i], rest);
  }

  lemma HeldUpTo(buffers: seq<V4L2Buffer>, n: nat)
    requires n < |buffers|
    ensures AllHeld(buffers[..n + 1]) == AllHeld(buffers[..n]) + Held(buffers[n])
    ensures AllHeld(buffers[n..]) == Held(buffers[n]) + AllHeld(buffers[n + 1..])
  {
    HeldOne(buffers[n..]);
    assert buffers[n..][1..] == buffers[n + 1..] && buffers[..n + 1][..n] == buffers[..n];
  }

  /** UnMap releases each mapping the group holds exactly once, in order and with its own length, and nothing else. */
  lemma {:induction false} UnmapReleasesHeld(b: Books, before: map<Address, nat>, n: nat)
    requires n <= |b.buffers| && Added(b.live, before, AllHeld(b.buffers))
    ensures Added(UnmapTurns(b, n).live, before, AllHeld(b.buffers[n..]))
    ensures UnmapTurns(b, n).released == b.released + AllHeld(b.buffers[..n])
  {
    if n == 0 {
      assert b.buffers[0..] == b.buffers && b.released + [] == b.released;
    } else {
      var almost := UnmapTurns(b, n - 1);
      UnmapReleasesHeld(b, before, n - 1);
      UnmapTurnsClear(b, n - 1);
      assert almost.buffers[n - 1] == b.buffers[n - 1];
      HeldUpTo(b.buffers, n - 1);
      UnmapTurnFrees(almost, before, n - 1, AllHeld(b.buffers[n..]));
      Associates(b.released, AllHeld(b.buffers[..n - 1]), Held(b.buffers[n - 1]));
    }
  }

  function AllUnmapped(b: Books): Books { UnmapTurns(b, |b.buffers|) }

  /**
  MMap, even where it stops midway, and then UnMap: the kernel's live mappings are as before, each
  mapping made has been released exactly once with its own length, in the order it was made.
  */
  lemma MapThenUnmap(b: Books, n: nat, answers: seq<Answer>, kind: Type, hasDmafd: bool)
    requires n <= |b.buffers| && n <= |answers| && Fresh(b.buffers) && Honest(answers, b.live)
    ensures var mapped := MapTurns(b, n, answers, kind, hasDmafd);
            var after := AllUnmapped(mapped);
            && after.live == b.live
            && exists pairs :: Distinct(pairs) && after.made == b.made + pairs && after.released == b.released + pairs
  {
    var mapped := MapTurns(b, n, answers, kind, hasDmafd);
    MappedIsHeld(b, n, answers, kind, hasDmafd);
    MapTurnsFill(b, n, answers, kind, hasDmafd);
    UnmapReleasesHeld(mapped, b.live, |mapped.buffers|);
    UnmapTurnsClear(mapped, |mapped.buffers|);
    assert mapped.buffers[..|mapped.buffers|] == mapped.buffers && mapped.buffers[|mapped.buffers|..] == [];
    AddedOnly(AllUnmapped(mapped).live, b.live);
    assert Distinct(AllHeld(mapped.buffers));
  }

  // ----- a group that is mapped again -----

  /** live is before plus what these buffers hold, each its own mapping; in whatever order. */
  ghost predicate Owned(live: map<Address, nat>, before: map<Address, nat>, buffers: seq<V4L2Buffer>) {
    && Unshared(buffers)
    && (forall i :: 0 <= i < |buffers| && buffers[i].start.At? ==> Owns(live, before, buffers[i]))
    && (forall a :: a in before ==> a in live && live[a] == before[a])
    && (forall a :: a in live && a !in before ==> HeldBySome(buffers, a))
  }

  predicate Unshared(buffers: seq<V4L2Buffer>) {
    forall i, j :: 0 <= i < j < |buffers| && buffers[i].start.At? ==> buffers[i].start != buffers[j].start
  }

  predicate HeldBySome(buffers: seq<V4L2Buffer>, a: Address) {
    exists i :: 0 <= i < |buffers| && buffers[i].start == At(a)
  }

  predicate Owns(live: map<Address, nat>, before: map<Address, nat>, buffer: V4L2Buffer)
    requires buffer.start.At?
  {
    var a := buffer.start.address;
    a !in before && a in live && live[a] == buffer.length
  }

  predicate NoneMapped(buffers: seq<V4L2Buffer>) { forall i :: 0 <= i < |buffers| ==> !buffers[i].start.At? }

  lemma OwnedAndEmpty(live: map<Address, nat>, before: map<Address, nat>, some: seq<V4L2Buffer>, empty: seq<V4L2Buffer>)
    requires Owned(live, before, some) && NoneMapped(empty)
    ensures Owned(live, before, some + empty)
  {
    forall a | HeldBySome(some, a) ensures HeldBySome(some + empty, a) {
      var i :| 0 <= i < |some| && some[i].start == At(a);
      assert (some + empty)[i].start == At(a);
    }
  }

  lemma UnsharedTail(empty: seq<V4L2Buffer>, some: seq<V4L2Buffer>)
    requires Unshared(empty + some)
    ensures Unshared(some)
  {
    var all, n := empty + some, |empty|;
    forall i, j | 0 <= i < j < |some| && some[i].start.At? ensures some[i].start != some[j].start {
      assert all[i + n] == some[i] && all[j + n] == some[j];
    }
  }

  lemma OwnedButEmpty(live: map<Address, nat>, before: map<Address, nat>, empty: seq<V4L2Buffer>, some: seq<V4L2Buffer>)
    requires Owned(live, before, empty + some) && NoneMapped(empty)
    ensures Owned(live, before, some)
  {
    var all, n := empty + some, |empty|;
    UnsharedTail(empty, some);
    forall i | 0 <= i < |some| && some[i].start.At? ensures Owns(live, before, some[i]) {
      assert all[i + n] == some[i];
    }
    forall a | HeldBySome(all, a) ensures HeldBySome(some, a) {
      var i :| 0 <= i < |all| && all[i].start == At(a);
      assert some[i - n].start == At(a);
    }
  }

  /** A buffer is given a new mapping; what it held stays mapped. */
  lemma OwnedOverwritten(live: map<Address, nat>, before: map<Address, nat>, buffers: seq<V4L2Buffer>, i: nat,
                         filled: V4L2Buffer)
    requires Owned(live, before, buffers) && i < |buffers| && (filled.start.At? ==> filled.start.address !in live)
    ensures Owned(if filled.start.At? then live[filled.start.address := filled.length] else live, before,
                  buffers[i := filled] + [buffers[i]])
  {
    var now := buffers[i := filled] + [buffers[i]];
    var after := if filled.start.At? then live[filled.start.address := filled.length] else live;
    forall a | a in after && a !in before ensures HeldBySome(now, a) {
      if a in live {
        assert HeldBySome(buffers, a);
        var j :| 0 <= j < |buffers| && buffers[j].start == At(a);
        assert now[if j == i then |buffers| else j].start == At(a);
      } else {
        assert now[i].start == At(a);
      }
    }
  }

  /** A buffer changes, but not in what it holds. */
  lemma OwnedUnchanged(live: map<Address, nat>, before: map<Address, nat>, buffers: seq<V4L2Buffer>, i: nat,
                       buffer: V4L2Buffer)
    requires Owned(live, before, buffers) && i < |buffers|
    requires if buffers[i].start.At? then buffer == buffers[i].(dmafd := buffer.dmafd) else !buffer.start.At?
    ensures Owned(live, before, buffers[i := buffer])
  {
    var now := buffers[i := buffer];
    forall a | HeldBySome(buffers, a) ensures HeldBySome(now, a) {
      var j :| 0 <= j < |buffers| && buffers[j].start == At(a);
      assert now[j].start == At(a);
    }
  }

  /** A buffer lets go of what it holds. */
  lemma OwnedReleased(live: map<Address, nat>, before: map<Address, nat>, buffers: seq<V4L2Buffer>, i: nat)
    requires Owned(live, before, buffers) && i < |buffers|
    ensures buffers[i].start.At? ==> Frees(live, buffers[i])
    ensures Owned(if buffers[i].start.At? then live - {buffers[i].start.address} else live, before,
                  buffers[i := buffers[i].(start := Null)])
  {
    var now := buffers[i := buffers[i].(start := Null)];
    var after := if buffers[i].start.At? then live - {buffers[i].start.address} else live;
    forall a | a in after && a !in before ensures HeldBySome(now, a) {
      assert HeldBySome(buffers, a);
      var j :| 0 <= j < |buffers| && buffers[j].start == At(a);
      assert now[j].start == At(a);
    }
  }

  lemma OwnedByNobody(live: map<Address, nat>, before: map<Address, nat>, buffers: seq<V4L2Buffer>)
    requires Owned(live, before, buffers)
    ensures live == before <==> NoneMapped(buffers)
  {
    if NoneMapped(buffers) {
      forall a | a in live ensures a in before { assert !HeldBySome(buffers, a); }
    }
  }

  /** The turn gets as far as to set the buffer's start. */
  predicate Overwrites(answer: Answer, kind: Type, hasDmafd: bool) {
    answer.queried && (hasDmafd ==> answer.exported.Some?) && !kind.OtherType?
  }

  /** The buffers, as they were, that the first n turns overwrite. */
  function Overwritten(buffers: seq<V4L2Buffer>, n: nat, answers: seq<Answer>, kind: Type, hasDmafd: bool)
    : seq<V4L2Buffer>
    requires n <= |buffers| && n <= |answers|
  {
    if n == 0 then []
    else Overwritten(buffers, n - 1, answers, kind, hasDmafd)
         + if Overwrites(answers[n - 1], kind, hasDmafd) then [buffers[n - 1]] else []
  }

  lemma TurnOwned(now: Books, before: map<Address, nat>, lost: seq<V4L2Buffer>, i: nat, answer: Answer, kind: Type,
                  hasDmafd: bool)
    requires i < |now.buffers| && Owned(now.live, before, now.buffers + lost)
    requires answer.mapped.Some? ==> answer.mapped.value !in now.live
    ensures var after := MapTurn(now, i, answer, kind, hasDmafd);
            Owned(after.live, before, after.buffers
                                      + (lost + if Overwrites(answer, kind, hasDmafd) then [now.buffers[i]] else []))
  {
    var filled, all := Filled(now.buffers[i], answer, kind, hasDmafd), now.buffers + lost;
    assert all[i := filled] == now.buffers[i := filled] + lost;
    if Overwrites(answer, kind, hasDmafd) {
      OwnedOverwritten(now.live, before, all, i, filled);
      Associates(now.buffers[i := filled], lost, [now.buffers[i]]);
    } else {
      OwnedUnchanged(now.live, before, all, i, filled);
      assert lost + [] == lost;
    }
  }

  lemma {:induction false} TurnsOwned(b: Books, before: map<Address, nat>, cut: seq<V4L2Buffer>, n: nat,
                                      answers: seq<Answer>, kind: Type, hasDmafd: bool)
    requires n <= |b.buffers| && n <= |answers| && Honest(answers, b.live) && Owned(b.live, before, b.buffers + cut)
    ensures var after := MapTurns(b, n, answers, kind, hasDmafd);
            Owned(after.live, before, after.buffers + (cut + Overwritten(b.buffers, n, answers, kind, hasDmafd)))
  {
    if n == 0 {
      assert cut + [] == cut;
    } else {
      var i, lost := n - 1, Overwritten(b.buffers, n - 1, answers, kind, hasDmafd);
      TurnsOwned(b, before, cut, i, answers, kind, hasDmafd);
      BeforeTurn(b, i, answers, kind, hasDmafd);
      TurnOwned(MapTurns(b, i, answers, kind, hasDmafd), before, cut + lost, i, answers[i], kind, hasDmafd);
      Associates(cut, lost, if Overwrites(answers[i], kind, hasDmafd) then [b.buffers[i]] else []);
    }
  }

  lemma {:induction false} UnmapOwned(b: Books, before: map<Address, nat>, lost: seq<V4L2Buffer>, n: nat)
    requires n <= |b.buffers| && Owned(b.live, before, b.buffers + lost)
    ensures Owned(UnmapTurns(b, n).live, before, UnmapTurns(b, n).buffers + lost)
  {
    if n == 0 {
    } else {
      UnmapOwned(b, before, lost, n - 1);
      UnmapTurnOwned(UnmapTurns(b, n - 1), before, lost, n - 1);
    }
  }

  lemma UnmapTurnOwned(b: Books, before: map<Address, nat>, lost: seq<V4L2Buffer>, i: nat)
    requires i < |b.buffers| && Owned(b.live, before, b.buffers + lost)
    ensures Owned(UnmapTurn(b, i).live, before, UnmapTurn(b, i).buffers + lost)
  {
    OwnedReleased(b.live, before, b.buffers + lost, i);
    var cleared := b.buffers[i].(start := Null);
    assert (b.buffers + lost)[i := cleared] == b.buffers[i := cleared] + lost;
  }

  /** The buffers that resizing cuts off. */
  function CutOff(buffers: seq<V4L2Buffer>, count: nat): seq<V4L2Buffer> {
    if count <= |buffers| then buffers[count..] else []
  }

  lemma ResizedOwned(live: map<Address, nat>, before: map<Address, nat>, buffers: seq<V4L2Buffer>, count: nat)
    requires Owned(live, before, buffers)
    ensures Owned(live, before, Resized(buffers, count) + CutOff(buffers, count))
  {
    if count <= |buffers| {
      assert buffers[..count] + buffers[count..] == buffers;
    } else {
      var fresh_ := seq(count - |buffers|, _ => NEW_BUFFER);
      OwnedAndEmpty(live, before, buffers, fresh_);
      assert buffers + fresh_ + [] == buffers + fresh_;
    }
  }

  /** What the group held and nobody will release: cut off by resizing, or overwritten by a turn of MMap. */
  function Leaked(buffers: seq<V4L2Buffer>, count: nat, n: nat, answers: seq<Answer>, kind: Type, hasDmafd: bool)
    : seq<V4L2Buffer>
    requires n <= count && n <= |answers|
  {
    CutOff(buffers, count) + Overwritten(Resized(buffers, count), n, answers, kind, hasDmafd)
  }

  /**
  Resizing and mapping a group that may hold mappings, however far MMap gets, and unmapping it: exactly
  what was cut off or overwritten is still mapped. So the kernel is left as it was before the group's
  first mapping exactly if none of that held one.
  */
  lemma RemapLeaks(b: Books, before: map<Address, nat>, count: nat, n: nat, answers: seq<Answer>, kind: Type,
                   hasDmafd: bool)
    requires n <= count == |answers| && Honest(answers, b.live) && Owned(b.live, before, b.buffers)
    ensures var start := b.(buffers := Resized(b.buffers, count));
            var after := AllUnmapped(MapTurns(start, n, answers, kind, hasDmafd));
            var leaked := Leaked(b.buffers, count, n, answers, kind, hasDmafd);
            Owned(after.live, before, leaked) && (after.live == before <==> NoneMapped(leaked))
  {
    var start := b.(buffers := Resized(b.buffers, count));
    var mapped := MapTurns(start, n, answers, kind, hasDmafd);
    var leaked := Leaked(b.buffers, count, n, answers, kind, hasDmafd);
    ResizedOwned(b.live, before, b.buffers, count);
    TurnsOwned(start, before, CutOff(b.buffers, count), n, answers, kind, hasDmafd);
    UnmapOwned(mapped, before, leaked, |mapped.buffers|);
    ClearsTo(mapped);
    OwnedButEmpty(AllUnmapped(mapped).live, before, Unmapped(mapped.buffers), leaked);
    OwnedByNobody(AllUnmapped(mapped).live, before, leaked);
  }

  /** A second UnMap releases nothing, but closes every exported descriptor again. */
  lemma SecondUnmap(b: Books)
    ensures var once := AllUnmapped(b);
            AllUnmapped(once) == once.(closed := once.closed + Descriptors(b.buffers))
  {
    var once := AllUnmapped(b);
    ClearsTo(b);
    ClearsTo(once);
    UnmappedHoldsNothing(b.buffers);
    assert Unmapped(Unmapped(b.buffers)) == Unmapped(b.buffers);
    NothingToFree(once, |once.buffers|);
  }

  lemma ClearsTo(b: Books)
    ensures AllUnmapped(b).buffers == Unmapped(b.buffers)
    ensures AllUnmapped(b).closed == b.closed + Descriptors(b.buffers) && AllUnmapped(b).made == b.made
  {
    UnmapTurnsClear(b, |b.buffers|);
    assert b.buffers[..|b.buffers|] == b.buffers;
  }

  lemma {:induction false} NothingToFree(b: Books, n: nat)
    requires n <= |b.buffers| && Fresh(b.buffers)
    ensures UnmapTurns(b, n).live == b.live && UnmapTurns(b, n).released == b.released
    ensures Fresh(UnmapTurns(b, n).buffers)
  {
    if n == 0 {
    } else {
      NothingToFree(b, n - 1);
    }
  }

  /** vector::resize. */
  function Resized(buffers: seq<V4L2Buffer>, count: nat): (r: seq<V4L2Buffer>)
    ensures |r| == count
  {
    if count <= |buffers| then buffers[..count] else buffers + seq(count - |buffers|, _ => NEW_BUFFER)
  }

  // ----- the methods -----

  class V4L2BufferGroup {
    var kind: Type
    var memory: Memory
    var hasDmafd: bool
    var buffers: seq<V4L2Buffer>

    /** MMap never leaves MAP_FAILED behind. */
    predicate Valid() reads this { forall buffer :: buffer in buffers ==> !buffer.start.MapFailed? }

    /** InitBuffer. */
    constructor (kind: Type, memory: Memory, hasDmafd: bool)
      ensures Valid() && buffers == [] && this.kind == kind && this.memory == memory && this.hasDmafd == hasDmafd
    {
      this.kind, this.memory, this.hasDmafd, buffers := kind, memory, hasDmafd, [];
    }

    function Now(kernel: Kernel): Books reads this, kernel {
      Books(buffers, kernel.live, kernel.made, kernel.released, kernel.closed)
    }

    /** One turn of MMap's loop. */
    method MapBuffer(kernel: Kernel, i: nat, answer: Answer) returns (ok: bool)
      requires i < |buffers| && !buffers[i].start.MapFailed?
      requires answer.mapped.Some? ==> answer.mapped.value !in kernel.live
      modifies kernel, `buffers
      ensures ok == Passes(answer, kind, hasDmafd)
      ensures Now(kernel) == MapTurn(old(Now(kernel)), i, answer, kind, hasDmafd)
    {
      if !answer.queried {
        return false;
      }
      if hasDmafd {
        if answer.exported.None? {
          return false;
        }
        buffers := buffers[i := buffers[i].(dmafd := answer.exported.value)];
      }
      if !kind.OtherType? {
        var start := if answer.mapped.Some? then Pointer.At(answer.mapped.value) else MapFailed;
        buffers := buffers[i := buffers[i].(length := answer.length, start := start)];
        if start.At? {
          kernel.Mmap(start.address, answer.length);
        }
      }
      if buffers[i].start.MapFailed? {
        kernel.Munmap(buffers[i].start, buffers[i].length);
        buffers := buffers[i := buffers[i].(start := Null)];
        return false;
      }
      return true;
    }

    /** MMap stops after the first turn that does not pass. */
    method MMap(kernel: Kernel, answers: seq<Answer>) returns (ok: bool, ghost turns: nat)
      requires Valid() && |answers| == |buffers| && Honest(answers, kernel.live)
      modifies kernel, `buffers
      ensures Valid()
      ensures turns <= |answers| && Now(kernel) == MapTurns(old(Now(kernel)), turns, answers, kind, hasDmafd)
      ensures forall i :: 0 <= i < turns - 1 ==> Passes(answers[i], kind, hasDmafd)
      ensures if ok then turns == |answers| && (turns > 0 ==> Passes(answers[turns - 1], kind, hasDmafd))
              else turns > 0 && !Passes(answers[turns - 1], kind, hasDmafd)
    {
      var i := 0;
      while i < |buffers|
        invariant 0 <= i <= |answers| == |buffers|
        invariant Now(kernel) == MapTurns(old(Now(kernel)), i, answers, kind, hasDmafd)
        invariant forall j :: 0 <= j < i ==> Passes(answers[j], kind, hasDmafd)
        invariant Valid()
      {
        BeforeTurn(old(Now(kernel)), i, answers, kind, hasDmafd);
        ok := MapBuffer(kernel, i, answers[i]);
        i := i + 1;
        if !ok {
          return false, i;
        }
      }
      return true, i;
    }

    /** One turn of UnMap's loop. */
    method UnmapBuffer(kernel: Kernel, i: nat)
      requires i < |buffers|
      modifies kernel, `buffers
      ensures Now(kernel) == UnmapTurn(old(Now(kernel)), i)
    {
      if buffers[i].dmafd != 0 {
        kernel.Close(buffers[i].dmafd);
      }
      if !buffers[i].start.Null? {
        kernel.Munmap(buffers[i].start, buffers[i].length);
        buffers := buffers[i := buffers[i].(start := Null)];
      }
      assert old(buffers)[i := old(buffers)[i]] == old(buffers);
    }

    method UnMap(kernel: Kernel)
      modifies kernel, `buffers
      ensures Now(kernel) == AllUnmapped(old(Now(kernel)))
    {
      var i := 0;
      while i < |buffers|
        invariant 0 <= i <= |buffers| == |old(buffers)|
        invariant Now(kernel) == UnmapTurns(old(Now(kernel)), i)
      {
        UnmapBuffer(kernel, i);
        i := i + 1;
      }
    }

    /** AllocateBuffer; buffers the group already has keep what they hold until MMap overwrites it. */
    method AllocateBuffer(kernel: Kernel, count: nat, granted: bool, answers: seq<Answer>)
      returns (ok: bool, ghost turns: nat)
      requires Valid() && |answers| == count && Honest(answers, kernel.live)
      modifies kernel, `buffers
      ensures var start := old(Now(kernel)).(buffers := Resized(old(buffers), count));
              turns <= count && Now(kernel) == MapTurns(start, turns, answers, kind, hasDmafd)
      ensures ok <==> granted && (memory.MemoryMmap? ==>
                                    forall i :: 0 <= i < count ==> Passes(answers[i], kind, hasDmafd))
      ensures Valid() && (!granted || !memory.MemoryMmap? ==> turns == 0)
    {
      buffers := Resized(buffers, count);
      if !granted {
        return false, 0;
      }
      if memory.MemoryMmap? {
        ok, turns := MMap(kernel, answers);
        return;
      }
      return true, 0;
    }

    /** DeallocateBuffer: the mappings go first, whatever the driver then answers. */
    method DeallocateBuffer(kernel: Kernel, granted: bool) returns (ok: bool)
      modifies kernel, `buffers, `hasDmafd
      ensures Now(kernel) == if memory.MemoryMmap? then AllUnmapped(old(Now(kernel))) else old(Now(kernel))
      ensures ok == granted && hasDmafd == (old(hasDmafd) && !granted)
    {
      if memory.MemoryMmap? {
        UnMap(kernel);
      }
      if !granted {
        return false;
      }
      hasDmafd := false;
      return true;
    }
  }
}
