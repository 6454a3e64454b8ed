/**
Subject's fan-out as a machine over whole runs. An observer is a slot of the subject's vector: live
while somebody holds the Observable, with the function subscribed to it, if any.
*/
module SubjectRuns {
  import opened Basics

  type Func = nat

  datatype Slot = Slot(id: nat, live: bool, func: Option<Func>)
  datatype Delivery<+T> = Delivery(id: nat, func: Func, message: T)

  datatype Op<+T> =
    | AsObservable
    | Subscribe(id: nat, func: Func)
    | UnSubscribe(id: nat)
    | Drop(id: nat)            // the last pointer to an Observable goes
    | Next(message: T)
    | UnSubscribeAll           // Subject::UnSubscribe
    | RemoveNullObservers

  /** Observers are numbered as they register; log holds every call of a subscribed function. */
  datatype State<+T> = State(registered: nat, slots: seq<Slot>, log: seq<Delivery<T>>)

  /** The live slots, in order. */
  function Kept(slots: seq<Slot>): seq<Slot> {
    if slots == [] then []
    else var rest, last := Kept(slots[..|slots| - 1]), slots[|slots| - 1];
         if last.live then rest + [last] else rest
  }

  /** One call for each live slot with a function, in order. */
  function Delivered<T>(slots: seq<Slot>, message: T): seq<Delivery<T>> {
    if slots == [] then []
    else var rest, last := Delivered(slots[..|slots| - 1], message), slots[|slots| - 1];
         if last.live && last.func.Some? then rest + [Delivery(last.id, last.func.value, message)] else rest
  }

  /** What an operation on one Observable does to a slot. */
  function Touched<T>(slot: Slot, op: Op<T>): Slot {
    match op
    case Subscribe(id, func) => if slot.id == id then slot.(func := Some(func)) else slot
    case UnSubscribe(id) => if slot.id == id then slot.(func := None) else slot
    case Drop(id) => if slot.id == id then slot.(live := false) else slot
    case _ => slot
  }

  function AllTouched<T>(slots: seq<Slot>, op: Op<T>): seq<Slot> {
    seq(|slots|, i requires 0 <= i < |slots| => Touched(slots[i], op))
  }

  function Apply<T>(s: State<T>, op: Op<T>): State<T> {
    match op
    case AsObservable => s.(registered := s.registered + 1, slots := s.slots + [Slot(s.registered, true, None)])
    case Next(message) => s.(slots := Kept(s.slots), log := s.log + Delivered(s.slots, message))
    case UnSubscribeAll => s.(slots := [])
    case RemoveNullObservers => s.(slots := Kept(s.slots))
    case _ => s.(slots := AllTouched(s.slots, op))
  }

  function Run<T>(ops: seq<Op<T>>): State<T> {
    if ops == [] then State(0, [], []) else Apply(Run(ops[..|ops| - 1]), ops[|ops| - 1])
  }

  // ----- what one observer should see, without a vector -----

  /** How many observers have registered. */
  function Registrations<T>(ops: seq<Op<T>>): nat {
    if ops == [] then 0
    else Registrations(ops[..|ops| - 1]) + if ops[|ops| - 1].AsObservable? then 1 else 0
  }

  /** Registered, not cleared since, and held by somebody. */
  predicate Attached<T>(ops: seq<Op<T>>, id: nat) {
    ops != [] &&
    var before, last := ops[..|ops| - 1], ops[|ops| - 1];
    if last.AsObservable? && Registrations(before) == id then true
    else Attached(before, id) && !last.UnSubscribeAll? && last != Drop(id)
  }

  /** The function it last subscribed, if any. */
  function Subscribed<T>(ops: seq<Op<T>>, id: nat): Option<Func> {
    if ops == [] then None else
    var before, last := ops[..|ops| - 1], ops[|ops| - 1];
    if last.AsObservable? && Registrations(before) == id then None
    else if last.Subscribe? && last.id == id then Some(last.func)
    else if last.UnSubscribe? && last.id == id then None
    else Subscribed(before, id)
  }

  /** Every message published while it was attached and had a function, in order. */
  function Expected<T>(ops: seq<Op<T>>, id: nat): seq<Delivery<T>> {
    if ops == [] then [] else
    var before, last := ops[..|ops| - 1], ops[|ops| - 1];
    if last.Next? && Attached(before, id) && Subscribed(before, id).Some?
    then Expected(before, id) + [Delivery(id, Subscribed(before, id).value, last.message)]
    else Expected(before, id)
  }

  /** One observer's part of the log. */
  function LogOf<T>(log: seq<Delivery<T>>, id: nat): seq<Delivery<T>> {
    if log == [] then []
    else var rest, last := LogOf(log[..|log| - 1], id), log[|log| - 1];
         if last.id == id then rest + [last] else rest
  }

  // ----- slots -----

  /** In registration order, without repetition. */
  predicate Ordered(slots: seq<Slot>, registered: nat) {
    && (forall i :: 0 <= i < |slots| ==> slots[i].id < registered)
    && (forall i, j :: 0 <= i < j < |slots| ==> slots[i].id < slots[j].id)
  }

  /** What a live observer has subscribed; None if no live slot has that id. */
  function Live(slots: seq<Slot>, id: nat): Option<Option<Func>> {
    if slots == [] then None
    else var last := slots[|slots| - 1];
         if last.id == id && last.live then Some(last.func) else Live(slots[..|slots| - 1], id)
  }

  lemma {:induction false} NoSlot(slots: seq<Slot>, id: nat)
    requires forall slot :: slot in slots ==> slot.id != id
    ensures Live(slots, id).None?
  {
    if slots == [] {
    } else {
      NoSlot(slots[..|slots| - 1], id);
    }
  }

  lemma {:induction false} KeptWithin(slots: seq<Slot>, bound: nat)
    requires Ordered(slots, bound)
    ensures Ordered(Kept(slots), bound)
  {
    if slots == [] {
    } else {
      var last := slots[|slots| - 1];
      KeptWithin(slots[..|slots| - 1], last.id);
    }
  }

  lemma {:induction false} LiveKept(slots: seq<Slot>, id: nat)
    ensures Live(Kept(slots), id) == Live(slots, id)
  {
    if slots == [] {
    } else {
      var rest, last := slots[..|slots| - 1], slots[|slots| - 1];
      LiveKept(rest, id);
      if last.live { assert (Kept(rest) + [last])[..|Kept(rest)|] == Kept(rest); }
    }
  }

  lemma {:induction false} LiveTouched<T>(slots: seq<Slot>, op: Op<T>, id: nat)
    requires forall i, j :: 0 <= i < j < |slots| ==> slots[i].id != slots[j].id
    ensures Live(AllTouched(slots, op), id) ==
            match op
            case Subscribe(who, func) =>
              if who == id && Live(slots, id).Some? then Some(Some(func)) else Live(slots, id)
            case UnSubscribe(who) => if who == id && Live(slots, id).Some? then Some(None) else Live(slots, id)
            case Drop(who) => if who == id then None else Live(slots, id)
            case _ => Live(slots, id)
  {
    if slots == [] {
    } else {
      var rest, last := slots[..|slots| - 1], slots[|slots| - 1];
      LiveTouched(rest, op, id);
      assert AllTouched(slots, op)[..|slots| - 1] == AllTouched(rest, op);
      if last.id == id { NoSlot(rest, id); }
    }
  }

  lemma {:induction false} LogJoins<T>(a: seq<Delivery<T>>, b: seq<Delivery<T>>, id: nat)
    ensures LogOf(a + b, id) == LogOf(a, id) + LogOf(b, id)
  {
    if b == [] {
      assert a + b == a;
    } else {
      assert (a + b)[..|a + b| - 1] == a + b[..|b| - 1];
      LogJoins(a, b[..|b| - 1], id);
    }
  }

  /** A publication reaches an observer once, if it is live and has a function. */
  lemma {:induction false} DeliveredTo<T>(slots: seq<Slot>, message: T, id: nat)
    requires forall i, j :: 0 <= i < j < |slots| ==> slots[i].id != slots[j].id
    ensures LogOf(Delivered(slots, message), id) ==
            if Live(slots, id).Some? && Live(slots, id).value.Some?
            then [Delivery(id, Live(slots, id).value.value, message)] else []
  {
    if slots == [] {
    } else {
      var rest, last := slots[..|slots| - 1], slots[|slots| - 1];
      DeliveredTo(rest, message, id);
      if last.live && last.func.Some? {
        LogJoins(Delivered(rest, message), [Delivery(last.id, last.func.value, message)], id);
      }
      if last.id == id { NoSlot(rest, id); }
    }
  }

  // ----- whole runs -----

  /** The vector and the log, as one observer knows them. */
  ghost predicate Agrees<T>(ops: seq<Op<T>>, id: nat) {
    var s := Run(ops);
    && (Live(s.slots, id).Some? <==> Attached(ops, id))
    && (Live(s.slots, id).Some? ==> Live(s.slots, id).value == Subscribed(ops, id))
    && LogOf(s.log, id) == Expected(ops, id)
  }

  lemma {:induction false} RegistrationOrder<T>(ops: seq<Op<T>>)
    ensures Run(ops).registered == Registrations(ops) && Ordered(Run(ops).slots, Run(ops).registered)
  {
    if ops == [] {
    } else {
      RegistrationOrder(ops[..|ops| - 1]);
      OrderedStep(Run(ops[..|ops| - 1]), ops[|ops| - 1]);
    }
  }

  lemma OrderedStep<T>(s: State<T>, op: Op<T>)
    requires Ordered(s.slots, s.registered)
    ensures Ordered(Apply(s, op).slots, Apply(s, op).registered)
    ensures Apply(s, op).registered == s.registered + if op.AsObservable? then 1 else 0
  {
    KeptWithin(s.slots, s.registered);
  }

  /** Each observer's log is exactly what was published while it was registered, held and subscribed, in order. */
  lemma {:induction false} LogIsExpected<T>(ops: seq<Op<T>>, id: nat)
    ensures Agrees(ops, id)
  {
    if ops == [] {
    } else {
      var before := ops[..|ops| - 1];
      LogIsExpected(before, id);
      RegistrationOrder(before);
      AgreesStep(before, ops[|ops| - 1], id, ops);
    }
  }

  lemma AgreesStep<T>(before: seq<Op<T>>, op: Op<T>, id: nat, ops: seq<Op<T>>)
    requires Agrees(before, id) && ops == before + [op]
    requires Run(before).registered == Registrations(before) && Ordered(Run(before).slots, Run(before).registered)
    ensures Agrees(ops, id)
  {
    var s := Run(before);
    assert ops[..|ops| - 1] == before;
    match op
    case AsObservable =>
      assert (s.slots + [Slot(s.registered, true, None)])[..|s.slots|] == s.slots;
    case Next(message) =>
      LiveKept(s.slots, id);
      DeliveredTo(s.slots, message, id);
      LogJoins(s.log, Delivered(s.slots, message), id);
    case UnSubscribeAll =>
    case RemoveNullObservers => LiveKept(s.slots, id);
    case Subscribe(_, _) => LiveTouched(s.slots, op, id);
    case UnSubscribe(_) => LiveTouched(s.slots, op, id);
    case Drop(_) => LiveTouched(s.slots, op, id);
  }

  predicate Rising<T>(calls: seq<Delivery<T>>) {
    forall i, j :: 0 <= i < j < |calls| ==> calls[i].id < calls[j].id
  }

  lemma {:induction false} KeptIs(slots: seq<Slot>, slot: Slot)
    ensures slot in Kept(slots) <==> slot in slots && slot.live
  {
    if slots == [] {
    } else {
      assert slots == slots[..|slots| - 1] + [slots[|slots| - 1]];
      KeptIs(slots[..|slots| - 1], slot);
    }
  }

  lemma {:induction false} DeliveredRising<T>(slots: seq<Slot>, message: T, bound: nat)
    requires Ordered(slots, bound)
    ensures Rising(Delivered(slots, message))
    ensures forall call :: call in Delivered(slots, message) ==> call.id < bound
  {
    if slots == [] {
    } else {
      var rest, last := slots[..|slots| - 1], slots[|slots| - 1];
      DeliveredRising(rest, message, last.id);
      var calls := Delivered(rest, message);
      assert forall i :: 0 <= i < |calls| ==> calls[i] in calls;
    }
  }

  /** A publication calls observers in registration order, each at most once, and leaves exactly the live ones. */
  lemma PublishedInOrder<T>(ops: seq<Op<T>>, message: T)
    ensures var s, t := Run(ops), Apply(Run(ops), Next(message));
            && |s.log| <= |t.log| && t.log[..|s.log|] == s.log && Rising(t.log[|s.log|..])
            && (forall slot :: slot in t.slots <==> slot in s.slots && slot.live)
            && Ordered(t.slots, t.registered)
  {
    RegistrationOrder(ops);
    var s := Run(ops);
    KeptWithin(s.slots, s.registered);
    DeliveredRising(s.slots, message, s.registered);
    assert (s.log + Delivered(s.slots, message))[|s.log|..] == Delivered(s.slots, message);
    forall slot ensures slot in Kept(s.slots) <==> slot in s.slots && slot.live { KeptIs(s.slots, slot); }
  }

  // ----- RemoveNullObservers cannot be seen -----

  /** Equal but for dead slots. */
  predicate Alike<T(==)>(s: State<T>, t: State<T>) {
    s.registered == t.registered && s.log == t.log && Kept(s.slots) == Kept(t.slots)
  }

  lemma {:induction false} KeptTwice(slots: seq<Slot>)
    ensures Kept(Kept(slots)) == Kept(slots)
  {
    if slots == [] {
    } else {
      var rest, last := slots[..|slots| - 1], slots[|slots| - 1];
      KeptTwice(rest);
      if last.live { KeptThenOne(Kept(rest), last); }
    }
  }

  lemma KeptThenOne(slots: seq<Slot>, last: Slot)
    ensures Kept(slots + [last]) == if last.live then Kept(slots) + [last] else Kept(slots)
  {
    assert (slots + [last])[..|slots|] == slots;
  }

  lemma {:induction false} KeptTouched<T>(slots: seq<Slot>, op: Op<T>)
    ensures Kept(AllTouched(slots, op)) == Kept(AllTouched(Kept(slots), op))
  {
    if slots == [] {
    } else {
      var rest, last := slots[..|slots| - 1], slots[|slots| - 1];
      KeptTouched(rest, op);
      assert AllTouched(slots, op) == AllTouched(rest, op) + [Touched(last, op)];
      KeptThenOne(AllTouched(rest, op), Touched(last, op));
      if last.live {
        assert AllTouched(Kept(slots), op) == AllTouched(Kept(rest), op) + [Touched(last, op)];
        KeptThenOne(AllTouched(Kept(rest), op), Touched(last, op));
      } else {
        assert Kept(slots) == Kept(rest);
      }
    }
  }

  lemma {:induction false} DeliveredKept<T>(slots: seq<Slot>, message: T)
    ensures Delivered(Kept(slots), message) == Delivered(slots, message)
  {
    if slots == [] {
    } else {
      var rest, last := slots[..|slots| - 1], slots[|slots| - 1];
      DeliveredKept(rest, message);
      if last.live { assert (Kept(rest) + [last])[..|Kept(rest)|] == Kept(rest); }
    }
  }

  lemma AlikeStep<T>(s: State<T>, t: State<T>, op: Op<T>)
    requires Alike(s, t)
    ensures Alike(Apply(s, op), Apply(t, op))
  {
    KeptTwice(s.slots);
    KeptTwice(t.slots);
    match op
    case AsObservable =>
      KeptThenOne(s.slots, Slot(s.registered, true, None));
      KeptThenOne(t.slots, Slot(s.registered, true, None));
    case Next(message) =>
      DeliveredKept(s.slots, message);
      DeliveredKept(t.slots, message);
    case UnSubscribeAll =>
    case RemoveNullObservers =>
    case Subscribe(_, _) => KeptTouched(s.slots, op); KeptTouched(t.slots, op);
    case UnSubscribe(_) => KeptTouched(s.slots, op); KeptTouched(t.slots, op);
    case Drop(_) => KeptTouched(s.slots, op); KeptTouched(t.slots, op);
  }

  /** Wherever RemoveNullObservers is put into a run, no call is added, lost, changed or reordered. */
  lemma {:induction false} RemoveNullUnseen<T>(before: seq<Op<T>>, after: seq<Op<T>>)
    ensures Alike(Run(before + [RemoveNullObservers] + after), Run(before + after))
    ensures Run(before + [RemoveNullObservers] + after).log == Run(before + after).log
  {
    var with, without := before + [RemoveNullObservers] + after, before + after;
    if after == [] {
      assert with[..|with| - 1] == before && without == before;
      KeptTwice(Run(before).slots);
    } else {
      var rest := after[..|after| - 1];
      RemoveNullUnseen(before, rest);
      assert with[..|with| - 1] == before + [RemoveNullObservers] + rest;
      assert without[..|without| - 1] == before + rest;
      AlikeStep(Run(before + [RemoveNullObservers] + rest), Run(before + rest), after[|after| - 1]);
    }
  }
}

/** The classes Observable and Subject. */
module Subjects {
  import opened Basics
  import opened SubjectRuns

  /** live stands for what weak_ptr::lock finds: whether anybody still holds the object. */
  class Observable {
    const id: nat
    var live: bool
    var subscribedFunc: Option<Func>

    constructor (id: nat)
      ensures this.id == id && live && subscribedFunc.None?
    {
      this.id, live, subscribedFunc := id, true, None;
    }

    function AsSlot(): Slot reads this { Slot(id, live, subscribedFunc) }

    method Subscribe(func: Func)
      modifies `subscribedFunc
      ensures AsSlot() == Touched(old(AsSlot()), Op<nat>.Subscribe(id, func))
    {
      subscribedFunc := Some(func);
    }

    method UnSubscribe()
      modifies `subscribedFunc
      ensures AsSlot() == Touched(old(AsSlot()), Op<nat>.UnSubscribe(id))
    {
      subscribedFunc := None;
    }
  }

  function Slots(observers: seq<Observable>): (slots: seq<Slot>)
    reads observers
    ensures |slots| == |observers|
  {
    if observers == [] then []
    else Slots(observers[..|observers| - 1]) + [observers[|observers| - 1].AsSlot()]
  }

  lemma {:induction false} SlotsAt(observers: seq<Observable>, i: nat)
    requires i < |observers|
    ensures Slots(observers)[i] == observers[i].AsSlot()
  {
    if i < |observers| - 1 { SlotsAt(observers[..|observers| - 1], i); }
  }

  lemma SlotsTake(observers: seq<Observable>, i: nat)
    requires i < |observers|
    ensures Slots(observers[..i + 1]) == Slots(observers[..i]) + [observers[i].AsSlot()]
  {
    assert observers[..i + 1][..i] == observers[..i];
  }

  function KeptThen(kept: seq<Slot>, slot: Slot): seq<Slot> { if slot.live then kept + [slot] else kept }

  function DeliveredThen<T>(log: seq<Delivery<T>>, slot: Slot, message: T): seq<Delivery<T>> {
    if slot.live && slot.func.Some? then log + [Delivery(slot.id, slot.func.value, message)] else log
  }

  lemma OneMore<T>(slots: seq<Slot>, n: nat, log: seq<Delivery<T>>, message: T)
    requires n < |slots|
    ensures Kept(slots[..n + 1]) == KeptThen(Kept(slots[..n]), slots[n])
    ensures log + Delivered(slots[..n + 1], message) ==
            DeliveredThen(log + Delivered(slots[..n], message), slots[n], message)
  {
    assert slots[..n + 1][..n] == slots[..n];
  }

  lemma Erased<O>(observers: seq<O>, i: nat)
    requires i < |observers|
    ensures var shorter := observers[..i] + observers[i + 1..];
            shorter[..i] == observers[..i] && shorter[i..] == observers[i + 1..] == observers[i..][1..]
  {
  }

  class Subject<T> {
    var observers: seq<Observable>
    var registered: nat
    /** Every call made of a subscribed function. */
    var log: seq<Delivery<T>>

    function Now(): State<T> reads this, observers { State(registered, Slots(observers), log) }

    constructor ()
      ensures Now() == Run<T>([])
    {
      observers, registered, log := [], 0, [];
    }

    method AsObservable() returns (observer: Observable)
      modifies this
      ensures fresh(observer) && observers == old(observers) + [observer]
      ensures Now() == Apply(old(Now()), Op.AsObservable)
    {
      observer := new Observable(registered);
      assert (observers + [observer])[..|observers|] == observers;
      observers, registered := observers + [observer], registered + 1;
    }

    /** One turn of the loop: deliver and move on, or erase and stay. */
    method Visit(i: nat, message: T) returns (next: nat)
      requires i < |observers|
      modifies this
      ensures registered == old(registered) && next <= |observers|
      ensures observers[next..] == old(observers)[i + 1..]
      ensures Slots(observers[..next]) == KeptThen(old(Slots(observers[..i])), old(observers[i].AsSlot()))
      ensures log == DeliveredThen(old(log), old(observers[i].AsSlot()), message)
    {
      if observers[i].live {
        SlotsTake(observers, i);
        if observers[i].subscribedFunc.Some? {
          log := log + [Delivery(observers[i].id, observers[i].subscribedFunc.value, message)];
        }
        next := i + 1;
      } else {
        Erased(observers, i);
        observers := observers[..i] + observers[i + 1..];
        next := i;
      }
    }

    /** The vector is erased from while it is iterated. */
    method Next(message: T)
      modifies this
      ensures Now() == Apply(old(Now()), Op.Next(message))
    {
      ghost var before, slots, n := observers, Slots(observers), 0;
      var i := 0;
      while i < |observers|
        invariant 0 <= i <= |observers| && 0 <= n <= |before| && observers[i..] == before[n..]
        invariant |slots| == |before| && Slots(before) == slots
        invariant Slots(observers[..i]) == Kept(slots[..n])
        invariant log == old(log) + Delivered(slots[..n], message)
        invariant registered == old(registered)
        decreases |before| - n
      {
        assert observers[i] == before[n] && observers[i + 1..] == before[n + 1..];
        SlotsAt(before, n);
        OneMore(slots, n, old(log), message);
        i := Visit(i, message);
        n := n + 1;
      }
      assert slots[..n] == slots && observers[..i] == observers;
    }

    /** Subject::UnSubscribe forgets everybody. */
    method UnSubscribe()
      modifies `observers
      ensures Now() == Apply(old(Now()), Op.UnSubscribeAll)
    {
      observers := [];
    }

    /** remove_if moves the live ones to the front, then the rest is erased. */
    method RemoveNullObservers()
      modifies `observers
      ensures Now() == Apply(old(Now()), Op.RemoveNullObservers)
    {
      var before := observers;
      var kept: seq<Observable> := [];
      for n := 0 to |before|
        invariant Slots(kept) == Kept(Slots(before[..n]))
      {
        assert before[..n + 1][..n] == before[..n];
        if before[n].live {
          assert (kept + [before[n]])[..|kept|] == kept;
          kept := kept + [before[n]];
        }
      }
      assert before[..|before|] == before;
      observers := kept;
    }
  }

  predicate Concerns<T>(op: Op<T>, id: nat) {
    (op.Subscribe? || op.UnSubscribe? || op.Drop?) && op.id == id
  }

  /** What a holder does to an Observable reaches the subject as that operation on its slot. */
  lemma TouchReachesSubject<T>(observers: seq<Observable>, was: seq<Slot>, observer: Observable, op: Op<T>)
    requires Concerns(op, observer.id) && |was| == |observers|
    requires forall i :: 0 <= i < |was| ==>
               if observers[i] == observer then was[i].id == observer.id && observer.AsSlot() == Touched(was[i], op)
               else was[i].id != observer.id && observers[i].AsSlot() == was[i]
    ensures Slots(observers) == AllTouched(was, op)
  {
    forall i | 0 <= i < |was| ensures Slots(observers)[i] == AllTouched(was, op)[i] {
      SlotsAt(observers, i);
    }
  }
}
