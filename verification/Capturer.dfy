/**
V4L2Capturer: who owns which buffer. The capture thread and the driver share N buffers; the driver
may write any buffer it owns at any time. One step is one system call, or the publication of a frame.
*/
module CaptureRuns {
  import opened Basics

  type Index = nat

  datatype ThreadPc =
    | AtLoop                    // about to read capture_stop_
    | AtSelect | AtDequeue
    | AtPublish(index: Index) | AtRequeue(index: Index)
    | Done

  /** What the destructor has got to. */
  datatype OwnerPc = Running | Joining | AtStreamOff | AtUnmap | AtClose | Closed

  datatype Capture = Capture(
    count: nat,
    driver: set<Index>,
    app: set<Index>,
    failures: nat,              // requeues that failed
    contents: map<Index, nat>,  // what is in each buffer
    taken: nat,                 // what was in the buffer when it was dequeued
    published: seq<(Index, nat)>,
    thread: ThreadPc,
    owner: OwnerPc,
    streamOff: bool,            // the driver has been told to stop, and did
    stop: bool,
    mapped: bool)

  datatype Step =
    | Loop
    | Select(ready: bool)
    | Dequeue(got: Option<Index>)    // the buffer the driver hands over, if any
    | Publish
    | Requeue(ok: bool)
    | DriverWrites(index: Index, value: nat)
    | Destroy                        // the destructor starts
    | Join
    | StreamOff(ok: bool)
    | UnMap
    | CloseDevice

  function Indices(count: nat): set<Index> {
    if count == 0 then {} else Indices(count - 1) + {count - 1}
  }

  /** As StartCapture leaves it: every buffer queued, the thread at its loop. */
  function Started(count: nat): Capture {
    Capture(count, Indices(count), {}, 0, map i | i in Indices(count) :: 0, 0, [], AtLoop, Running,
            false, false, true)
  }

  /** A step that is not enabled changes nothing. */
  function Next(c: Capture, step: Step): Capture {
    match step
    case Loop => if c.thread.AtLoop? then c.(thread := if c.stop then Done else AtSelect) else c
    case Select(ready) => if c.thread.AtSelect? then c.(thread := if ready then AtDequeue else AtLoop) else c
    case Dequeue(index) => if c.thread.AtDequeue? then AfterDequeue(c, index) else c
    case Publish => if c.thread.AtPublish? then AfterPublish(c, c.thread.index) else c
    case Requeue(ok) => if c.thread.AtRequeue? then AfterRequeue(c, c.thread.index, ok) else c
    case DriverWrites(index, value) =>
      if index in c.driver then c.(contents := c.contents[index := value]) else c
    case Destroy => if c.owner.Running? then c.(stop := true, owner := Joining) else c
    case Join => if c.owner.Joining? && c.thread.Done? then c.(owner := AtStreamOff) else c
    case StreamOff(ok) =>
      if c.owner.AtStreamOff?
      then c.(owner := AtUnmap, streamOff := ok, driver := if ok then {} else c.driver,
              app := if ok then c.app + c.driver else c.app)
      else c
    case UnMap => if c.owner.AtUnmap? then c.(owner := AtClose, mapped := false) else c
    case CloseDevice => if c.owner.AtClose? then c.(owner := Closed) else c
  }

  function AfterDequeue(c: Capture, index: Option<Index>): Capture {
    if index.Some? && index.value in c.driver && index.value in c.contents
    then c.(driver := c.driver - {index.value}, app := c.app + {index.value},
            taken := c.contents[index.value], thread := AtPublish(index.value))
    else c.(thread := AtLoop)
  }

  function AfterPublish(c: Capture, index: Index): Capture {
    c.(published := c.published + [(index, if index in c.contents then c.contents[index] else 0)],
       thread := AtRequeue(index))
  }

  function AfterRequeue(c: Capture, index: Index, ok: bool): Capture {
    if ok then c.(driver := c.driver + {index}, app := c.app - {index}, thread := AtLoop)
    else c.(failures := c.failures + 1, thread := AtLoop)
  }

  function Run(count: nat, schedule: seq<Step>): Capture {
    if schedule == [] then Started(count)
    else Next(Run(count, schedule[..|schedule| - 1]), schedule[|schedule| - 1])
  }

  // ----- conservation -----

  predicate Holding(c: Capture) { c.thread.AtPublish? || c.thread.AtRequeue? }

  predicate Owned(c: Capture) {
    && c.driver + c.app == Indices(c.count) && c.driver !! c.app
    && c.contents.Keys == Indices(c.count)
    && (Holding(c) ==> c.thread.index in c.app)
    && (if c.streamOff then c.driver == {}
        else |c.driver| + c.failures + (if Holding(c) then 1 else 0) == c.count)
    && (c.thread.AtPublish? ==> c.contents[c.thread.index] == c.taken)
  }

  /** The destructor waits for the thread. */
  predicate Orderly(c: Capture) {
    && (!c.owner.Running? ==> c.stop)
    && (c.owner.Running? || c.owner.Joining? || c.thread.Done?)
    && (c.mapped <==> !c.owner.AtClose? && !c.owner.Closed?)
    && (c.streamOff ==> c.owner.AtUnmap? || c.owner.AtClose? || c.owner.Closed?)
  }

  predicate Conserved(c: Capture) { Owned(c) && Orderly(c) }

  lemma {:induction false} CountIndices(count: nat)
    ensures |Indices(count)| == count
    ensures forall i: nat :: i in Indices(count) <==> i < count
  {
    if count == 0 {
    } else {
      CountIndices(count - 1);
    }
  }

  lemma StartedConserved(count: nat)
    ensures Conserved(Started(count))
  {
    CountIndices(count);
  }

  lemma OrderlyStep(c: Capture, step: Step)
    requires Orderly(c)
    ensures Orderly(Next(c, step))
  {
    match step
    case Loop =>
    case Select(_) =>
    case Dequeue(_) =>
    case Publish =>
    case Requeue(_) =>
    case DriverWrites(_, _) =>
    case Destroy =>
    case Join =>
    case StreamOff(_) =>
    case UnMap =>
    case CloseDevice =>
  }

  lemma DequeueOwned(c: Capture, got: Option<Index>)
    requires Conserved(c) && c.thread.AtDequeue?
    ensures Owned(AfterDequeue(c, got))
  {
    if got.Some? && got.value in c.driver {
      Moved(c.driver, c.app, got.value);
    }
  }

  lemma Moved(driver: set<Index>, app: set<Index>, index: Index)
    requires driver !! app && index in driver
    ensures driver - {index} !! app + {index} && (driver - {index}) + (app + {index}) == driver + app
    ensures |driver - {index}| == |driver| - 1
  {
  }

  lemma QueuedOwned(c: Capture, index: Index)
    requires Owned(c) && !c.streamOff && c.thread == AtRequeue(index)
    ensures Owned(c.(driver := c.driver + {index}, app := c.app - {index}, thread := AtLoop))
  {
    Moved(c.app, c.driver, index);
  }

  lemma RequeueOwned(c: Capture, ok: bool)
    requires Conserved(c) && c.thread.AtRequeue?
    ensures Owned(AfterRequeue(c, c.thread.index, ok))
  {
    if ok { QueuedOwned(c, c.thread.index); }
  }

  lemma WriteOwned(c: Capture, index: Index, value: nat)
    requires Owned(c) && index in c.driver
    ensures Owned(c.(contents := c.contents[index := value]))
  {
  }

  lemma OwnedStep(c: Capture, step: Step)
    requires Conserved(c)
    ensures Owned(Next(c, step))
  {
    match step
    case Loop =>
    case Select(_) =>
    case Dequeue(got) => if c.thread.AtDequeue? { DequeueOwned(c, got); }
    case Publish =>
    case Requeue(ok) => if c.thread.AtRequeue? { RequeueOwned(c, ok); }
    case DriverWrites(index, value) => if index in c.driver { WriteOwned(c, index, value); }
    case Destroy =>
    case Join =>
    case StreamOff(_) =>
    case UnMap =>
    case CloseDevice =>
  }

  lemma ConservedStep(c: Capture, step: Step)
    requires Conserved(c)
    ensures Conserved(Next(c, step)) && Next(c, step).count == c.count
  {
    OwnedStep(c, step);
    OrderlyStep(c, step);
  }

  /**
  In every run each buffer is owned by exactly one of driver and application; between frames the
  driver holds N less one for every failed requeue; and until the thread is done its memory is mapped.
  */
  lemma {:induction false} BuffersConserved(count: nat, schedule: seq<Step>)
    ensures Conserved(Run(count, schedule)) && Run(count, schedule).count == count
    ensures !Run(count, schedule).thread.Done? ==> Run(count, schedule).mapped
  {
    if schedule == [] {
      StartedConserved(count);
    } else {
      var c, step := Run(count, schedule[..|schedule| - 1]), schedule[|schedule| - 1];
      BuffersConserved(count, schedule[..|schedule| - 1]);
      ConservedStep(c, step);
      assert Run(count, schedule) == Next(c, step);
    }
  }

  /** What observers are given is what the driver had put there when it handed the buffer over. */
  lemma PublishesWhatWasTaken(count: nat, schedule: seq<Step>)
    requires Run(count, schedule).thread.AtPublish?
    ensures var c := Run(count, schedule);
            && Next(c, Publish).published == c.published + [(c.thread.index, c.taken)]
            && c.thread.index in c.app && c.mapped
  {
    BuffersConserved(count, schedule);
  }

  /** No step, the driver's included, changes a buffer the application holds. */
  lemma HeldIsStable(count: nat, schedule: seq<Step>, step: Step, index: Index)
    requires index in Run(count, schedule).app
    ensures var c := Run(count, schedule);
            index in c.contents && index in Next(c, step).contents && Next(c, step).contents[index] == c.contents[index]
  {
    BuffersConserved(count, schedule);
    StableStep(Run(count, schedule), step, index);
  }

  lemma StableStep(c: Capture, step: Step, index: Index)
    requires Owned(c) && index in c.app
    ensures index in c.contents && index in Next(c, step).contents && Next(c, step).contents[index] == c.contents[index]
  {
    assert index in Indices(c.count);
    match step
    case Loop =>
    case Select(_) =>
    case Dequeue(_) =>
    case Publish =>
    case Requeue(_) =>
    case DriverWrites(_, _) =>
    case Destroy =>
    case Join =>
    case StreamOff(_) =>
    case UnMap =>
    case CloseDevice =>
  }

  /** Every failed requeue costs a buffer for good: after N of them nothing is published any more. */
  lemma {:induction false} StarvedPublishesNothing(count: nat, schedule: seq<Step>, after: seq<Step>)
    requires Run(count, schedule).failures == count && !Holding(Run(count, schedule))
    ensures var c := Run(count, schedule + after);
            && c.published == Run(count, schedule).published
            && c.failures == count && !Holding(c)
  {
    if after == [] {
      assert schedule + after == schedule;
    } else {
      var rest := after[..|after| - 1];
      StarvedPublishesNothing(count, schedule, rest);
      BuffersConserved(count, schedule + rest);
      assert (schedule + after)[..|schedule + after| - 1] == schedule + rest;
      StarvedStep(Run(count, schedule + rest), after[|after| - 1]);
    }
  }

  lemma RunOne(count: nat, schedule: seq<Step>, step: Step)
    ensures Run(count, schedule + [step]) == Next(Run(count, schedule), step)
  {
    assert (schedule + [step])[..|schedule|] == schedule;
  }

  /** Before that, between frames and until it is told to stop, the thread can publish one more frame. */
  lemma NotStarvedPublishes(count: nat, schedule: seq<Step>) returns (after: seq<Step>)
    requires var c := Run(count, schedule);
             c.failures < count && !Holding(c) && !c.stop && !c.thread.Done?
    ensures |Run(count, schedule + after).published| == |Run(count, schedule).published| + 1
  {
    var c := Run(count, schedule);
    BuffersConserved(count, schedule);
    assert c.driver != {};
    var index :| index in c.driver;
    after := [];
    assert schedule + after == schedule;
    if c.thread.AtLoop? {
      after := Longer(count, schedule, after, Loop);
    }
    if !c.thread.AtDequeue? {
      after := Longer(count, schedule, after, Select(true));
    }
    assert Run(count, schedule + after) == c.(thread := AtDequeue);
    after := Longer(count, schedule, after, Dequeue(Some(index)));
    after := Longer(count, schedule, after, Publish);
  }

  lemma Longer(count: nat, schedule: seq<Step>, before: seq<Step>, step: Step) returns (after: seq<Step>)
    ensures Run(count, schedule + after) == Next(Run(count, schedule + before), step)
  {
    after := before + [step];
    RunOne(count, schedule + before, step);
    assert schedule + after == schedule + before + [step];
  }

  lemma StarvedStep(c: Capture, step: Step)
    requires Conserved(c) && c.failures == c.count && !Holding(c)
    ensures var d := Next(c, step); d.published == c.published && d.failures == c.failures && !Holding(d)
  {
    assert c.driver == {};
    match step
    case Loop =>
    case Select(_) =>
    case Dequeue(_) =>
    case Publish =>
    case Requeue(_) =>
    case DriverWrites(_, _) =>
    case Destroy =>
    case Join =>
    case StreamOff(_) =>
    case UnMap =>
    case CloseDevice =>
  }

  /** When memory is unmapped the thread is done; the driver owns nothing if it obeyed StreamOff, else all it had. */
  lemma UnmapsLast(count: nat, schedule: seq<Step>)
    ensures var c := Run(count, schedule);
            !c.mapped ==> c.thread.Done? && |c.driver| == if c.streamOff then 0 else count - c.failures
  {
    BuffersConserved(count, schedule);
  }
}

/** The destructor of a capturer ends, and the thread stops capturing. */
module CaptureEnds {
  import opened Basics
  import opened CaptureRuns

  /** Steps of the thread until it reads capture_stop_ and is done. */
  function ThreadLeft(pc: ThreadPc): nat {
    match pc
    case Done => 0
    case AtLoop => 1
    case AtRequeue(_) => 2
    case AtPublish(_) => 3
    case AtDequeue => 4
    case AtSelect => 5
  }

  function OwnerLeft(pc: OwnerPc): nat {
    match pc
    case Closed => 0
    case AtClose => 1
    case AtUnmap => 2
    case AtStreamOff => 3
    case Joining => 4
    case Running => 5
  }

  /** Steps between here and the end of the destructor. */
  function EndLeft(c: Capture): nat { ThreadLeft(c.thread) + OwnerLeft(c.owner) }

  /** The step the destructor waits for, whatever the system call in it answers. */
  predicate Awaits(c: Capture, step: Step) {
    match c.thread
    case AtLoop => step.Loop?
    case AtSelect => step.Select?
    case AtDequeue => step.Dequeue?
    case AtPublish(_) => step.Publish?
    case AtRequeue(_) => step.Requeue?
    case Done =>
      match c.owner
      case Joining => step.Join?
      case AtStreamOff => step.StreamOff?
      case AtUnmap => step.UnMap?
      case AtClose => step.CloseDevice?
      case _ => false
  }

  /** No deadlock: such a step brings the destructor nearer its end. */
  lemma EndAdvances(c: Capture, step: Step)
    requires Orderly(c) && !c.owner.Running? && Awaits(c, step)
    ensures EndLeft(Next(c, step)) < EndLeft(c)
  {
  }

  /** No livelock: no step of the thread, the driver or the destructor sets it back. */
  lemma EndNotSetBack(c: Capture, step: Step)
    requires Orderly(c) && !c.owner.Running?
    ensures EndLeft(Next(c, step)) <= EndLeft(c) && !Next(c, step).owner.Running?
  {
  }

  function AwaitedStep(c: Capture): Step {
    match c.thread
    case AtLoop => Loop
    case AtSelect => Select(false)
    case AtDequeue => Dequeue(None)
    case AtPublish(_) => Publish
    case AtRequeue(_) => Requeue(true)
    case Done =>
      match c.owner
      case Joining => Join
      case AtStreamOff => StreamOff(true)
      case AtUnmap => UnMap
      case _ => CloseDevice
  }

  /** From every run in which the destructor has started it can come to its end, with the memory unmapped. */
  lemma {:induction false} CanClose(count: nat, schedule: seq<Step>) returns (after: seq<Step>)
    requires !Run(count, schedule).owner.Running?
    ensures Run(count, schedule + after).owner.Closed? && !Run(count, schedule + after).mapped
    decreases EndLeft(Run(count, schedule))
  {
    var c := Run(count, schedule);
    BuffersConserved(count, schedule);
    after := [];
    assert schedule + after == schedule;
    if !c.owner.Closed? {
      var step := AwaitedStep(c);
      EndAdvances(c, step);
      EndNotSetBack(c, step);
      RunOne(count, schedule, step);
      var rest := CanClose(count, schedule + [step]);
      after := [step] + rest;
      assert schedule + [step] + rest == schedule + after;
    }
  }

  /** The thread has read capture_stop_ and not published since. */
  function FramesLeft(c: Capture): nat {
    if c.thread.AtSelect? || c.thread.AtDequeue? || c.thread.AtPublish? then 1 else 0
  }

  lemma StoppedStep(c: Capture, step: Step)
    requires c.stop
    ensures var d := Next(c, step);
            d.stop && |d.published| + FramesLeft(d) <= |c.published| + FramesLeft(c) && c.published <= d.published
  {
  }

  /** Once the thread has been told to stop, it publishes at most the frame it is at. */
  lemma {:induction false} OneMoreFrame(count: nat, schedule: seq<Step>, after: seq<Step>)
    requires Run(count, schedule).stop
    ensures var c, d := Run(count, schedule), Run(count, schedule + after);
            d.stop && c.published <= d.published && |d.published| + FramesLeft(d) <= |c.published| + FramesLeft(c)
  {
    if after == [] {
      assert schedule + after == schedule;
    } else {
      var rest := after[..|after| - 1];
      OneMoreFrame(count, schedule, rest);
      assert (schedule + after)[..|schedule + after| - 1] == schedule + rest;
      StoppedStep(Run(count, schedule + rest), after[|after| - 1]);
    }
  }

  /** A thread that is not told to stop goes on for ever. */
  lemma {:induction false} RunsUntilStopped(count: nat, schedule: seq<Step>)
    ensures var c := Run(count, schedule); (c.stop <==> !c.owner.Running?) && (c.thread.Done? ==> c.stop)
  {
    if schedule == [] {
    } else {
      RunsUntilStopped(count, schedule[..|schedule| - 1]);
      KeepsRunning(Run(count, schedule[..|schedule| - 1]), schedule[|schedule| - 1]);
    }
  }

  lemma KeepsRunning(c: Capture, step: Step)
    requires (c.stop <==> !c.owner.Running?) && (c.thread.Done? ==> c.stop)
    ensures var d := Next(c, step); (d.stop <==> !d.owner.Running?) && (d.thread.Done? ==> d.stop)
  {
  }
}

/** The class V4L2Capturer, and V4L2Util::QueueBuffers. */
module Capturers {
  import opened Basics
  import opened CaptureRuns
  import V4L2Buffers

  /** The indices below n, in order. */
  function Below(n: nat): seq<Index> { seq(n, i requires 0 <= i < n => i) }

  /** Queues every buffer, in order, up to the first the driver refuses. */
  method QueueBuffers(count: nat, accepted: seq<bool>) returns (ok: bool, queued: seq<Index>)
    requires |accepted| == count
    ensures |queued| <= count && queued == Below(|queued|)
    ensures forall i :: 0 <= i < |queued| ==> accepted[i]
    ensures if ok then |queued| == count else |queued| < count && !accepted[|queued|]
  {
    queued := [];
    for i := 0 to count
      invariant queued == Below(i)
      invariant forall j :: 0 <= j < i ==> accepted[j]
    {
      if !accepted[i] {
        return false, queued;
      }
      queued := queued + [i];
    }
    return true, queued;
  }

  /** What select() and the two ioctls answer during one CaptureImage. */
  datatype Answers = Answers(select: int, got: Option<Index>, requeued: bool)

  predicate Gets(answers: Answers) { answers.select != -1 && answers.select != 0 && answers.got.Some? }

  /** What one CaptureImage amounts to. */
  function Image(c: Capture, answers: Answers): Capture
    requires answers.got.Some? ==> answers.got.value in c.contents
  {
    if !Gets(answers) then c.(thread := AtLoop)
    else var (index, filled) := (answers.got.value, c.contents[answers.got.value]);
         c.(thread := AtLoop, taken := filled, published := c.published + [(index, filled)],
            driver := if answers.requeued then c.driver else c.driver - {index},
            app := if answers.requeued then c.app else c.app + {index},
            failures := if answers.requeued then c.failures else c.failures + 1)
  }

  /** The machine's steps of one CaptureImage, from select on. */
  ghost function Captured(c: Capture, answers: Answers): Capture {
    var selected := Next(c, Select(answers.select != -1 && answers.select != 0));
    var dequeued := Next(selected, Dequeue(answers.got));
    Next(Next(dequeued, Publish), Requeue(answers.requeued))
  }

  lemma CapturedNothing(c: Capture, answers: Answers)
    requires c.thread.AtSelect? && !Gets(answers)
    ensures Captured(c, answers) == c.(thread := AtLoop)
  {
    var ready := answers.select != -1 && answers.select != 0;
    assert Next(c, Select(ready)) == c.(thread := if ready then AtDequeue else AtLoop);
  }

  lemma CapturedFrame(c: Capture, answers: Answers)
    requires Conserved(c) && c.thread.AtSelect? && Gets(answers) && answers.got.value in c.driver
    ensures answers.got.value in c.contents && Captured(c, answers) == Image(c, answers)
  {
    var index := answers.got.value;
    var selected := Next(c, Select(true));
    assert selected == c.(thread := AtDequeue);
    var dequeued := Next(selected, Dequeue(answers.got));
    assert dequeued == c.(driver := c.driver - {index}, app := c.app + {index}, taken := c.contents[index],
                          thread := AtPublish(index));
    var published := Next(dequeued, Publish);
    assert published == dequeued.(published := c.published + [(index, c.contents[index])], thread := AtRequeue(index));
  }

  lemma CapturedIs(c: Capture, answers: Answers)
    requires Conserved(c) && c.thread.AtSelect? && (answers.got.Some? ==> answers.got.value in c.driver)
    ensures answers.got.Some? ==> answers.got.value in c.contents
    ensures Captured(c, answers) == Image(c, answers)
  {
    if Gets(answers) { CapturedFrame(c, answers); } else { CapturedNothing(c, answers); }
  }

  /** It takes the machine's steps, and so conserves the buffers. */
  lemma ImageConserves(c: Capture, answers: Answers)
    requires Conserved(c) && c.thread.AtSelect? && (answers.got.Some? ==> answers.got.value in c.driver)
    ensures answers.got.Some? ==> answers.got.value in c.contents
    ensures Image(c, answers) == Captured(c, answers) && Conserved(Image(c, answers))
  {
    CapturedIs(c, answers);
    var ready := answers.select != -1 && answers.select != 0;
    ConservedStep(c, Select(ready));
    ConservedStep(Next(c, Select(ready)), Dequeue(answers.got));
    ConservedStep(Next(Next(c, Select(ready)), Dequeue(answers.got)), Publish);
    ConservedStep(Next(Next(Next(c, Select(ready)), Dequeue(answers.got)), Publish), Requeue(answers.requeued));
  }

  lemma Restored(queued: set<Index>, index: Index)
    requires index in queued
    ensures queued - {index} + {index} == queued
  {
  }

  lemma BelowAreIndices(n: nat)
    ensures (set i | i in Below(n)) == Indices(n)
  {
    CountIndices(n);
    forall i: nat | i < n ensures i in Below(n) { assert Below(n)[i] == i; }
  }

  class V4L2Capturer {
    const bufferCount: nat
    const capture: V4L2Buffers.V4L2BufferGroup
    const kernel: V4L2Buffers.Kernel
    /** Whether the capture thread has been started. */
    var capturing: bool
    var captureStop: bool
    /** What the kernel holds: the queued buffers and what they contain. */
    var queued: set<Index>
    var contents: map<Index, nat>
    /** The frame last handed to the observers, and all of them so far. */
    var frameBuffer: Option<(Index, nat)>
    var frames: seq<(Index, nat)>
    ghost var state: Capture

    ghost predicate Valid() reads this {
      && capturing && Conserved(state)
      && captureStop == state.stop && queued == state.driver && contents == state.contents && frames == state.published
    }

    /** With Init: a group for mapped memory, and nothing queued. */
    constructor (bufferCount: nat, kernel: V4L2Buffers.Kernel)
      ensures this.bufferCount == bufferCount && this.kernel == kernel && fresh(capture)
      ensures capture.Valid() && capture.buffers == [] && capture.memory.MemoryMmap?
      ensures !capture.hasDmafd && capture.kind.SinglePlane?
      ensures !capturing && !captureStop && queued == {} && frames == [] && frameBuffer.None?
    {
      this.bufferCount, this.kernel := bufferCount, kernel;
      capture := new V4L2Buffers.V4L2BufferGroup(V4L2Buffers.SinglePlane, V4L2Buffers.MemoryMmap, false);
      capturing, captureStop, frameBuffer, frames := false, false, None, [];
      queued, contents, state := {}, map[], Started(0);
    }

    /**
    Allocates, queues every buffer, and only then starts the thread. Where it fails the process exits;
    contents are what the driver's memory holds at the start.
    */
    method StartCapture(granted: bool, answers: seq<V4L2Buffers.Answer>, accepted: seq<bool>) returns (ok: bool)
      requires !capturing && !captureStop && frames == [] && capture.Valid()
      requires |answers| == bufferCount == |accepted| && V4L2Buffers.Honest(answers, kernel.live)
      modifies `capturing, `queued, `contents, `state, kernel, capture`buffers
      ensures ok <==> granted && (forall i :: 0 <= i < bufferCount ==> accepted[i])
                      && (capture.memory.MemoryMmap? ==>
                            forall i :: 0 <= i < bufferCount ==>
                              V4L2Buffers.Passes(answers[i], capture.kind, capture.hasDmafd))
      ensures if ok then Valid() && state == Started(bufferCount) else !capturing
    {
      ghost var turns;
      ok, turns := capture.AllocateBuffer(kernel, bufferCount, granted, answers);
      if !ok {
        return;
      }
      var list;
      ok, list := QueueBuffers(bufferCount, accepted);
      queued := set i | i in list;
      if !ok {
        return;
      }
      BelowAreIndices(bufferCount);
      StartedConserved(bufferCount);
      contents, state := Started(bufferCount).contents, Started(bufferCount);
      capturing := true;
    }

    /** Wraps the driver's bytes and publishes them. */
    method NextBuffer(index: Index)
      requires index in contents
      modifies `frameBuffer, `frames
      ensures frameBuffer == Some((index, contents[index])) && frames == old(frames) + [(index, contents[index])]
    {
      frameBuffer := Some((index, contents[index]));
      frames := frames + [(index, contents[index])];
    }

    ghost method AdvanceState(answers: Answers)
      requires Conserved(state) && state.thread.AtSelect? && (answers.got.Some? ==> answers.got.value in state.driver)
      modifies `state
      ensures answers.got.Some? ==> answers.got.value in old(state).contents
      ensures state == Image(old(state), answers) && Conserved(state)
    {
      ImageConserves(state, answers);
      state := Image(state, answers);
    }

    /**
    A timeout, a failed select and a failed dequeue leave every buffer where it was. Otherwise one
    frame is published, with what the driver had put there, and only a failed requeue costs a buffer.
    */
    method CaptureImage(answers: Answers)
      requires Valid() && state.thread.AtSelect? && (answers.got.Some? ==> answers.got.value in queued)
      modifies this
      ensures answers.got.Some? ==> answers.got.value in old(contents)
      ensures Valid() && state == Image(old(state), answers)
      ensures if Gets(answers)
              then frameBuffer == Some((answers.got.value, old(contents)[answers.got.value]))
                   && frames == old(frames) + [frameBuffer.value]
              else frameBuffer == old(frameBuffer) && frames == old(frames)
      ensures queued == if Gets(answers) && !answers.requeued then old(queued) - {answers.got.value} else old(queued)
    {
      AdvanceState(answers);
      if answers.select == -1 || answers.select == 0 || answers.got.None? {
        return;
      }
      Exchange(answers.got.value, answers.requeued);
    }

    /** Dequeues, publishes, and queues again if the driver takes the buffer. */
    method Exchange(index: Index, requeued: bool)
      requires index in queued && index in contents
      modifies `queued, `frameBuffer, `frames
      ensures queued == if requeued then old(queued) else old(queued) - {index}
      ensures frameBuffer == Some((index, contents[index])) && frames == old(frames) + [(index, contents[index])]
    {
      Restored(queued, index);
      queued := queued - {index};
      NextBuffer(index);
      if requeued {
        queued := queued + {index};
      }
    }
  }
}
