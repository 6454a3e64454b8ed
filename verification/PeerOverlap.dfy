/**
What a step that breaks an assumption leads to. A callback that a Terminate overtakes at the wrong place
goes wrong once the Terminate has returned; so the assumptions forbid nothing that is harmless.
*/
module PeerOverlap {
  import opened PeerMachine
  import opened PeerSafety

  /** Some continuation that respects every assumption is unsafe. */
  ghost predicate CanGoUnsafe(p: Peer) { exists after :: Fair({}, p, after) && Unsafe(Exec(p, after)) }

  lemma SoundIsNeverUnsafe(p: Peer)
    requires Sound(p)
    ensures !CanGoUnsafe(p)
  {
    forall after | Fair({}, p, after) ensures !Unsafe(Exec(p, after)) {
      SoundExec(p, after);
    }
  }

  // ----- a callback overtaken by a Terminate -----

  /** The callback has still to do something for which it needs what Terminate takes away. */
  predicate Overtaken(p: Peer) {
    Emits(p) || AddsCandidate(p) || p.callback.CbSpawnTimer? || p.callback.CbFailedFlag? || p.callback.CbFailedClose?
  }

  /** The last point the callback reaches before it does that. */
  function Brink(p: Peer): CallbackPc {
    if Emits(p) then if p.delayed then CbEmitSpawn else CbEmitSend(CallHandler)
    else if AddsCandidate(p) then CbCandidateAdd
    else if p.callback.CbSpawnTimer? then CbSpawnTimer else CbFailedClose
  }

  /** What the rest of a Terminate relies on, whatever the callback is doing. */
  predicate Ending(p: Peer) {
    && p.fault.NoFault? && Begun(p)
    && (Owes(p.sender) ==> p.handler.Some? && p.description)
    && (Emits(p) ==> !p.sender.Joinable() && (p.callback.CbDescribe? || p.description))
    && (p.callback.CbEmitSpawn? ==> p.delayed) && (p.callback.CbEmitSend? ==> !p.delayed)
    && (PastTimer(p) ==> !p.timer.Joinable())
    && (PastSender(p) ==> !p.sender.Joinable())
    && (PastHandler(p) ==> p.handler.None?)
    && p.connection == !(p.terminated || p.terminate.TermRelease?)
    && (p.terminate.TermNull? ==> !p.terminated)
  }

  function ToBrinkLeft(pc: CallbackPc): nat {
    match pc
    case CbDescribe => 4
    case CbEmitCheck => 3
    case CbEmitJoin => 2
    case CbEmitSend(ReadDescription) => 1
    case CbFailedFlag => 1
    case CbCandidateCheck => 1
    case _ => 0
  }

  lemma ToBrinkStep(p: Peer)
    requires Ending(p) && Overtaken(p) && p.callback != Brink(p)
    ensures CanCallback(p)
    ensures var q := NextCallback(p);
            && Ending(q) && Overtaken(q) && Brink(q) == Brink(p) && ToBrinkLeft(q.callback) < ToBrinkLeft(p.callback)
            && q.id == p.id && q.delayed == p.delayed && q.terminate == p.terminate
  {
  }

  lemma {:induction false} ToBrink(d: set<Assumption>, start: Peer, before: seq<PeerStep>, p: Peer)
    returns (s: seq<PeerStep>, q: Peer)
    requires Ran(d, start, before, p) && Ending(p) && Overtaken(p)
    ensures Ran(d, start, s, q) && Ending(q) && q.callback == Brink(p)
    ensures q.id == p.id && q.delayed == p.delayed && q.terminate == p.terminate
    decreases ToBrinkLeft(p.callback)
  {
    s, q := before, p;
    if p.callback != Brink(p) {
      ToBrinkStep(p);
      s, q := Take(d, start, before, p, CallbackStep);
      s, q := ToBrink(d, start, s, q);
    }
  }

  /** The step Terminate waits for, whatever the callback is doing. */
  lemma EndingStep(p: Peer)
    requires Ending(p) && !p.terminate.NotTerminating?
    ensures var q := Next(p, Awaited(p));
            && Ending(q) && StepsLeft(q) < StepsLeft(p) && (q.terminate.NotTerminating? ==> !q.description)
            && q.id == p.id && q.delayed == p.delayed && q.callback == p.callback
  {
    if CanTerminate(p) {
      EndingStatement(p);
    } else {
      EndingThreads(p);
    }
  }

  lemma EndingStatement(p: Peer)
    requires Ending(p) && CanTerminate(p)
    ensures var q := NextTerminate(p);
            && Ending(q) && StepsLeft(q) < StepsLeft(p) && (q.terminate.NotTerminating? ==> !q.description)
  {
  }

  lemma EndingThreads(p: Peer)
    requires Ending(p)
    ensures p.timer.Live? ==> Ending(NextTimer(p)) && StepsLeft(NextTimer(p)) < StepsLeft(p)
    ensures p.sender.Live? && !Emits(p) ==> Ending(NextSender(p)) && StepsLeft(NextSender(p)) < StepsLeft(p)
  {
  }

  /** Terminate runs to its end while the callback stands still. */
  lemma {:induction false} ToEnd(d: set<Assumption>, start: Peer, before: seq<PeerStep>, p: Peer)
    returns (s: seq<PeerStep>, q: Peer)
    requires Ran(d, start, before, p) && Ending(p)
    ensures Ran(d, start, s, q) && Ending(q) && q.terminate.NotTerminating?
    ensures q.id == p.id && q.delayed == p.delayed && q.callback == p.callback
    ensures if p.terminate.NotTerminating? then q == p else !q.description
    decreases StepsLeft(p)
  {
    s, q := before, p;
    if !p.terminate.NotTerminating? {
      s, q := Await(d, start, before, p);
      s, q := ToEnd(d, start, s, q);
    }
  }

  lemma Await(d: set<Assumption>, start: Peer, before: seq<PeerStep>, p: Peer) returns (s: seq<PeerStep>, q: Peer)
    requires Ran(d, start, before, p) && Ending(p) && !p.terminate.NotTerminating?
    ensures Ran(d, start, s, q) && Ending(q) && StepsLeft(q) < StepsLeft(p)
    ensures q.terminate.NotTerminating? ==> !q.description
    ensures q.id == p.id && q.delayed == p.delayed && q.callback == p.callback
  {
    EndingStep(p);
    s, q := Take(d, start, before, p, Awaited(p));
  }

  /** What becomes of a callback that goes on behind the end of a Terminate. */
  predicate GoneWrong(brink: CallbackPc, q: Peer) {
    match brink
    case CbEmitSpawn =>  // and that thread uses the description that is gone
      && q.terminated && q.terminate.NotTerminating? && q.sender.Joinable()
      && Next(q, SenderStep).fault.NullDescriptionUsed?
    case CbEmitSend(_) => q.fault.EmptyHandlerCalled?
    case CbCandidateAdd => q.fault.NullDescriptionUsed?
    case CbSpawnTimer => q.terminated && q.terminate.NotTerminating? && q.timer.Joinable()
    case CbFailedClose => q.fault.NullConnectionUsed?
    case _ => false
  }

  lemma BehindTheEnd(p: Peer)
    requires Ending(p) && p.terminate.NotTerminating?
    requires p.callback.CbCandidateAdd? || p.callback.CbEmitSpawn? ==> !p.description
    requires p.callback in {CbEmitSpawn, CbEmitSend(CallHandler), CbCandidateAdd, CbSpawnTimer, CbFailedClose}
    ensures GoneWrong(p.callback, Next(p, CallbackStep))
  {
  }

  /** An overtaken callback always goes wrong in some continuation. */
  lemma GoesWrong(d: set<Assumption>, start: Peer, before: seq<PeerStep>, p: Peer) returns (s: seq<PeerStep>, q: Peer)
    requires Ran(d, start, before, p) && Ending(p) && Overtaken(p)
    requires AddsCandidate(p) ==> !p.terminate.NotTerminating?
    ensures Ran(d, start, s, q) && q.id == p.id && GoneWrong(Brink(p), q) && Unsafe(q)
  {
    s, q := ToBrink(d, start, before, p);
    s, q := ToEnd(d, start, s, q);
    BehindTheEnd(q);
    s, q := Take(d, start, s, q, CallbackStep);
  }

  // ----- a send whose handler is cleared first -----

  /** The pending send, or the one that is about to be spawned, will find no handler. */
  predicate LosesHandler(p: Peer) {
    p.fault.NoFault? && p.description &&
    match p.callback
    case CbIdle => Owes(p.sender) && p.handler.None?
    case CbConnectedFlag => Owes(p.sender)
    case CbConnectedClear => Owes(p.sender)
    case CbEmitJoin => p.delayed && if p.sender.Live? then Owes(p.sender) ==> p.handler.Some? else p.handler.None?
    case CbEmitSpawn => p.delayed && p.handler.None? && !p.sender.Joinable()
    case _ => false
  }

  function LossLeft(p: Peer): nat {
    SenderSteps(p) + match p.callback
                     case CbIdle => 0
                     case CbConnectedClear => 1
                     case CbConnectedFlag => 2
                     case CbEmitSpawn => 4
                     case _ => 5
  }

  /** The sender moves when the callback thread is idle or waits for it. */
  function LossStep(p: Peer): PeerStep {
    if p.callback.CbIdle? || (p.callback.CbEmitJoin? && p.sender.Live?) then SenderStep else CallbackStep
  }

  lemma LossAdvances(p: Peer)
    requires LosesHandler(p)
    ensures var q := Next(p, LossStep(p));
            q.fault.EmptyHandlerCalled? || (LosesHandler(q) && LossLeft(q) < LossLeft(p))
  {
    if LossStep(p).SenderStep? { LosingSender(p); } else { LosingCallback(p); }
  }

  lemma LosingCallback(p: Peer)
    requires LosesHandler(p) && LossStep(p).CallbackStep?
    ensures CanCallback(p)
    ensures LosesHandler(NextCallback(p)) && LossLeft(NextCallback(p)) < LossLeft(p)
  {
  }

  lemma LosingSender(p: Peer)
    requires LosesHandler(p) && p.sender.Live? && LossStep(p).SenderStep?
    ensures var q := NextSender(p); q.fault.EmptyHandlerCalled? || (LosesHandler(q) && LossLeft(q) < LossLeft(p))
  {
  }

  lemma {:induction false} HandlerIsLost(d: set<Assumption>, start: Peer, before: seq<PeerStep>, p: Peer)
    returns (s: seq<PeerStep>, q: Peer)
    requires Ran(d, start, before, p) && LosesHandler(p)
    ensures Ran(d, start, s, q) && q.id == p.id && q.fault.EmptyHandlerCalled?
    decreases LossLeft(p)
  {
    LossAdvances(p);
    s, q := Take(d, start, before, p, LossStep(p));
    if q.fault.NoFault? {
      s, q := HandlerIsLost(d, start, s, q);
    }
  }

  // ----- OnLocalDescription without interruption -----

  /** Up to its handler check. */
  lemma Checked(d: set<Assumption>, start: Peer, before: seq<PeerStep>, p: Peer) returns (s: seq<PeerStep>, q: Peer)
    requires Ran(d, start, before, p) && Keeps(d, p, Report(LocalDescription))
    requires p.fault.NoFault? && p.callback.CbIdle?
    ensures Ran(d, start, s, q)
    ensures q == p.(descriptions := Less(p.descriptions), description := true,
                    callback := if p.handler.Some? then CbEmitJoin else CbIdle)
  {
    s, q := Reported(d, start, before, p, LocalDescription);
    s, q := Described(d, start, s, q);
  }

  /** A library callback begins. */
  lemma Reported(d: set<Assumption>, start: Peer, before: seq<PeerStep>, p: Peer, event: Event)
    returns (s: seq<PeerStep>, q: Peer)
    requires Ran(d, start, before, p) && Keeps(d, p, Report(event)) && p.fault.NoFault? && p.callback.CbIdle?
    ensures Ran(d, start, s, q) && q == NextReport(p, event)
  {
    s, q := Take(d, start, before, p, Report(event));
  }

  lemma Described(d: set<Assumption>, start: Peer, before: seq<PeerStep>, p: Peer) returns (s: seq<PeerStep>, q: Peer)
    requires Ran(d, start, before, p) && p.fault.NoFault? && p.callback.CbDescribe?
    ensures Ran(d, start, s, q)
    ensures q == p.(description := true, callback := if p.handler.Some? then CbEmitJoin else CbIdle)
  {
    s, q := Take(d, start, before, p, CallbackStep);
    s, q := CheckedHandler(d, start, s, q);
  }

  lemma CheckedHandler(d: set<Assumption>, start: Peer, before: seq<PeerStep>, p: Peer)
    returns (s: seq<PeerStep>, q: Peer)
    requires Ran(d, start, before, p) && p.fault.NoFault? && p.callback.CbEmitCheck?
    ensures Ran(d, start, s, q) && q == p.(callback := if p.handler.Some? then CbEmitJoin else CbIdle)
  {
    s, q := Take(d, start, before, p, CallbackStep);
  }

  /** All of it, when the send is handed to a thread and no send is under way. */
  lemma Emitted(d: set<Assumption>, start: Peer, before: seq<PeerStep>, p: Peer) returns (s: seq<PeerStep>, q: Peer)
    requires Ran(d, start, before, p) && Keeps(d, p, Report(LocalDescription))
    requires p.fault.NoFault? && p.callback.CbIdle? && p.handler.Some? && p.delayed && p.sender.NotJoinable?
    ensures Ran(d, start, s, q)
    ensures q == p.(descriptions := Less(p.descriptions), description := true, sender := Live(ReadDescription))
  {
    s, q := Checked(d, start, before, p);
    s, q := Joined(d, start, s, q);
    s, q := Spawned(d, start, s, q);
  }

  lemma Spawned(d: set<Assumption>, start: Peer, before: seq<PeerStep>, p: Peer) returns (s: seq<PeerStep>, q: Peer)
    requires Ran(d, start, before, p) && p.fault.NoFault? && p.callback.CbEmitSpawn? && !p.sender.Joinable()
    ensures Ran(d, start, s, q) && q == p.(sender := Live(ReadDescription), callback := CbIdle)
  {
    s, q := Take(d, start, before, p, CallbackStep);
  }

  lemma Joined(d: set<Assumption>, start: Peer, before: seq<PeerStep>, p: Peer) returns (s: seq<PeerStep>, q: Peer)
    requires Ran(d, start, before, p) && p.fault.NoFault? && p.callback.CbEmitJoin? && p.delayed && !p.sender.Live?
    ensures Ran(d, start, s, q) && q == p.(sender := NotJoinable, callback := CbEmitSpawn)
  {
    s, q := Take(d, start, before, p, CallbackStep);
  }

  // ----- exactly the steps that the assumptions forbid -----

  lemma OvertakenIsUnsafe(p: Peer)
    requires Ending(p) && Overtaken(p) && (AddsCandidate(p) ==> !p.terminate.NotTerminating?)
    ensures CanGoUnsafe(p)
  {
    var after, q := GoesWrong({}, p, [], p);
  }

  /** Possible in the state it is taken in, and not the second of what the library does once. */
  predicate Due(p: Peer, step: PeerStep) {
    && Disciplined(p, step) && (step.Report? ==> p.callback.CbIdle?)
    && Holds(OfferOnce, p, step) && Holds(DescriptionOnce, p, step) && Holds(RestartWhenConnected, p, step)
  }

  lemma BrokenByReport(p: Peer, event: Event)
    requires Sound(p) && Due(p, Report(event)) && !Keeps({}, p, Report(event)) && !event.Connected?
    ensures Ending(NextReport(p, event)) && Overtaken(NextReport(p, event))
    ensures event.LocalCandidate? ==> !p.terminate.NotTerminating?
  {
  }

  /** A Terminate may start exactly when it overtakes nothing. */
  lemma StartKeeps(p: Peer)
    requires Sound(p)
    ensures Keeps({}, p, StartTerminate) <==> !(p.terminate.NotTerminating? && Overtaken(p))
  {
    var step := StartTerminate;
    if p.terminate.NotTerminating? && Overtaken(p) {
      assert !Holds(TerminateOutsideOffer, p, step) || !Holds(TerminateOutsideFailed, p, step)
             || !Holds(TerminateOutsideDescription, p, step) || !Holds(TerminateOutsideCandidate, p, step);
    }
  }

  lemma StartedIsEnding(p: Peer)
    requires Sound(p) && p.terminate.NotTerminating?
    ensures Ending(p.(terminate := TermUnflag))
  {
    match p.callback
    case CbEmitSend(pc) => assert pc.ReadDescription? || pc.CallHandler? || !Emits(p);
    case _ =>
  }

  /** A candidate may be reported exactly when it is not added while a Terminate is running. */
  lemma CandidateKeeps(p: Peer)
    ensures Keeps({}, p, Report(LocalCandidate)) <==> (p.delayed && p.description ==> p.terminate.NotTerminating?)
  {
    if p.delayed && p.description && !p.terminate.NotTerminating? {
      assert !Holds(CandidateNotWhileTerminating, p, Report(LocalCandidate));
    }
  }

  lemma OthersKeep(p: Peer, step: PeerStep)
    requires Due(p, step) && !step.Report? && !step.StartTerminate?
    ensures Keeps({}, p, step)
  {
  }

  /**
  The assumptions on overlaps are the weakest there are: what the library does once aside, a step from
  a sound peer leads to an unsafe continuation if and only if it breaks one of them.
  */
  lemma UnsafeExactly(p: Peer, step: PeerStep)
    requires Sound(p) && Due(p, step)
    ensures CanGoUnsafe(Next(p, step)) <==> !Keeps({}, p, step)
  {
    var q := Next(p, step);
    if Keeps({}, p, step) {
      SoundStep(p, step);
      SoundIsNeverUnsafe(q);
    } else if step == Report(Connected) {
      var after, r := HandlerIsLost({}, q, [], q);
    } else if step.Report? {
      BrokenByReport(p, step.event);
      OvertakenIsUnsafe(q);
    } else if step.StartTerminate? {
      StartKeeps(p);
      StartedIsEnding(p);
      OvertakenIsUnsafe(q);
    } else {
      OthersKeep(p, step);
    }
  }

  /** When a Terminate that starts now can end badly. */
  lemma TerminateUnsafeExactly(p: Peer)
    requires Sound(p) && RemoteIdle(p) && p.terminate.NotTerminating?
    ensures CanGoUnsafe(Next(p, StartTerminate)) <==> Overtaken(p)
  {
    UnsafeExactly(p, StartTerminate);
    StartKeeps(p);
  }

  /** When a candidate that the library reports now can. */
  lemma CandidateUnsafeExactly(p: Peer)
    requires Sound(p) && p.callback.CbIdle?
    ensures CanGoUnsafe(Next(p, Report(LocalCandidate))) <==>
            p.delayed && p.description && !p.terminate.NotTerminating?
  {
    UnsafeExactly(p, Report(LocalCandidate));
    CandidateKeeps(p);
  }
}
