/** Invariants of a peer over all interleavings. */
module PeerSafety {
  import opened PeerMachine

  // ----- unconditional: the handler is one-shot -----

  predicate AtClear(p: Peer) { p.sender == Live(ClearHandler) || p.callback == CbEmitSend(ClearHandler) }

  /** Holds in every interleaving, whatever the library and the service do. */
  predicate OneShot(p: Peer) {
    && (p.handler.Some? ==> p.handler == p.registered)
    && p.fired <= One(p.registered.Some?)
    && (p.fired > 0 ==> p.handler.None? || AtClear(p))
    && (if p.delayed then !p.callback.CbEmitSend? else !p.sender.Joinable() && !p.callback.CbEmitSpawn?)
    && (p.registered.None? ==> p.handler.None?)
    && (p.callback.CbEmitSpawn? ==> !p.sender.Joinable())
  }

  lemma OneShotCallback(p: Peer)
    requires OneShot(p) && CanCallback(p)
    ensures OneShot(NextCallback(p))
  {
  }

  lemma OneShotOutside(p: Peer)
    requires OneShot(p)
    ensures forall choice :: !RemoteIdle(p) ==> OneShot(NextRemote(p, choice))
    ensures forall event :: p.callback.CbIdle? ==> OneShot(NextReport(p, event))
  {
  }

  lemma OneShotThreads(p: Peer)
    requires OneShot(p)
    ensures CanTerminate(p) ==> OneShot(NextTerminate(p))
    ensures p.sender.Live? ==> OneShot(NextSender(p))
  {
  }

  lemma OneShotStep(p: Peer, step: PeerStep)
    requires OneShot(p)
    ensures OneShot(Next(p, step))
  {
    match step
    case Register(_) =>
    case StartRemote(_) =>
    case RemoteStep(_) => OneShotOutside(p);
    case StartTerminate =>
    case TerminateStep => OneShotThreads(p);
    case Report(_) => OneShotOutside(p);
    case CallbackStep => if CanCallback(p) { OneShotCallback(p); }
    case TimerStep =>
    case SenderStep => OneShotThreads(p);
  }

  lemma FiresOneAtATime(p: Peer, step: PeerStep)
    ensures Next(p, step).fired == p.fired || (Next(p, step).fired == p.fired + 1 && p.handler.Some?)
  {
    match step
    case CallbackStep =>
    case SenderStep =>
    case _ =>
  }

  /** Over every schedule the handler runs at most once, and only for the session that registered it. */
  lemma {:induction false} FiresAtMostOnce(id: string, delayed: bool, schedule: seq<PeerStep>)
    ensures OneShot(Exec(Fresh(id, delayed), schedule))
    ensures Exec(Fresh(id, delayed), schedule).fired <= 1
  {
    if schedule == [] {
    } else {
      var before := schedule[..|schedule| - 1];
      FiresAtMostOnce(id, delayed, before);
      OneShotStep(Exec(Fresh(id, delayed), before), schedule[|schedule| - 1]);
    }
  }

  // ----- conditional: no fault -----

  predicate Applying(p: Peer) { p.remotePc.AtApply? || p.remotePc.AtAnswer? || p.remotePc.AtLocal? }

  /** A callback past the handler check. */
  predicate Committed(p: Peer) {
    p.callback.CbEmitJoin? || p.callback.CbEmitSpawn?
    || p.callback == CbEmitSend(ReadDescription) || p.callback == CbEmitSend(CallHandler)
  }

  function One(b: bool): nat { if b then 1 else 0 }

  /** Chances left for a timeout thread to be spawned or to be joinable. */
  function TimerChances(p: Peer): nat {
    One(p.remotePc.AtApply?) + p.offers + One(p.callback.CbSpawnTimer?) + One(p.timer.Joinable())
  }

  /** Chances left for an SDP send to be spawned or to be joinable. */
  function SendChances(p: Peer): nat {
    One(Applying(p)) + p.descriptions + One(Emitting(p)) + One(p.sender.Joinable())
  }

  /** A send thread may have a handler to call, now or once one is registered. */
  predicate CanSend(p: Peer) { p.delayed && (p.handler.Some? || p.registered.None?) }

  /** Terminate has got past joining the timeout thread. */
  predicate PastTimer(p: Peer) {
    p.terminated || p.terminate.TermJoinSender? || p.terminate.TermClearHandler?
    || p.terminate.TermClose? || p.terminate.TermNull? || p.terminate.TermRelease?
  }
  predicate PastSender(p: Peer) {
    p.terminated || p.terminate.TermClearHandler?
    || p.terminate.TermClose? || p.terminate.TermNull? || p.terminate.TermRelease?
  }
  predicate PastHandler(p: Peer) {
    p.terminated || p.terminate.TermClose? || p.terminate.TermNull? || p.terminate.TermRelease?
  }
  predicate PastFlags(p: Peer) { PastTimer(p) || p.terminate.TermJoinTimer? }

  predicate Sound(p: Peer) {
    && p.fault.NoFault?
    && OneShot(p)
    // how often threads can still be spawned
    && TimerChances(p) <= One(p.offered)
    && (CanSend(p) ==> SendChances(p) <= One(p.offered))
    && (p.sender.Joinable() ==> p.registered.Some?)
    && (p.sender.Finished? ==> p.handler.None?)
    // what a pending send relies on
    && (Owes(p.sender) || Committed(p) ==> p.handler.Some?)
    && (Owes(p.sender) || Committed(p) || (p.callback.CbEmitCheck? && !Begun(p)) ==> p.description)
    && (p.callback.CbConnectedFlag? || p.callback.CbConnectedClear? ==> !Owes(p.sender))
    // callbacks that do not overlap Terminate
    && (Begun(p) ==> !Emits(p))
    && (p.callback.CbSpawnTimer? || p.callback.CbFailedFlag? || p.callback.CbFailedClose? ==> !Begun(p))
    && (AddsCandidate(p) ==> p.terminate.NotTerminating?)
    && (p.callback.CbCandidateAdd? ==> p.description)
    && (Begun(p) ==> RemoteIdle(p))
    // how far Terminate has got
    && (PastFlags(p) ==> p.complete)
    && (PastTimer(p) ==> !p.timer.Joinable())
    && (PastSender(p) ==> !p.sender.Joinable())
    && (PastHandler(p) ==> p.handler.None?)
    && p.connection == !(p.terminated || p.terminate.TermRelease?)
    && (p.terminate.TermNull? ==> !p.terminated)
  }

  lemma SoundRemote(p: Peer, choice: bool)
    requires Sound(p) && !RemoteIdle(p) && Holds(RestartWhenConnected, p, RemoteStep(choice))
    ensures Sound(NextRemote(p, choice))
  {
  }

  lemma SoundTerminate(p: Peer)
    requires Sound(p) && CanTerminate(p)
    ensures Sound(NextTerminate(p))
  {
  }

  lemma SoundOffered(p: Peer)
    requires Sound(p) && p.callback.CbIdle? && p.offers > 0 && !Begun(p)
    ensures Sound(NextReport(p, HaveRemoteOffer))
  {
  }

  lemma SoundDescribed(p: Peer)
    requires Sound(p) && p.callback.CbIdle? && p.descriptions > 0 && !(Begun(p) && p.handler.Some?)
    ensures Sound(NextReport(p, LocalDescription))
  {
  }

  lemma SoundReported(p: Peer, event: Event)
    requires Sound(p) && p.callback.CbIdle? && !event.HaveRemoteOffer? && !event.LocalDescription?
    requires event.Connected? ==> !Owes(p.sender)
    requires event.Failed? ==> !Begun(p)
    requires event.LocalCandidate? && p.delayed && p.description ==> p.terminate.NotTerminating?
    ensures Sound(NextReport(p, event))
  {
  }

  lemma SoundReport(p: Peer, event: Event)
    requires Sound(p) && p.callback.CbIdle? && Keeps({}, p, Report(event))
    ensures Sound(NextReport(p, event))
  {
    var step := Report(event);
    match event
    case HaveRemoteOffer =>
      assert Holds(OfferOnce, p, step) && Holds(OfferBeforeTerminate, p, step);
      SoundOffered(p);
    case LocalDescription =>
      assert Holds(DescriptionOnce, p, step) && Holds(DescriptionNotWhileClearing, p, step);
      SoundDescribed(p);
    case Connected =>
      assert Holds(ConnectedAfterSend, p, step);
      SoundReported(p, event);
    case Failed =>
      assert Holds(FailedBeforeTerminate, p, step);
      SoundReported(p, event);
    case Closed => SoundReported(p, event);
    case LocalCandidate =>
      assert Holds(CandidateNotWhileTerminating, p, step);
      SoundReported(p, event);
  }

  lemma SoundCallback(p: Peer)
    requires Sound(p) && CanCallback(p)
    ensures Sound(NextCallback(p))
  {
  }

  lemma SoundTimer(p: Peer)
    requires Sound(p) && p.timer.Live?
    ensures Sound(NextTimer(p))
  {
  }

  lemma SoundSender(p: Peer)
    requires Sound(p) && p.sender.Live?
    ensures Sound(NextSender(p))
  {
  }

  lemma SoundStart(p: Peer)
    requires Sound(p) && RemoteIdle(p) && Keeps({}, p, StartTerminate)
    ensures Sound(Next(p, StartTerminate))
  {
    var step := StartTerminate;
    assert Holds(TerminateOutsideOffer, p, step) && Holds(TerminateOutsideFailed, p, step);
    assert Holds(TerminateOutsideDescription, p, step) && Holds(TerminateOutsideCandidate, p, step);
  }

  /** Every step that respects the assumptions keeps a sound peer sound. */
  lemma SoundStep(p: Peer, step: PeerStep)
    requires Sound(p) && Keeps({}, p, step) && Disciplined(p, step)
    ensures Sound(Next(p, step))
  {
    match step
    case RemoteStep(choice) => if !RemoteIdle(p) { SoundRemote(p, choice); }
    case TerminateStep => if CanTerminate(p) { SoundTerminate(p); }
    case Report(event) => if p.callback.CbIdle? { SoundReport(p, event); }
    case CallbackStep => if CanCallback(p) { SoundCallback(p); }
    case TimerStep => if p.timer.Live? { SoundTimer(p); }
    case SenderStep => if p.sender.Live? { SoundSender(p); }
    case StartTerminate => SoundStart(p);
    case Register(_) =>
    case StartRemote(_) =>
  }

  lemma {:induction false} SoundExec(p: Peer, schedule: seq<PeerStep>)
    requires Sound(p) && Fair({}, p, schedule)
    ensures Sound(Exec(p, schedule))
  {
    if schedule == [] {
    } else {
      var before := schedule[..|schedule| - 1];
      SoundExec(p, before);
      SoundStep(Exec(p, before), schedule[|schedule| - 1]);
    }
  }

  /**
  Under the assumptions no interleaving faults or leaves a thread behind, and a live timeout thread
  has a connection to close.
  */
  lemma NeverUnsafe(id: string, delayed: bool, schedule: seq<PeerStep>)
    requires Fair({}, Fresh(id, delayed), schedule)
    ensures !Unsafe(Exec(Fresh(id, delayed), schedule))
    ensures Exec(Fresh(id, delayed), schedule).timer.Live? ==> Exec(Fresh(id, delayed), schedule).connection
  {
    SoundExec(Fresh(id, delayed), schedule);
  }

  // ----- after Terminate -----

  /** Nothing is left that could run the handler or close the connection. */
  predicate Quiet(p: Peer) {
    p.terminated && !p.timer.Joinable() && !p.sender.Joinable() && p.handler.None? && !p.connection
  }

  lemma QuietStep(p: Peer, step: PeerStep)
    requires Sound(p) && p.terminated && Keeps({}, p, step) && Disciplined(p, step)
    ensures Next(p, step).terminated
    ensures Next(p, step).fired == p.fired && Next(p, step).closes == p.closes
  {
  }

  /** Once Terminate has returned, no continuation runs the handler, closes the connection or starts a thread. */
  lemma {:induction false} QuietAfterTerminate(p: Peer, schedule: seq<PeerStep>)
    requires Sound(p) && p.terminated && Fair({}, p, schedule)
    ensures Quiet(Exec(p, schedule))
    ensures Exec(p, schedule).fired == p.fired && Exec(p, schedule).closes == p.closes
  {
    SoundExec(p, schedule);
    if schedule != [] {
      var before := schedule[..|schedule| - 1];
      QuietAfterTerminate(p, before);
      SoundExec(p, before);
      QuietStep(Exec(p, before), schedule[|schedule| - 1]);
    }
  }

  lemma ExecOne(p: Peer, step: PeerStep, rest: seq<PeerStep>)
    ensures Exec(p, [step] + rest) == Exec(Next(p, step), rest)
    decreases |rest|
  {
    var all := [step] + rest;
    if rest == [] {
      assert all[..0] == [];
    } else {
      ExecOne(p, step, rest[..|rest| - 1]);
      assert all[..|all| - 1] == [step] + rest[..|rest| - 1];
    }
  }

  function StatementsLeft(pc: TerminatePc): nat {
    match pc
    case NotTerminating => 0
    case TermUnflag => 8
    case TermComplete => 7
    case TermJoinTimer => 6
    case TermJoinSender => 5
    case TermClearHandler => 4
    case TermClose => 3
    case TermNull => 2
    case TermRelease => 1
  }

  /** The rest of a Terminate on a peer whose connection is already gone, uninterrupted. */
  function RestOfTerminate(pc: TerminatePc): seq<PeerStep>
    decreases StatementsLeft(pc)
  {
    match pc
    case NotTerminating => []
    case TermUnflag => [TerminateStep] + RestOfTerminate(TermComplete)
    case TermComplete => [TerminateStep] + RestOfTerminate(TermJoinTimer)
    case TermJoinTimer => [TerminateStep] + RestOfTerminate(TermJoinSender)
    case TermJoinSender => [TerminateStep] + RestOfTerminate(TermClearHandler)
    case TermClearHandler => [TerminateStep] + RestOfTerminate(TermClose)
    case TermClose => [TerminateStep] + RestOfTerminate(TermRelease)
    case TermNull => [TerminateStep] + RestOfTerminate(TermRelease)
    case TermRelease => [TerminateStep]
  }

  lemma {:induction false} FinishSecondTerminate(p: Peer)
    requires Quiet(p) && p.complete && p.fault.NoFault? && !p.terminate.NotTerminating? && !p.terminate.TermNull?
    ensures Exec(p, RestOfTerminate(p.terminate)) ==
            p.(connected := p.connected && !p.terminate.TermUnflag?, description := false, terminate := NotTerminating)
    decreases StepsLeft(p)
  {
    var q := NextTerminate(p);
    ExecOne(p, TerminateStep, RestOfTerminate(q.terminate));
    if !q.terminate.NotTerminating? {
      FinishSecondTerminate(q);
    }
  }

  /**
  A second Terminate, as run by the destructor after a DELETE, only resets what callbacks may have
  set since the first: the connected flag and the description.
  */
  lemma SecondTerminateChangesNothing(p: Peer)
    requires Sound(p) && p.terminated && p.terminate.NotTerminating?
    ensures Exec(p, [StartTerminate] + RestOfTerminate(TermUnflag)) == p.(connected := false, description := false)
  {
    ExecOne(p, StartTerminate, RestOfTerminate(TermUnflag));
    FinishSecondTerminate(p.(terminate := TermUnflag));
  }

  // ----- Terminate always returns -----

  function TimerSteps(p: Peer): nat {
    if !p.timer.Live? then 0 else
    match p.timer.pc
    case ReadConnection => 4
    case ReadComplete => 3
    case ReadConnected => 2
    case CloseNow => 1
  }

  function SenderSteps(p: Peer): nat {
    if !p.sender.Live? then 0 else
    match p.sender.pc
    case ReadDescription => 3
    case CallHandler => 2
    case ClearHandler => 1
  }

  /** Steps between here and the end of the Terminate in progress, its joins included. */
  function StepsLeft(p: Peer): nat {
    TimerSteps(p) + SenderSteps(p) + StatementsLeft(p.terminate)
  }

  /** The step Terminate waits for: its own, or one of the thread it joins. */
  function Awaited(p: Peer): PeerStep {
    if CanTerminate(p) then TerminateStep
    else if p.terminate.TermJoinTimer? then TimerStep
    else SenderStep
  }

  /** The awaited step always takes a running Terminate forward: no deadlock. */
  lemma TerminateAdvances(p: Peer)
    requires Sound(p) && !p.terminate.NotTerminating?
    ensures StepsLeft(Next(p, Awaited(p))) < StepsLeft(p)
  {
  }

  /** No step sets it back: no livelock. */
  lemma TerminateNotSetBack(p: Peer, step: PeerStep)
    requires Sound(p) && !p.terminate.NotTerminating?
    requires Keeps({}, p, step) && Disciplined(p, step)
    ensures StepsLeft(Next(p, step)) <= StepsLeft(p)
  {
    match step
    case Register(_) =>
    case StartRemote(_) =>
    case RemoteStep(_) =>
    case StartTerminate =>
    case TerminateStep =>
    case Report(_) =>
    case CallbackStep =>
    case TimerStep =>
    case SenderStep =>
  }
}
