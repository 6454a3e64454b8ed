/**
What the library's reports and a peer's own threads can always bring a sound peer to, without breaking
any assumption: its requests can be served, its Terminate can return, its answer can be sent.
*/
module PeerProgress {
  import opened Basics
  import opened PeerMachine
  import opened PeerSafety

  /** None of the steps is the service's. */
  predicate Inner(schedule: seq<PeerStep>) { forall step :: step in schedule ==> Internal(step) }

  /** p is sound, and where such a schedule leads from start. */
  predicate Walked(start: Peer, schedule: seq<PeerStep>, p: Peer) {
    Ran({}, start, schedule, p) && Inner(schedule) && Sound(p)
  }

  lemma Walk(start: Peer, before: seq<PeerStep>, p: Peer, step: PeerStep) returns (s: seq<PeerStep>, q: Peer)
    requires Walked(start, before, p) && Internal(step) && Keeps({}, p, step)
    ensures Walked(start, s, q) && q == Next(p, step)
  {
    SoundStep(p, step);
    s, q := Take({}, start, before, p, step);
  }

  // ----- callbacks and sends come to their end -----

  function CallbackLeft(pc: CallbackPc): nat {
    match pc
    case CbIdle => 0
    case CbSpawnTimer => 1
    case CbConnectedFlag => 2
    case CbConnectedClear => 1
    case CbFailedFlag => 2
    case CbFailedClose => 1
    case CbClosedFlag => 2
    case CbClosedComplete => 1
    case CbCandidateCheck => 2
    case CbCandidateAdd => 1
    case CbDescribe => 7
    case CbEmitCheck => 6
    case CbEmitJoin => 5
    case CbEmitSpawn => 4
    case CbEmitSend(pc) => match pc { case ReadDescription => 3 case CallHandler => 2 case ClearHandler => 1 }
  }

  /** As far as its requests and its Terminate go, the peer is as it was. */
  predicate SameCalls(p: Peer, q: Peer) {
    && q.remote == p.remote && q.remotePc == p.remotePc && q.terminate == p.terminate && q.terminated == p.terminated
    && q.offered == p.offered
  }

  lemma CallbackSettles(p: Peer)
    requires Sound(p) && CanCallback(p)
    ensures var q := NextCallback(p);
            CallbackLeft(q.callback) + SenderSteps(q) < CallbackLeft(p.callback) + SenderSteps(p) && SameCalls(p, q)
  {
  }

  lemma SenderSettles(p: Peer)
    requires p.sender.Live?
    ensures var q := NextSender(p);
            SenderSteps(q) < SenderSteps(p) && q.callback == p.callback && SameCalls(p, q)
  {
  }

  /** The callback thread becomes idle, and no send is under way. */
  lemma {:induction false} Settle(start: Peer, before: seq<PeerStep>, p: Peer) returns (s: seq<PeerStep>, q: Peer)
    requires Walked(start, before, p)
    ensures Walked(start, s, q) && q.callback.CbIdle? && !q.sender.Live? && SameCalls(p, q)
    decreases CallbackLeft(p.callback) + SenderSteps(p)
  {
    s, q := before, p;
    if CanCallback(p) {
      CallbackSettles(p);
      s, q := Walk(start, before, p, CallbackStep);
      s, q := Settle(start, s, q);
    } else if p.sender.Live? {
      SenderSettles(p);
      s, q := Walk(start, before, p, SenderStep);
      s, q := Settle(start, s, q);
    }
  }

  /** The library connects the peer. */
  lemma Connect(start: Peer, before: seq<PeerStep>, p: Peer) returns (s: seq<PeerStep>, q: Peer)
    requires Walked(start, before, p)
    ensures Walked(start, s, q) && q.connected && SameCalls(p, q)
  {
    s, q := Settle(start, before, p);
    s, q := Walk(start, s, q, Report(Connected));
    s, q := SetConnected(start, s, q);
  }

  lemma SetConnected(start: Peer, before: seq<PeerStep>, p: Peer) returns (s: seq<PeerStep>, q: Peer)
    requires Walked(start, before, p) && p.callback.CbConnectedFlag?
    ensures Walked(start, s, q) && q.connected && SameCalls(p, q)
  {
    s, q := Walk(start, before, p, CallbackStep);
  }

  // ----- requests are served -----

  function StepsOfCall(pc: RemotePc): nat {
    match pc
    case AtCall => 0
    case AtAddCandidate(_) => 1
    case AtApply => 3
    case AtAnswer => 2
    case AtLocal => 1
  }

  /** A bound on the steps of the calls that the HTTP thread has yet to make. */
  function CallSteps(p: Peer): (n: nat)
    ensures n == 0 <==> RemoteIdle(p)
  {
    StepsOfCall(p.remotePc) + 4 * |p.remote|
  }

  lemma CallsAdvance(p: Peer)
    requires !RemoteIdle(p)
    ensures CallSteps(NextRemote(p, true)) < CallSteps(p)
  {
  }

  lemma CallsNotSetBack(p: Peer, step: PeerStep)
    requires Internal(step)
    ensures CallSteps(Next(p, step)) <= CallSteps(p)
  {
    match step
    case RemoteStep(choice) => if !RemoteIdle(p) { assert StepsOfCall(NextRemote(p, choice).remotePc) <= 3; }
    case TerminateStep =>
    case Report(_) =>
    case CallbackStep =>
    case TimerStep =>
    case SenderStep =>
    case _ =>
  }

  /** The next call is a SetRemoteSdp that the assumption on restarts does not allow yet. */
  predicate MustConnect(p: Peer) {
    p.remotePc.AtCall? && p.remote != [] && p.remote[0].SetSdp? && p.offered && !p.connected
  }

  lemma NextCall(start: Peer, before: seq<PeerStep>, p: Peer) returns (s: seq<PeerStep>, q: Peer)
    requires Walked(start, before, p) && !RemoteIdle(p) && !MustConnect(p)
    ensures Walked(start, s, q) && CallSteps(q) < CallSteps(p)
  {
    CallsAdvance(p);
    s, q := Walk(start, before, p, RemoteStep(true));
  }

  /** The HTTP thread gets through all its calls. */
  lemma {:induction false} FinishCalls(start: Peer, before: seq<PeerStep>, p: Peer)
    returns (s: seq<PeerStep>, q: Peer)
    requires Walked(start, before, p)
    ensures Walked(start, s, q) && RemoteIdle(q)
    decreases CallSteps(p)
  {
    s, q := before, p;
    if !RemoteIdle(p) {
      if MustConnect(p) { s, q := Connect(start, before, p); }
      s, q := NextCall(start, s, q);
      s, q := FinishCalls(start, s, q);
    }
  }

  // ----- Terminate returns -----

  lemma {:induction false} FinishTerminate(start: Peer, before: seq<PeerStep>, p: Peer)
    returns (s: seq<PeerStep>, q: Peer)
    requires Walked(start, before, p)
    ensures Walked(start, s, q) && q.terminate.NotTerminating?
    decreases StepsLeft(p)
  {
    s, q := before, p;
    if !p.terminate.NotTerminating? {
      TerminateAdvances(p);
      s, q := Walk(start, before, p, Awaited(p));
      s, q := FinishTerminate(start, s, q);
    }
  }

  // ----- the answer is sent -----

  /** No callback is about to clear the handler. */
  predicate KeepsHandler(pc: CallbackPc) {
    !pc.CbConnectedFlag? && !pc.CbConnectedClear? && pc != CbEmitSend(ClearHandler)
  }

  /** A send is under way, or the library has a local description to report that leads to one. */
  predicate CanAnswer(p: Peer) {
    p.handler.Some? &&
    (Owes(p.sender) || Emits(p) || (p.descriptions > 0 && !Begun(p) && KeepsHandler(p.callback)))
  }

  function AnswerLeft(p: Peer): nat {
    if Owes(p.sender) then SenderSteps(p)
    else if p.callback.CbIdle? then 9
    else if Emitting(p) then CallbackLeft(p.callback) + 1 else 9 + CallbackLeft(p.callback)
  }

  function AnswerStep(p: Peer): PeerStep {
    if Owes(p.sender) then SenderStep
    else if p.callback.CbIdle? then Report(LocalDescription) else CallbackStep
  }

  /** The handler has run, or there is less to do until it does. */
  predicate NearsAnswer(p: Peer, q: Peer) {
    q.registered == p.registered &&
    (q.fired == p.fired + 1 || (q.fired == p.fired && CanAnswer(q) && AnswerLeft(q) < AnswerLeft(p)))
  }

  lemma SenderAnswers(p: Peer)
    requires Sound(p) && p.handler.Some? && Owes(p.sender)
    ensures NearsAnswer(p, NextSender(p))
  {
  }

  lemma ReportAnswers(p: Peer)
    requires Sound(p) && CanAnswer(p) && !Owes(p.sender) && p.callback.CbIdle?
    ensures Keeps({}, p, Report(LocalDescription)) && NearsAnswer(p, NextReport(p, LocalDescription))
  {
  }

  lemma CallbackAnswers(p: Peer)
    requires Sound(p) && CanAnswer(p) && !Owes(p.sender) && !p.callback.CbIdle?
    ensures CanCallback(p) && NearsAnswer(p, NextCallback(p))
  {
    if p.callback.CbEmitJoin? { assert !p.sender.Live?; }
  }

  lemma AnswerAdvances(p: Peer)
    requires Sound(p) && CanAnswer(p)
    ensures Keeps({}, p, AnswerStep(p)) && Internal(AnswerStep(p)) && NearsAnswer(p, Next(p, AnswerStep(p)))
  {
    if Owes(p.sender) { SenderAnswers(p); }
    else if p.callback.CbIdle? { ReportAnswers(p); }
    else { CallbackAnswers(p); }
  }

  lemma {:induction false} SendAnswer(start: Peer, before: seq<PeerStep>, p: Peer)
    returns (s: seq<PeerStep>, q: Peer)
    requires Walked(start, before, p) && CanAnswer(p)
    ensures Walked(start, s, q) && q.fired == p.fired + 1 && q.registered == p.registered
    decreases AnswerLeft(p)
  {
    AnswerAdvances(p);
    s, q := Walk(start, before, p, AnswerStep(p));
    if q.fired == p.fired {
      s, q := SendAnswer(start, s, q);
    }
  }

  /** OnLocalSdp has been called, and SetRemoteSdp is about to be or on its way. */
  predicate OfferPending(p: Peer, session: SessionId) {
    && p.handler == Some(session) && p.registered == Some(session) && p.callback.CbIdle? && !Begun(p)
    && (Applying(p) || (p.remotePc.AtCall? && p.remote == [SetSdp] && !p.offered && !p.connected))
  }

  lemma OfferAdvances(p: Peer, session: SessionId)
    requires Sound(p) && OfferPending(p, session)
    ensures Keeps({}, p, RemoteStep(true))
    ensures var q := NextRemote(p, true);
            && q.fired == p.fired && q.registered == p.registered && CallSteps(q) < CallSteps(p)
            && (OfferPending(q, session) || CanAnswer(q))
  {
    CallsAdvance(p);
  }

  /** The library accepts the offer, makes an answer, and reports it; the answer is sent. */
  lemma {:induction false} AnswerOffer(start: Peer, before: seq<PeerStep>, p: Peer, session: SessionId)
    returns (s: seq<PeerStep>, q: Peer)
    requires Walked(start, before, p) && OfferPending(p, session)
    ensures Walked(start, s, q) && q.fired == p.fired + 1 && q.registered == p.registered
    decreases CallSteps(p)
  {
    OfferAdvances(p, session);
    s, q := Walk(start, before, p, RemoteStep(true));
    if OfferPending(q, session) {
      s, q := AnswerOffer(start, s, q, session);
    } else {
      s, q := SendAnswer(start, s, q);
    }
  }

  // ----- and otherwise never -----

  /** Registered, and past handing its offer to the library. */
  predicate Asked(p: Peer) { p.registered.Some? && p.offered && !Applying(p) }

  lemma MuteCallback(p: Peer)
    requires Sound(p) && Asked(p) && !CanAnswer(p) && CanCallback(p)
    ensures var q := NextCallback(p); Asked(q) && !CanAnswer(q) && q.fired == p.fired
  {
  }

  lemma MuteReport(p: Peer, event: Event)
    requires Sound(p) && Asked(p) && !CanAnswer(p) && p.callback.CbIdle? && Keeps({}, p, Report(event))
    ensures var q := NextReport(p, event); Asked(q) && !CanAnswer(q) && q.fired == p.fired
  {
    assert Holds(DescriptionOnce, p, Report(event)) && Holds(DescriptionNotWhileClearing, p, Report(event));
  }

  lemma MuteThreads(p: Peer)
    requires Sound(p) && Asked(p) && !CanAnswer(p)
    ensures p.sender.Live? ==> var q := NextSender(p); Asked(q) && !CanAnswer(q) && q.fired == p.fired
    ensures p.timer.Live? ==> var q := NextTimer(p); Asked(q) && !CanAnswer(q) && q.fired == p.fired
    ensures CanTerminate(p) ==> var q := NextTerminate(p); Asked(q) && !CanAnswer(q) && q.fired == p.fired
  {
  }

  lemma MuteRemote(p: Peer, choice: bool)
    requires Sound(p) && Asked(p) && !CanAnswer(p) && !RemoteIdle(p)
    requires Holds(RestartWhenConnected, p, RemoteStep(choice))
    ensures var q := NextRemote(p, choice); Asked(q) && !CanAnswer(q) && q.fired == p.fired
  {
  }

  lemma MuteStep(p: Peer, step: PeerStep)
    requires Sound(p) && Asked(p) && !CanAnswer(p) && Keeps({}, p, step) && Disciplined(p, step)
    ensures var q := Next(p, step); Asked(q) && !CanAnswer(q) && q.fired == p.fired
  {
    match step
    case Register(_) =>
    case StartRemote(_) =>
    case RemoteStep(choice) => if !RemoteIdle(p) { MuteRemote(p, choice); }
    case StartTerminate =>
    case TerminateStep => MuteThreads(p);
    case Report(event) => if p.callback.CbIdle? { MuteReport(p, event); }
    case CallbackStep => if CanCallback(p) { MuteCallback(p); }
    case TimerStep => MuteThreads(p);
    case SenderStep => MuteThreads(p);
  }

  lemma {:induction false} MuteExec(p: Peer, schedule: seq<PeerStep>)
    requires Sound(p) && Asked(p) && !CanAnswer(p) && Fair({}, p, schedule)
    ensures var q := Exec(p, schedule); Asked(q) && !CanAnswer(q) && q.fired == p.fired
  {
    if schedule == [] {
    } else {
      var before := schedule[..|schedule| - 1];
      MuteExec(p, before);
      SoundExec(p, before);
      MuteStep(Exec(p, before), schedule[|schedule| - 1]);
    }
  }

  ghost predicate CanFire(p: Peer) { exists after :: Fair({}, p, after) && Exec(p, after).fired > p.fired }

  /** When a peer that has its offer can still answer. */
  lemma AnswerExactly(p: Peer)
    requires Sound(p) && Asked(p)
    ensures CanFire(p) <==> CanAnswer(p)
  {
    if CanAnswer(p) {
      var after, q := SendAnswer(p, [], p);
    } else {
      forall after | Fair({}, p, after) ensures Exec(p, after).fired == p.fired {
        MuteExec(p, after);
      }
    }
  }
}
