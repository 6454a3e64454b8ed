/**
None of the assumptions can be spared: for each one there is a schedule that breaks only that
assumption and makes the peer unsafe. What becomes of it then is said in PeerOverlap for every peer.
*/
module PeerNecessity {
  import opened Basics
  import opened PeerMachine
  import opened PeerOverlap
  import opened PeerRestart

  /** A schedule from a fresh peer that respects everything but the dropped assumption. */
  predicate Reaches(dropped: Assumption, schedule: seq<PeerStep>, p: Peer) {
    Ran({dropped}, Fresh(p.id, true), schedule, p)
  }

  lemma Follow(dropped: Assumption, schedule: seq<PeerStep>, p: Peer, step: PeerStep)
    returns (longer: seq<PeerStep>, q: Peer)
    requires Reaches(dropped, schedule, p)
    requires Keeps({dropped}, p, step) && Disciplined(p, step)
    ensures q == Next(p, step) && Reaches(dropped, longer, q)
  {
    NextId(p, step);
    longer, q := Take({dropped}, Fresh(p.id, true), schedule, p, step);
  }

  /** The HTTP thread moves on in SetRemoteSdp, and the library accepts the call. */
  lemma Remote(dropped: Assumption, schedule: seq<PeerStep>, p: Peer) returns (longer: seq<PeerStep>, q: Peer)
    requires Reaches(dropped, schedule, p) && p.fault.NoFault? && !RemoteIdle(p)
    requires Keeps({dropped}, p, RemoteStep(true))
    ensures q == NextRemote(p, true) && Reaches(dropped, longer, q)
  {
    longer, q := Follow(dropped, schedule, p, RemoteStep(true));
  }

  /** POST has registered session 0 and its SetRemoteSdp has returned; both reports are still to come. */
  function Offered(id: string): Peer {
    Fresh(id, true).(handler := Some(0), registered := Some(0), offered := true, offers := 1, descriptions := 1)
  }

  lemma Offer(dropped: Assumption, id: string) returns (s: seq<PeerStep>)
    ensures Reaches(dropped, s, Offered(id))
  {
    var p;
    s, p := Registered(dropped, id);
    s, p := Remote(dropped, s, p);
    assert p == Registration(id).(remotePc := AtApply, offered := true);
    s, p := Remote(dropped, s, p);
    assert p == Registration(id).(remotePc := AtAnswer, offered := true, offers := 1);
    s, p := Remote(dropped, s, p);
    s, p := Remote(dropped, s, p);
  }

  function Registration(id: string): Peer { Fresh(id, true).(handler := Some(0), registered := Some(0)) }

  lemma Registered(dropped: Assumption, id: string) returns (s: seq<PeerStep>, p: Peer)
    ensures Reaches(dropped, s, p) && p == Registration(id).(remote := [SetSdp])
  {
    s, p := Follow(dropped, [], Fresh(id, true), Register(0));
    assert p == Registration(id);
    s, p := Follow(dropped, s, p, StartRemote([SetSdp]));
  }

  /** The delayed send has been spawned. */
  function Sending(id: string): Peer {
    Offered(id).(descriptions := 0, description := true, sender := Live(ReadDescription))
  }

  lemma StartSending(dropped: Assumption, id: string) returns (s: seq<PeerStep>)
    ensures Reaches(dropped, s, Sending(id))
  {
    s := Offer(dropped, id);
    var p;
    s, p := Emitted({dropped}, Fresh(id, true), s, Offered(id));
  }

  /** The library reports something, which breaks at most the dropped assumption. */
  lemma Says(d: Assumption, before: seq<PeerStep>, p: Peer, event: Event) returns (s: seq<PeerStep>, q: Peer)
    requires Reaches(d, before, p) && Keeps({d}, p, Report(event)) && p.fault.NoFault? && p.callback.CbIdle?
    ensures Reaches(d, s, q) && q == NextReport(p, event)
  {
    s, q := Reported({d}, Fresh(p.id, true), before, p, event);
  }

  lemma Begin(d: Assumption, before: seq<PeerStep>, p: Peer) returns (s: seq<PeerStep>, q: Peer)
    requires Reaches(d, before, p) && p.fault.NoFault? && p.terminate.NotTerminating? && RemoteIdle(p)
    requires Keeps({d}, p, StartTerminate)
    ensures Reaches(d, s, q) && q == p.(terminate := TermUnflag)
  {
    s, q := Follow(d, before, p, StartTerminate);
  }

  /** A callback that goes wrong if it is running while the peer terminates. */
  predicate Doomed(q: Peer) { Ending(q) && Overtaken(q) && !q.terminate.NotTerminating? }

  predicate MayBeOvertaken(d: Assumption, p: Peer, event: Event) {
    && p.fault.NoFault? && p.callback.CbIdle? && p.terminate.NotTerminating? && RemoteIdle(p)
    && Keeps({d}, p, Report(event)) && Keeps({d}, NextReport(p, event), StartTerminate)
    && Doomed(NextReport(p, event).(terminate := TermUnflag))
  }

  /** A Terminate starts while the callback is running, and overtakes it. */
  lemma Overtake(d: Assumption, before: seq<PeerStep>, p: Peer, event: Event) returns (s: seq<PeerStep>, q: Peer)
    requires Reaches(d, before, p) && MayBeOvertaken(d, p, event)
    ensures var doomed := NextReport(p, event).(terminate := TermUnflag);
            Reaches(d, s, q) && q.id == p.id && GoneWrong(Brink(doomed), q) && Unsafe(q)
  {
    s, q := Says(d, before, p, event);
    s, q := Begin(d, s, q);
    s, q := GoesWrong({d}, Fresh(p.id, true), s, q);
  }

  predicate MayComeLate(d: Assumption, p: Peer, event: Event) {
    && p.fault.NoFault? && p.callback.CbIdle? && p.terminate.NotTerminating? && RemoteIdle(p)
    && Keeps({d}, p, StartTerminate)
    && var begun := p.(terminate := TermUnflag);
       Keeps({d}, begun, Report(event)) && Doomed(NextReport(begun, event))
  }

  /** The callback starts while a Terminate is running, and is overtaken. */
  lemma ComeLate(d: Assumption, before: seq<PeerStep>, p: Peer, event: Event) returns (s: seq<PeerStep>, q: Peer)
    requires Reaches(d, before, p) && MayComeLate(d, p, event)
    ensures var doomed := NextReport(p.(terminate := TermUnflag), event);
            Reaches(d, s, q) && q.id == p.id && GoneWrong(Brink(doomed), q) && Unsafe(q)
  {
    s, q := Begin(d, before, p);
    s, q := Says(d, s, q, event);
    s, q := GoesWrong({d}, Fresh(p.id, true), s, q);
  }

  lemma OfferOnceNeeded(id: string) returns (s: seq<PeerStep>, p: Peer)
    ensures Reaches(OfferOnce, s, p) && p.id == id && p.fault.AssignOverJoinable?
  {
    var d := OfferOnce;
    s := Offer(d, id);
    s, p := ReportOffer({d}, Fresh(id, true), s, Offered(id));
    s, p := ReportOffer({d}, Fresh(id, true), s, p);
  }

  lemma OfferBeforeTerminateNeeded(id: string) returns (s: seq<PeerStep>, p: Peer)
    ensures Reaches(OfferBeforeTerminate, s, p) && p.id == id
    ensures p.terminated && p.terminate.NotTerminating? && p.timer.Joinable()
  {
    var d := OfferBeforeTerminate;
    s := Offer(d, id);
    s, p := ComeLate(d, s, Offered(id), HaveRemoteOffer);
  }

  /** The second emission passes the handler check, waits for the first send, and calls a cleared handler. */
  lemma DescriptionOnceNeeded(id: string) returns (s: seq<PeerStep>, p: Peer)
    ensures Reaches(DescriptionOnce, s, p) && p.id == id && p.fault.EmptyHandlerCalled?
  {
    var d := DescriptionOnce;
    s := StartSending(d, id);
    s, p := Checked({d}, Fresh(id, true), s, Sending(id));
    s, p := HandlerIsLost({d}, Fresh(id, true), s, p);
  }

  lemma DescriptionNotWhileClearingNeeded(id: string) returns (s: seq<PeerStep>, p: Peer)
    ensures Reaches(DescriptionNotWhileClearing, s, p) && p.id == id
    ensures p.terminated && p.terminate.NotTerminating? && p.sender.Joinable()
  {
    var d := DescriptionNotWhileClearing;
    s := Offer(d, id);
    s, p := ComeLate(d, s, Offered(id), LocalDescription);
  }

  lemma ConnectedAfterSendNeeded(id: string) returns (s: seq<PeerStep>, p: Peer)
    ensures Reaches(ConnectedAfterSend, s, p) && p.id == id && p.fault.EmptyHandlerCalled?
  {
    var d := ConnectedAfterSend;
    s := StartSending(d, id);
    s, p := Says(d, s, Sending(id), Connected);
    s, p := HandlerIsLost({d}, Fresh(id, true), s, p);
  }

  lemma FailedBeforeTerminateNeeded(id: string) returns (s: seq<PeerStep>, p: Peer)
    ensures Reaches(FailedBeforeTerminate, s, p) && p.id == id && p.fault.NullConnectionUsed?
  {
    var d := FailedBeforeTerminate;
    s := Offer(d, id);
    s, p := ComeLate(d, s, Offered(id), Failed);
  }

  lemma CandidateMayComeLate(p: Peer)
    requires p.callback.CbIdle? && p.delayed && p.description && p.terminate.NotTerminating?
    requires RemoteIdle(p) && Ending(p.(terminate := TermUnflag))
    ensures MayComeLate(CandidateNotWhileTerminating, p, LocalCandidate)
    ensures Brink(NextReport(p.(terminate := TermUnflag), LocalCandidate)) == CbCandidateAdd
  {
  }

  /** A candidate is checked while a DELETE is under way, and added after it. */
  lemma CandidateNotWhileTerminatingNeeded(id: string) returns (s: seq<PeerStep>, p: Peer)
    ensures Reaches(CandidateNotWhileTerminating, s, p) && p.id == id && p.fault.NullDescriptionUsed?
  {
    var d := CandidateNotWhileTerminating;
    s := StartSending(d, id);
    CandidateMayComeLate(Sending(id));
    s, p := ComeLate(d, s, Sending(id), LocalCandidate);
  }

  lemma DescriptionMayBeOvertaken(p: Peer)
    requires p.callback.CbIdle? && p.delayed && p.handler.Some? && p.terminate.NotTerminating? && p.descriptions > 0
    requires RemoteIdle(p) && Ending(p.(terminate := TermUnflag)) && !p.terminated && p.sender.NotJoinable?
    ensures MayBeOvertaken(TerminateOutsideDescription, p, LocalDescription)
    ensures Brink(NextReport(p, LocalDescription).(terminate := TermUnflag)) == CbEmitSpawn
  {
  }

  lemma TerminateOutsideOfferNeeded(id: string) returns (s: seq<PeerStep>, p: Peer)
    ensures Reaches(TerminateOutsideOffer, s, p) && p.id == id
    ensures p.terminated && p.terminate.NotTerminating? && p.timer.Joinable()
  {
    var d := TerminateOutsideOffer;
    s := Offer(d, id);
    s, p := Overtake(d, s, Offered(id), HaveRemoteOffer);
  }

  lemma TerminateOutsideFailedNeeded(id: string) returns (s: seq<PeerStep>, p: Peer)
    ensures Reaches(TerminateOutsideFailed, s, p) && p.id == id && p.fault.NullConnectionUsed?
  {
    var d := TerminateOutsideFailed;
    s := Offer(d, id);
    s, p := Overtake(d, s, Offered(id), Failed);
  }

  /** DELETE arriving while OnLocalDescription is on its way to its spawn. */
  lemma TerminateOutsideDescriptionNeeded(id: string) returns (s: seq<PeerStep>, p: Peer)
    ensures Reaches(TerminateOutsideDescription, s, p) && p.id == id
    ensures p.terminated && p.terminate.NotTerminating? && p.sender.Joinable()
  {
    var d := TerminateOutsideDescription;
    s := Offer(d, id);
    DescriptionMayBeOvertaken(Offered(id));
    s, p := Overtake(d, s, Offered(id), LocalDescription);
  }

  lemma CandidateMayBeOvertaken(p: Peer)
    requires p.callback.CbIdle? && p.delayed && p.description && p.terminate.NotTerminating?
    requires RemoteIdle(p) && Ending(p.(terminate := TermUnflag))
    ensures MayBeOvertaken(TerminateOutsideCandidate, p, LocalCandidate)
    ensures Brink(NextReport(p, LocalCandidate).(terminate := TermUnflag)) == CbCandidateAdd
  {
  }

  /** A DELETE arrives between the check and the use of the description. */
  lemma TerminateOutsideCandidateNeeded(id: string) returns (s: seq<PeerStep>, p: Peer)
    ensures Reaches(TerminateOutsideCandidate, s, p) && p.id == id && p.fault.NullDescriptionUsed?
  {
    var d := TerminateOutsideCandidate;
    s := StartSending(d, id);
    CandidateMayBeOvertaken(Sending(id));
    s, p := Overtake(d, s, Sending(id), LocalCandidate);
  }

  /** The timeout thread is running. */
  function Timed(id: string): Peer { Offered(id).(offers := 0, timer := Live(ReadConnection)) }

  lemma StartTimer(d: Assumption, id: string) returns (s: seq<PeerStep>)
    ensures Reaches(d, s, Timed(id))
  {
    s := Offer(d, id);
    var p;
    s, p := ReportOffer({d}, Fresh(id, true), s, Offered(id));
  }

  /** A PATCH with `If-Match: *` on a peer that has not connected yet. */
  lemma RestartWhenConnectedNeeded(id: string) returns (s: seq<PeerStep>, p: Peer)
    ensures Reaches(RestartWhenConnected, s, p) && p.id == id && p.fault.AssignOverJoinable?
  {
    var d := RestartWhenConnected;
    s, p := Restart(id);
    s, p := ReportOffer({d}, Fresh(id, true), s, p);
  }

  lemma Asked(d: Assumption, before: seq<PeerStep>, p: Peer) returns (s: seq<PeerStep>, q: Peer)
    requires Reaches(d, before, p) && p.fault.NoFault? && RemoteIdle(p) && !Begun(p)
    ensures Reaches(d, s, q) && q == p.(remote := [SetSdp])
  {
    s, q := Follow(d, before, p, StartRemote([SetSdp]));
  }

  /** A SetRemoteSdp gets past its check, first or not. */
  lemma Applies(before: seq<PeerStep>, p: Peer) returns (s: seq<PeerStep>, q: Peer)
    requires Reaches(RestartWhenConnected, before, p) && p.fault.NoFault?
    requires p.remotePc.AtCall? && p.remote == [SetSdp] && !p.connected
    ensures Reaches(RestartWhenConnected, s, q) && q == p.(remote := [], offered := true, remotePc := AtApply)
  {
    s, q := Remote(RestartWhenConnected, before, p);
  }

  /** The library has accepted the offer again. */
  lemma Restart(id: string) returns (s: seq<PeerStep>, p: Peer)
    ensures Reaches(RestartWhenConnected, s, p)
    ensures p == Timed(id).(offers := 1, remotePc := AtAnswer)
  {
    var d := RestartWhenConnected;
    s := StartTimer(d, id);
    s, p := Asked(d, s, Timed(id));
    s, p := Applies(s, p);
    s, p := Remote(d, s, p);
  }

  /** Dropping any one assumption, and only that one, admits an unsafe schedule. */
  lemma EveryAssumptionIsNeeded(a: Assumption, id: string) returns (schedule: seq<PeerStep>)
    ensures Fair({a}, Fresh(id, true), schedule) && Unsafe(Exec(Fresh(id, true), schedule))
  {
    var p;
    match a
    case OfferOnce => schedule, p := OfferOnceNeeded(id);
    case OfferBeforeTerminate => schedule, p := OfferBeforeTerminateNeeded(id);
    case DescriptionOnce => schedule, p := DescriptionOnceNeeded(id);
    case DescriptionNotWhileClearing => schedule, p := DescriptionNotWhileClearingNeeded(id);
    case ConnectedAfterSend => schedule, p := ConnectedAfterSendNeeded(id);
    case FailedBeforeTerminate => schedule, p := FailedBeforeTerminateNeeded(id);
    case CandidateNotWhileTerminating => schedule, p := CandidateNotWhileTerminatingNeeded(id);
    case TerminateOutsideCandidate => schedule, p := TerminateOutsideCandidateNeeded(id);
    case TerminateOutsideOffer => schedule, p := TerminateOutsideOfferNeeded(id);
    case TerminateOutsideFailed => schedule, p := TerminateOutsideFailedNeeded(id);
    case TerminateOutsideDescription => schedule, p := TerminateOutsideDescriptionNeeded(id);
    case RestartWhenConnected => schedule, p := RestartWhenConnectedNeeded(id);
  }
}
