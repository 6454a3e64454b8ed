/**
RestartIce on a peer that has had its offer accepted: exactly when the peer is not connected, the
library's report of the second offer can assign over the joinable timeout thread.
*/
module PeerRestart {
  import opened PeerMachine
  import opened PeerSafety
  import opened PeerOverlap

  /** What RestartIce calls: both descriptions are read, and between them the offer is set again. */
  const RESTART_CALLS: seq<RemoteCall> := [ReadDescriptions, SetSdp, ReadDescriptions]

  const RESTART: set<Assumption> := {RestartWhenConnected}

  /** Only the HTTP thread moves, and only to make these calls. */
  predicate Calling(calls: seq<RemoteCall>, schedule: seq<PeerStep>) {
    forall step :: step in schedule ==> step == StartRemote(calls) || step.RemoteStep?
  }

  /** The assumption on restarts is not needed, or dropped. */
  predicate May(dropped: set<Assumption>, p: Peer) { !p.offered || p.connected || RestartWhenConnected in dropped }

  /** What setting an offer leaves: nothing has changed, or the library has been given it. */
  function OfferSet(p: Peer, accepted: bool, described: bool): Peer {
    if p.connected then p
    else p.(offered := true, offers := p.offers + One(accepted), descriptions := p.descriptions + One(described))
  }

  /** Nothing has gone wrong or begun to end. */
  predicate Usable(p: Peer) { p.fault.NoFault? && p.connection && !Begun(p) }

  /** The HTTP thread's next call or part of a call. */
  lemma TakeRemote(d: set<Assumption>, calls: seq<RemoteCall>, start: Peer, schedule: seq<PeerStep>, p: Peer,
                   choice: bool)
    returns (longer: seq<PeerStep>, q: Peer)
    requires Ran(d, start, schedule, p) && Usable(p) && !RemoteIdle(p) && Calling(calls, schedule)
    requires p.remotePc.AtCall? && p.remote[0].SetSdp? ==> May(d, p)
    ensures q == NextRemote(p, choice) && Ran(d, start, longer, q) && Calling(calls, longer)
  {
    longer, q := Take(d, start, schedule, p, RemoteStep(choice));
  }

  lemma Apply(d: set<Assumption>, calls: seq<RemoteCall>, start: Peer, before: seq<PeerStep>, p: Peer, accepted: bool)
    returns (s: seq<PeerStep>, q: Peer)
    requires Ran(d, start, before, p) && Usable(p) && p.remotePc.AtApply? && Calling(calls, before)
    ensures q == p.(offers := p.offers + One(accepted), remotePc := AtLocal)
    ensures Ran(d, start, s, q) && Calling(calls, s)
  {
    s, q := TakeRemote(d, calls, start, before, p, accepted);
    s, q := TakeRemote(d, calls, start, s, q, false);
  }

  /** SetRemoteSdp; the library may refuse the offer, or give no description. */
  lemma SetOffer(d: set<Assumption>, calls: seq<RemoteCall>, start: Peer, before: seq<PeerStep>, p: Peer,
                 accepted: bool, described: bool)
    returns (s: seq<PeerStep>, q: Peer)
    requires Ran(d, start, before, p) && Usable(p) && Calling(calls, before) && May(d, p)
    requires p.remotePc.AtCall? && p.remote != [] && p.remote[0].SetSdp?
    ensures q == OfferSet(p, accepted, described).(remote := p.remote[1..])
    ensures Ran(d, start, s, q) && Calling(calls, s)
  {
    s, q := TakeRemote(d, calls, start, before, p, false);
    if !p.connected {
      s, q := Apply(d, calls, start, s, q, accepted);
      s, q := TakeRemote(d, calls, start, s, q, described);
    }
  }

  lemma StartCalls(d: set<Assumption>, calls: seq<RemoteCall>, p: Peer) returns (s: seq<PeerStep>, q: Peer)
    requires Usable(p) && RemoteIdle(p)
    ensures q == p.(remote := calls) && Ran(d, p, s, q) && Calling(calls, s)
  {
    s, q := Take(d, p, [], p, StartRemote(calls));
  }

  /** SetRemoteSdp without interruption. */
  lemma RunSetRemoteSdp(d: set<Assumption>, p: Peer, accepted: bool, described: bool) returns (s: seq<PeerStep>)
    requires Usable(p) && Resting(p) && May(d, p)
    ensures Ran(d, p, s, OfferSet(p, accepted, described)) && Calling([SetSdp], s)
  {
    var q;
    s, q := StartCalls(d, [SetSdp], p);
    s, q := SetOffer(d, [SetSdp], p, s, q, accepted, described);
  }

  /** RestartIce without interruption. */
  lemma RunRestart(d: set<Assumption>, p: Peer, accepted: bool, described: bool) returns (s: seq<PeerStep>)
    requires Usable(p) && Resting(p) && May(d, p)
    ensures Ran(d, p, s, OfferSet(p, accepted, described)) && Calling(RESTART_CALLS, s)
  {
    var q;
    s, q := StartCalls(d, RESTART_CALLS, p);
    s, q := ReadOffer(d, RESTART_CALLS, p, s, q, accepted, described);
  }

  lemma ReadDescription(d: set<Assumption>, calls: seq<RemoteCall>, start: Peer, before: seq<PeerStep>, p: Peer)
    returns (s: seq<PeerStep>, q: Peer)
    requires Ran(d, start, before, p) && Usable(p) && Calling(calls, before)
    requires p.remotePc.AtCall? && p.remote != [] && p.remote[0].ReadDescriptions?
    ensures q == p.(remote := p.remote[1..]) && Ran(d, start, s, q) && Calling(calls, s)
  {
    s, q := TakeRemote(d, calls, start, before, p, false);
  }

  // ----- a whole PATCH -----

  /** A call for each candidate, and then the restart if one is wanted. */
  function PatchOf(candidates: seq<string>, restart: bool): seq<RemoteCall> {
    AddAll(candidates) + if restart then RESTART_CALLS else []
  }

  function AddAll(candidates: seq<string>): seq<RemoteCall> {
    seq(|candidates|, i requires 0 <= i < |candidates| => AddIce(candidates[i]))
  }

  /** SetRemoteIce: a connected peer ignores the candidate, another gives it to the library. */
  lemma AddCandidate(d: set<Assumption>, calls: seq<RemoteCall>, start: Peer, before: seq<PeerStep>, p: Peer)
    returns (s: seq<PeerStep>, q: Peer)
    requires Ran(d, start, before, p) && Usable(p) && Calling(calls, before)
    requires p.remotePc.AtCall? && p.remote != [] && p.remote[0].AddIce?
    ensures q == p.(remote := p.remote[1..],
                    added := if p.connected then p.added else p.added + [p.remote[0].candidate])
    ensures Ran(d, start, s, q) && Calling(calls, s)
  {
    s, q := TakeRemote(d, calls, start, before, p, false);
    if !p.connected {
      s, q := TakeRemote(d, calls, start, s, q, false);
    }
  }

  lemma {:induction false} AddCandidates(d: set<Assumption>, calls: seq<RemoteCall>, start: Peer, before: seq<PeerStep>,
                                         p: Peer, candidates: seq<string>, rest: seq<RemoteCall>)
    returns (s: seq<PeerStep>, q: Peer)
    requires Ran(d, start, before, p) && Usable(p) && Calling(calls, before)
    requires p.remotePc.AtCall? && p.remote == AddAll(candidates) + rest
    ensures q == p.(remote := rest, added := if p.connected then p.added else p.added + candidates)
    ensures Ran(d, start, s, q) && Calling(calls, s)
    decreases |candidates|
  {
    s, q := before, p;
    if candidates != [] {
      var first, others := candidates[0], candidates[1..];
      assert p.remote[0] == AddIce(first) && p.remote[1..] == AddAll(others) + rest;
      s, q := AddCandidate(d, calls, start, before, p);
      s, q := AddCandidates(d, calls, start, s, q, others, rest);
      assert p.added + candidates == p.added + [first] + others;
    } else {
      assert p.remote == rest && p.added + candidates == p.added;
    }
  }

  /**
  All that a PATCH asks for, without interruption: a connected peer ignores it; another gives the library
  every candidate, and one offer if a restart is asked for.
  */
  lemma RunPatch(d: set<Assumption>, p: Peer, candidates: seq<string>, restart: bool, accepted: bool, described: bool)
    returns (s: seq<PeerStep>)
    requires Usable(p) && Resting(p) && (restart ==> May(d, p))
    ensures Calling(PatchOf(candidates, restart), s)
    ensures var given := if p.connected then p else p.(added := p.added + candidates);
            Ran(d, p, s, if restart then OfferSet(given, accepted, described) else given)
  {
    var calls, rest := PatchOf(candidates, restart), if restart then RESTART_CALLS else [];
    var q;
    s, q := StartCalls(d, calls, p);
    s, q := AddCandidates(d, calls, p, s, q, candidates, rest);
    if restart {
      s, q := ReadOffer(d, calls, p, s, q, accepted, described);
    }
  }

  /** RestartIce, once it is the next thing to do. */
  lemma ReadOffer(d: set<Assumption>, calls: seq<RemoteCall>, start: Peer, before: seq<PeerStep>, p: Peer,
                  accepted: bool, described: bool)
    returns (s: seq<PeerStep>, q: Peer)
    requires Ran(d, start, before, p) && Usable(p) && Calling(calls, before) && May(d, p)
    requires p.remotePc.AtCall? && p.remote == RESTART_CALLS
    ensures q == OfferSet(p, accepted, described).(remote := []) && Ran(d, start, s, q) && Calling(calls, s)
  {
    s, q := ReadDescription(d, calls, start, before, p);
    s, q := SetOffer(d, calls, start, s, q, accepted, described);
    s, q := ReadDescription(d, calls, start, s, q);
  }

  // ----- a request that comes too late -----

  /**
  The service drops a peer before it terminates it. A request that reached one afterwards would use the
  connection that is gone, exactly if it reads descriptions or the peer does not count as connected.
  */
  lemma CallsWithoutConnection(p: Peer, call: RemoteCall, first: bool, second: bool)
    requires p.fault.NoFault? && !p.connection && RemoteIdle(p)
    ensures var q := Exec(p, [StartRemote([call]), RemoteStep(first), RemoteStep(second)]);
            && (q.fault.NullConnectionUsed? <==> call.ReadDescriptions? || !p.connected)
            && (q.fault.NoFault? ==> q == p)
  {
    ExecThree(p, StartRemote([call]), RemoteStep(first), RemoteStep(second));
    LateCall(p, call, first);
    LateStep(Next(Next(p, StartRemote([call])), RemoteStep(first)), second);
  }

  lemma ExecThree(p: Peer, a: PeerStep, b: PeerStep, c: PeerStep)
    ensures Exec(p, [a, b, c]) == Next(Next(Next(p, a), b), c)
  {
    ExecOne(p, a, [b, c]);
    ExecOne(Next(p, a), b, [c]);
    ExecOne(Next(Next(p, a), b), c, []);
    assert [a] + [b, c] == [a, b, c] && [b] + [c] == [b, c] && [c] + [] == [c];
  }

  lemma LateStep(p: Peer, choice: bool)
    requires !p.connection
    ensures var q := Next(p, RemoteStep(choice));
            if !p.fault.NoFault? || RemoteIdle(p) then q == p
            else if !p.remotePc.AtCall? then q.fault.NullConnectionUsed? else true
  {
  }

  lemma LateCall(p: Peer, call: RemoteCall, first: bool)
    requires p.fault.NoFault? && !p.connection && RemoteIdle(p)
    ensures var started := Next(p, StartRemote([call]));
            var q := Next(started, RemoteStep(first));
            if call.ReadDescriptions? then q.fault.NullConnectionUsed?
            else if p.connected then q == p
            else q.fault.NoFault? && !q.remotePc.AtCall? && !q.connection
  {
  }

  // ----- what can follow -----

  /** The library reports an accepted offer. */
  lemma ReportOffer(d: set<Assumption>, start: Peer, before: seq<PeerStep>, p: Peer)
    returns (s: seq<PeerStep>, q: Peer)
    requires Ran(d, start, before, p) && Keeps(d, p, Report(HaveRemoteOffer)) && p.fault.NoFault? && p.callback.CbIdle?
    ensures Ran(d, start, s, q)
    ensures q == p.(offers := Less(p.offers), timer := Live(ReadConnection),
                    fault := if p.timer.Joinable() then AssignOverJoinable else NoFault)
  {
    s, q := Take(d, start, before, p, Report(HaveRemoteOffer));
    s, q := SpawnTimer(d, start, s, q);
  }

  lemma SpawnTimer(d: set<Assumption>, start: Peer, before: seq<PeerStep>, p: Peer)
    returns (s: seq<PeerStep>, q: Peer)
    requires Ran(d, start, before, p) && p.fault.NoFault? && p.callback.CbSpawnTimer?
    ensures Ran(d, start, s, q)
    ensures q == p.(callback := CbIdle, timer := Live(ReadConnection),
                    fault := if p.timer.Joinable() then AssignOverJoinable else NoFault)
  {
    s, q := Take(d, start, before, p, CallbackStep);
  }

  lemma SecondReportFaults(p: Peer) returns (after: seq<PeerStep>)
    requires p.fault.NoFault? && p.callback.CbIdle? && !Begun(p)
    requires p.offers > 0 && p.offers + One(p.timer.Joinable()) >= 2
    ensures Fair({}, p, after) && Exec(p, after).fault.AssignOverJoinable?
  {
    var q;
    after, q := ReportOffer({}, p, [], p);
    if !p.timer.Joinable() {
      after, q := ReportOffer({}, p, after, q);
    }
  }

  /** A second local description, while the answer to the first has yet to be sent or cleared. */
  lemma SecondSendFaults(start: Peer, before: seq<PeerStep>, p: Peer) returns (after: seq<PeerStep>)
    requires Ran({}, start, before, p) && p.fault.NoFault? && p.callback.CbIdle? && !Begun(p)
    requires p.delayed && p.handler.Some? && !p.sender.Finished? && (Owes(p.sender) ==> p.description)
    requires p.descriptions > 0 && p.descriptions + One(p.sender.Joinable()) >= 2
    ensures Fair({}, start, after) && Exec(start, after).fault.EmptyHandlerCalled?
  {
    var s, q := before, p;
    if p.sender.NotJoinable? {
      s, q := Emitted({}, start, before, p);
    }
    s, q := Checked({}, start, s, q);
    after, q := HandlerIsLost({}, start, s, q);
  }

  /** The same, where the handler may have yet to be registered. */
  lemma SecondAnswerFaults(p: Peer) returns (after: seq<PeerStep>)
    requires p.fault.NoFault? && p.callback.CbIdle? && !Begun(p)
    requires CanSend(p) && (p.sender.Joinable() ==> p.registered.Some?) && (p.sender.Finished? ==> p.handler.None?)
    requires Owes(p.sender) ==> p.description
    requires p.descriptions > 0 && p.descriptions + One(p.sender.Joinable()) >= 2
    ensures Fair({}, p, after) && Exec(p, after).fault.EmptyHandlerCalled?
  {
    if p.handler.Some? {
      after := SecondSendFaults(p, [], p);
    } else {
      var s, q := Take({}, p, [], p, Register(0));
      after := SecondSendFaults(p, s, q);
    }
  }

  /** What setting the offer again does not make worse. */
  lemma HarmlessOffer(p: Peer, accepted: bool, described: bool)
    requires Sound(p) && Resting(p) && !Begun(p)
    requires p.connected || !SecondChance(p, accepted, described)
    ensures Sound(OfferSet(p, accepted, described))
  {
  }

  /** The library is going to report something a second time for which it must not. */
  predicate SecondChance(p: Peer, accepted: bool, described: bool) {
    (accepted && TimerChances(p) > 0) || (described && CanSend(p) && SendChances(p) > 0)
  }

  /**
  On every sound peer where nothing is running: after a restart, whatever the library makes of it, an
  unsafe continuation exists exactly when the peer was not connected and either the second offer was
  accepted while the first one's timeout thread is to come or not joined, or a second description is to
  come while the answer to the first one is to be sent.
  */
  lemma RestartUnsafeExactly(p: Peer, accepted: bool, described: bool) returns (restart: seq<PeerStep>)
    requires Sound(p) && Resting(p) && !Begun(p)
    ensures Calling(RESTART_CALLS, restart) && Ran(RESTART, p, restart, OfferSet(p, accepted, described))
    ensures CanGoUnsafe(OfferSet(p, accepted, described)) <==> !p.connected && SecondChance(p, accepted, described)
  {
    restart := RunRestart(RESTART, p, accepted, described);
    var q := OfferSet(p, accepted, described);
    if p.connected || !SecondChance(p, accepted, described) {
      HarmlessOffer(p, accepted, described);
      SoundIsNeverUnsafe(q);
    } else if accepted && TimerChances(p) > 0 {
      var after := SecondReportFaults(q);
    } else {
      var after := SecondAnswerFaults(q);
    }
  }

  ghost predicate CanAssignOverJoinable(p: Peer) {
    exists after :: Fair({}, p, after) && Exec(p, after).fault.AssignOverJoinable?
  }

  /**
  In particular, where one offer has been accepted, reported or not: after a restart whose offer the
  library accepts, the assignment over a joinable thread can be reached exactly when the peer was not
  connected.
  */
  lemma RestartFaultsExactly(p: Peer, described: bool) returns (restart: seq<PeerStep>)
    requires Sound(p) && Resting(p) && !Begun(p) && p.offers + One(p.timer.Joinable()) == 1
    ensures Calling(RESTART_CALLS, restart) && Ran(RESTART, p, restart, OfferSet(p, true, described))
    ensures CanAssignOverJoinable(OfferSet(p, true, described)) <==> !p.connected
  {
    restart := RestartUnsafeExactly(p, true, described);
    if !p.connected {
      var after := SecondReportFaults(OfferSet(p, true, described));
    }
  }
}
