/**
Uninterrupted runs of the peer's methods, as schedules of PeerMachine. A joined thread runs to its
end while the joiner waits.
*/
module PeerRuns {
  import opened Basics
  import opened PeerMachine
  import opened PeerSafety

  /** A sound peer, reached from start with all assumptions kept. */
  predicate Run(start: Peer, schedule: seq<PeerStep>, p: Peer) { Sound(p) && Ran({}, start, schedule, p) }

  lemma Follow(start: Peer, schedule: seq<PeerStep>, p: Peer, step: PeerStep)
    returns (longer: seq<PeerStep>, q: Peer)
    requires Run(start, schedule, p) && Keeps({}, p, step) && Disciplined(p, step)
    ensures q == Next(p, step) && Run(start, longer, q)
  {
    SoundStep(p, step);
    longer, q := Take({}, start, schedule, p, step);
  }

  lemma FollowTerminate(start: Peer, schedule: seq<PeerStep>, p: Peer) returns (longer: seq<PeerStep>, q: Peer)
    requires Run(start, schedule, p) && CanTerminate(p)
    ensures q == NextTerminate(p) && Run(start, longer, q)
  {
    longer, q := Follow(start, schedule, p, TerminateStep);
  }

  lemma FollowCallback(start: Peer, schedule: seq<PeerStep>, p: Peer) returns (longer: seq<PeerStep>, q: Peer)
    requires Run(start, schedule, p) && CanCallback(p)
    ensures q == NextCallback(p) && Run(start, longer, q)
  {
    longer, q := Follow(start, schedule, p, CallbackStep);
  }

  lemma FollowReport(p: Peer, event: Event) returns (schedule: seq<PeerStep>, q: Peer)
    requires Sound(p) && p.callback.CbIdle? && Keeps({}, p, Report(event))
    ensures q == NextReport(p, event) && Run(p, schedule, q)
  {
    schedule, q := Follow(p, [], p, Report(event));
  }

  /** The timeout thread, past its check of the completion flag, closes the connection of a peer not connected. */
  predicate Expires(timer: Thread<TimerPc>) { timer == Live(ReadConnected) || timer == Live(CloseNow) }

  /** The timeout thread runs out. */
  lemma {:induction false} RunTimer(start: Peer, before: seq<PeerStep>, p: Peer)
    returns (schedule: seq<PeerStep>, q: Peer)
    requires Run(start, before, p) && p.complete && !p.connected
    ensures q == p.(timer := if p.timer.Live? then Finished else p.timer, closes := p.closes + One(Expires(p.timer)))
    ensures Run(start, schedule, q)
    decreases TimerSteps(p)
  {
    schedule, q := before, p;
    if p.timer.Live? {
      schedule, q := Follow(start, before, p, TimerStep);
      schedule, q := RunTimer(start, schedule, q);
    }
  }

  /** The send thread runs out, answering if it still owes the answer. */
  lemma {:induction false} RunSender(start: Peer, before: seq<PeerStep>, p: Peer)
    returns (schedule: seq<PeerStep>, q: Peer)
    requires Run(start, before, p)
    ensures q == p.(sender := if p.sender.Live? then Finished else p.sender,
                    handler := if p.sender.Live? then None else p.handler,
                    fired := p.fired + One(Owes(p.sender)))
    ensures Run(start, schedule, q)
    decreases SenderSteps(p)
  {
    schedule, q := before, p;
    if p.sender.Live? {
      schedule, q := Follow(start, before, p, SenderStep);
      schedule, q := RunSender(start, schedule, q);
    }
  }

  /** Terminate up to its first join. */
  lemma RunFlags(p: Peer) returns (schedule: seq<PeerStep>, q: Peer)
    requires Sound(p) && Resting(p)
    ensures q == p.(connected := false, complete := true, terminate := TermJoinTimer)
    ensures Run(p, schedule, q)
  {
    schedule, q := Follow(p, [], p, StartTerminate);
    assert q == p.(terminate := TermUnflag);
    schedule, q := FollowTerminate(p, schedule, q);
    schedule, q := FollowTerminate(p, schedule, q);
  }

  lemma RunJoinTimer(start: Peer, before: seq<PeerStep>, p: Peer) returns (schedule: seq<PeerStep>, q: Peer)
    requires Run(start, before, p) && p.terminate.TermJoinTimer? && !p.connected
    ensures q == p.(timer := NotJoinable, closes := p.closes + One(Expires(p.timer)), terminate := TermJoinSender)
    ensures Run(start, schedule, q)
  {
    schedule, q := RunTimer(start, before, p);
    schedule, q := FollowTerminate(start, schedule, q);
  }

  lemma RunJoinSender(start: Peer, before: seq<PeerStep>, p: Peer) returns (schedule: seq<PeerStep>, q: Peer)
    requires Run(start, before, p) && p.terminate.TermJoinSender?
    ensures q == p.(sender := NotJoinable, handler := q.handler,
                    fired := p.fired + One(Owes(p.sender)), terminate := TermClearHandler)
    ensures Run(start, schedule, q)
  {
    schedule, q := RunSender(start, before, p);
    schedule, q := FollowTerminate(start, schedule, q);
  }

  /** Clearing the handler, closing. */
  lemma RunClose(start: Peer, before: seq<PeerStep>, p: Peer) returns (schedule: seq<PeerStep>, q: Peer)
    requires Run(start, before, p) && p.terminate.TermClearHandler?
    ensures q == p.(handler := None, closes := p.closes + One(p.connection),
                    terminate := if p.connection then TermNull else TermRelease)
    ensures Run(start, schedule, q)
  {
    schedule, q := FollowTerminate(start, before, p);
    schedule, q := FollowTerminate(start, schedule, q);
  }

  /** Dropping connection and description. */
  lemma RunDrop(start: Peer, before: seq<PeerStep>, p: Peer) returns (schedule: seq<PeerStep>, q: Peer)
    requires Run(start, before, p) && (if p.connection then p.terminate.TermNull? else p.terminate.TermRelease?)
    ensures q == p.(connection := false, description := false, terminated := true, terminate := NotTerminating)
    ensures Run(start, schedule, q)
  {
    schedule, q := before, p;
    if p.connection {
      schedule, q := FollowTerminate(start, schedule, q);
    }
    schedule, q := FollowTerminate(start, schedule, q);
  }

  /** What an uninterrupted Terminate leaves: the answer a send owes is given, and the connection closed. */
  function Terminated(p: Peer): Peer {
    p.(connected := false, complete := true, timer := NotJoinable, sender := NotJoinable, handler := None,
       closes := p.closes + One(Expires(p.timer)) + One(p.connection), fired := p.fired + One(Owes(p.sender)),
       connection := false, description := false, terminated := true)
  }

  /** Terminate without interruption, its joins included. */
  lemma RunTerminate(p: Peer) returns (schedule: seq<PeerStep>, q: Peer)
    requires Sound(p) && Resting(p)
    ensures q == Terminated(p) && Run(p, schedule, q) && Quiet(q)
  {
    schedule, q := RunJoins(p);
    schedule, q := RunClose(p, schedule, q);
    schedule, q := RunDrop(p, schedule, q);
  }

  /** Terminate up to clearing the handler. */
  lemma RunJoins(p: Peer) returns (schedule: seq<PeerStep>, q: Peer)
    requires Sound(p) && Resting(p)
    ensures q == p.(connected := false, complete := true, timer := NotJoinable, sender := NotJoinable,
                    handler := q.handler, closes := p.closes + One(Expires(p.timer)),
                    fired := p.fired + One(Owes(p.sender)), terminate := TermClearHandler)
    ensures Run(p, schedule, q)
  {
    schedule, q := RunFlags(p);
    schedule, q := RunJoinTimer(p, schedule, q);
    schedule, q := RunJoinSender(p, schedule, q);
  }

  /** A connection callback from its report to its end. */
  lemma RunConnectionChange(p: Peer, event: Event) returns (schedule: seq<PeerStep>, q: Peer)
    requires Sound(p) && p.callback.CbIdle? && Keeps({}, p, Report(event))
    requires event.Connected? || event.Failed? || event.Closed?
    ensures q == p.(connected := event.Connected?, handler := if event.Connected? then None else p.handler,
                    closes := if event.Failed? then p.closes + 1 else p.closes, complete := p.complete || event.Closed?)
    ensures Run(p, schedule, q)
  {
    schedule, q := FollowReport(p, event);
    schedule, q := FollowCallback(p, schedule, q);
    schedule, q := RunSecondHalf(p, schedule, q, event);
  }

  /** The second statement of a connection callback. */
  lemma RunSecondHalf(start: Peer, before: seq<PeerStep>, p: Peer, event: Event)
    returns (schedule: seq<PeerStep>, q: Peer)
    requires Run(start, before, p)
    requires match event
             case Connected => p.callback.CbConnectedClear?
             case Failed => p.callback.CbFailedClose?
             case Closed => p.callback.CbClosedComplete?
             case _ => false
    ensures q == p.(handler := if event.Connected? then None else p.handler, callback := CbIdle,
                    closes := if event.Failed? then p.closes + 1 else p.closes, complete := p.complete || event.Closed?)
    ensures Run(start, schedule, q)
  {
    schedule, q := FollowCallback(start, before, p);
  }

  lemma RunReport(p: Peer) returns (schedule: seq<PeerStep>, q: Peer)
    requires Sound(p) && p.callback.CbIdle? && Keeps({}, p, Report(LocalDescription))
    ensures q == p.(descriptions := Less(p.descriptions), description := true, callback := CbEmitCheck)
    ensures Run(p, schedule, q)
  {
    schedule, q := FollowReport(p, LocalDescription);
    schedule, q := FollowCallback(p, schedule, q);
  }

  /** The send on the callback's own thread. */
  lemma RunSend(start: Peer, before: seq<PeerStep>, p: Peer) returns (schedule: seq<PeerStep>, q: Peer)
    requires Run(start, before, p) && p.callback == CbEmitSend(ReadDescription)
    ensures p.handler.Some? && q == p.(handler := None, fired := p.fired + 1, callback := CbIdle)
    ensures Run(start, schedule, q)
  {
    schedule, q := FollowCallback(start, before, p);
    assert q == p.(callback := CbEmitSend(CallHandler));
    schedule, q := FollowCallback(start, schedule, q);
    schedule, q := RunClear(start, schedule, q);
  }

  lemma RunClear(start: Peer, before: seq<PeerStep>, p: Peer) returns (schedule: seq<PeerStep>, q: Peer)
    requires Run(start, before, p) && p.callback == CbEmitSend(ClearHandler)
    ensures q == p.(handler := None, callback := CbIdle) && Run(start, schedule, q)
  {
    schedule, q := FollowCallback(start, before, p);
  }

  /** EmitLocalSdp past its handler check: spawn the delayed send, or send at once. */
  lemma RunEmit(start: Peer, before: seq<PeerStep>, p: Peer) returns (schedule: seq<PeerStep>, q: Peer)
    requires Run(start, before, p) && p.callback.CbEmitJoin?
    ensures p.handler.Some? && !p.sender.Joinable()
    ensures q == if p.delayed then p.(sender := Live(ReadDescription), callback := CbIdle)
                 else p.(handler := None, fired := p.fired + 1, callback := CbIdle)
    ensures Run(start, schedule, q)
  {
    schedule, q := RunJoin(start, before, p);
    if p.delayed {
      schedule, q := FollowCallback(start, schedule, q);
    } else {
      schedule, q := RunSend(start, schedule, q);
    }
  }

  /** There is never an earlier send to join. */
  lemma RunJoin(start: Peer, before: seq<PeerStep>, p: Peer) returns (schedule: seq<PeerStep>, q: Peer)
    requires Run(start, before, p) && p.callback.CbEmitJoin?
    ensures !p.sender.Joinable()
    ensures q == p.(callback := if p.delayed then CbEmitSpawn else CbEmitSend(ReadDescription))
    ensures Run(start, schedule, q)
  {
    schedule, q := FollowCallback(start, before, p);
  }

  /** What an uninterrupted OnLocalDescription leaves. */
  function Described(p: Peer): Peer {
    var q := p.(description := true, descriptions := Less(p.descriptions));
    if p.handler.None? then q
    else if p.delayed then q.(sender := Live(ReadDescription))
    else q.(handler := None, fired := p.fired + 1)
  }

  /** OnLocalDescription with EmitLocalSdp. */
  lemma RunDescription(p: Peer) returns (schedule: seq<PeerStep>)
    requires Sound(p) && p.callback.CbIdle? && Keeps({}, p, Report(LocalDescription))
    ensures p.handler.Some? ==> !p.sender.Joinable()
    ensures Run(p, schedule, Described(p))
  {
    var q;
    schedule, q := RunReport(p);
    schedule, q := RunCheck(p, schedule, q);
    if p.handler.Some? {
      schedule, q := RunEmit(p, schedule, q);
    }
  }

  lemma RunCheck(start: Peer, before: seq<PeerStep>, p: Peer) returns (schedule: seq<PeerStep>, q: Peer)
    requires Run(start, before, p) && p.callback.CbEmitCheck?
    ensures q == p.(callback := if p.handler.Some? then CbEmitJoin else CbIdle) && Run(start, schedule, q)
  {
    schedule, q := FollowCallback(start, before, p);
  }

  /** OnIceCandidate from its report to its end. */
  lemma RunCandidate(p: Peer) returns (schedule: seq<PeerStep>)
    requires Sound(p) && p.callback.CbIdle? && Keeps({}, p, Report(LocalCandidate))
    ensures Run(p, schedule, p)
  {
    var q;
    schedule, q := FollowReport(p, LocalCandidate);
    schedule, q := FollowCallback(p, schedule, q);
    if p.delayed && p.description {
      assert q == p.(callback := CbCandidateAdd);
      schedule, q := FollowCallback(p, schedule, q);
    }
  }

  lemma {:induction false} RanJoins(dropped: set<Assumption>, p: Peer, a: seq<PeerStep>, b: seq<PeerStep>)
    requires Fair(dropped, p, a) && Fair(dropped, Exec(p, a), b)
    ensures Ran(dropped, p, a + b, Exec(Exec(p, a), b))
  {
    if b == [] {
      assert a + b == a;
    } else {
      RanJoins(dropped, p, a, b[..|b| - 1]);
      assert (a + b)[..|a + b| - 1] == a + b[..|b| - 1];
    }
  }
}

/**
The class RtcPeer. Beside its fields each object keeps the machine state they stand for, and every
method leaves it where some schedule of PeerMachine leads; what is proved over all schedules holds
of the class.
*/
module RtcPeers {
  import opened Basics
  import opened PeerMachine
  import opened PeerSafety
  import opened PeerRestart
  import opened PeerTimer
  import opened PeerRuns
  import opened SdpText

  class RtcPeer {
    const id: string
    const hasCandidatesInSdp: bool
    var onLocalSdp: Option<SessionId>
    var isConnected: bool
    var isComplete: bool
    var peerTimeout: Thread<TimerPc>
    var sentSdpTimeout: Thread<SendPc>
    var hasConnection: bool
    var hasDescription: bool
    /** The sessions whose handler has been run. */
    var responses: seq<SessionId>
    /** The description the library has accepted. */
    var remoteSdp: Option<string>
    ghost var state: Peer

    /** The fields are those of the machine's state, and no method is running. */
    ghost predicate Mirrors() reads this {
      && Resting(state)
      && id == state.id && hasCandidatesInSdp == state.delayed
      && onLocalSdp == state.handler
      && isConnected == state.connected && isComplete == state.complete
      && peerTimeout == state.timer && sentSdpTimeout == state.sender
      && hasConnection == state.connection && hasDescription == state.description
      && |responses| == state.fired
      && (remoteSdp.Some? ==> state.offered)
    }

    ghost predicate Valid() reads this { Sound(state) && Mirrors() }

    constructor (id: string, hasCandidatesInSdp: bool)
      ensures Valid() && state == Fresh(id, hasCandidatesInSdp) && remoteSdp.None?
    {
      this.id, this.hasCandidatesInSdp := id, hasCandidatesInSdp;
      onLocalSdp, isConnected, isComplete := None, false, false;
      peerTimeout, sentSdpTimeout := NotJoinable, NotJoinable;
      hasConnection, hasDescription, responses, remoteSdp := true, false, [], None;
      state := Fresh(id, hasCandidatesInSdp);
    }

    /** The answer a pending send owes is still written; afterwards the peer is quiet for good. */
    method Terminate() returns (ghost schedule: seq<PeerStep>)
      requires Valid()
      modifies this
      ensures Valid() && Ran({}, old(state), schedule, state) && state == Terminated(old(state)) && Quiet(state)
      ensures responses
           == if Owes(old(sentSdpTimeout)) then old(responses) + [old(onLocalSdp).value] else old(responses)
      ensures remoteSdp == old(remoteSdp)
    {
      ghost var p;
      schedule, p := RunTerminate(state);
      isConnected := false;
      isComplete := true;
      if peerTimeout.Joinable() {
        peerTimeout := NotJoinable;
      }
      if sentSdpTimeout.Joinable() {
        if Owes(sentSdpTimeout) {
          responses := responses + [onLocalSdp.value];
        }
        sentSdpTimeout := NotJoinable;
      }
      onLocalSdp := None;
      if hasConnection {
        hasConnection := false;
      }
      hasDescription := false;
      state := p;
    }

    /** OnLocalSdp: the one registration. */
    method OnLocalSdp(session: SessionId) returns (ghost schedule: seq<PeerStep>)
      requires Valid() && state.registered.None? && !Begun(state)
      modifies `onLocalSdp, `state
      ensures Valid() && Ran({}, old(state), schedule, state)
      ensures state == old(state).(handler := Some(session), registered := Some(session))
    {
      onLocalSdp := Some(session);
      schedule, state := Follow(state, [], state, Register(session));
    }

    /**
    A connected peer ignores the description; another hands it to the library, which answers later.
    That leaves a valid peer unless an offer had been made before.
    */
    method SetRemoteSdp(sdp: string, accepted: bool, described: bool) returns (ghost schedule: seq<PeerStep>)
      requires Valid() && !Begun(state)
      modifies `remoteSdp, `state
      ensures Mirrors() && state == OfferSet(old(state), accepted, described)
      ensures Ran(if May({}, old(state)) then {} else RESTART, old(state), schedule, state)
      ensures May({}, old(state)) ==> Valid()
      ensures remoteSdp == if !isConnected && accepted then Some(sdp) else old(remoteSdp)
    {
      ghost var d := if May({}, state) then {} else RESTART;
      schedule := RunSetRemoteSdp(d, state, accepted, described);
      if May({}, state) {
        SoundExec(state, schedule);
      }
      state := OfferSet(state, accepted, described);
      if isConnected {
        return;
      }
      if accepted {
        remoteSdp := Some(sdp);
      }
    }

    /**
    Rewrites the remote description and sets it again: on a connected peer that changes nothing, on
    another the library is given the rewritten text, as a second offer.
    */
    method RestartIce(iceUfrag: string, icePwd: string, accepted: bool, described: bool)
      returns (ghost schedule: seq<PeerStep>)
      requires Valid() && !Begun(state) && remoteSdp.Some?
      requires '$' !in iceUfrag && '$' !in icePwd
      modifies `remoteSdp, `state
      ensures Mirrors() && state == OfferSet(old(state), accepted, described)
      ensures Ran(if isConnected then {} else RESTART, old(state), schedule, state)
      ensures Calling(RESTART_CALLS, schedule)
      ensures isConnected ==> Valid()
      ensures remoteSdp == if !isConnected && accepted
                           then Some(Restarted(old(remoteSdp).value, iceUfrag, icePwd)) else old(remoteSdp)
    {
      schedule := RunRestart(if isConnected then {} else RESTART, state, accepted, described);
      var sdp := RewriteRemote(remoteSdp.value, iceUfrag, icePwd);
      var _ := SetRemoteSdp(sdp, accepted, described);
    }

    /** OnSignalingStateChange(HaveRemoteOffer): start the connect timeout. */
    method OnHaveRemoteOffer() returns (ghost schedule: seq<PeerStep>)
      requires Valid() && Keeps({}, state, Report(HaveRemoteOffer))
      modifies `peerTimeout, `state
      ensures Valid() && Ran({}, old(state), schedule, state)
      ensures old(peerTimeout).NotJoinable?
      ensures state == old(state).(timer := Live(ReadConnection), offers := Less(old(state).offers))
    {
      ghost var p;
      schedule, p := FollowReport(state, HaveRemoteOffer);
      peerTimeout := Live(ReadConnection);
      schedule, state := FollowCallback(state, schedule, p);
    }

    /** The body of the timeout thread. */
    method TimeOut() returns (closed: bool, ghost schedule: seq<PeerStep>)
      requires Valid() && peerTimeout == Live(ReadConnection)
      modifies `peerTimeout, `state
      ensures Valid() && Ran({}, old(state), schedule, state)
      ensures closed <==> !isComplete && !isConnected
      ensures state == old(state).(timer := Finished, closes := old(state).closes + One(closed))
    {
      schedule := TimeoutAlone(state);
      SoundExec(state, schedule);
      closed := hasConnection && !isComplete && !isConnected;
      peerTimeout := Finished;
      state := Exec(state, schedule);
    }

    /** A connected peer ignores the candidate, another gives it to the library. */
    method SetRemoteIce(candidate: string) returns (given: bool, ghost schedule: seq<PeerStep>)
      requires Valid() && !Begun(state)
      modifies `state
      ensures Valid() && Ran({}, old(state), schedule, state)
      ensures given <==> !isConnected
      ensures state == if given then old(state).(added := old(state).added + [candidate]) else old(state)
    {
      schedule := RunPatch({}, state, [candidate], false, false, false);
      SoundExec(state, schedule);
      given := !isConnected;
      state := Exec(state, schedule);
    }

    method OnConnectionChange(event: Event) returns (ghost schedule: seq<PeerStep>)
      requires Valid() && (event.Connected? || event.Failed? || event.Closed?)
      requires Keeps({}, state, Report(event))
      modifies `isConnected, `onLocalSdp, `isComplete, `state
      ensures Valid() && Ran({}, old(state), schedule, state)
      ensures var s := old(state);
              state == match event
                       case Connected => s.(connected := true, handler := None)
                       case Failed => s.(connected := false, closes := s.closes + 1)
                       case _ => s.(connected := false, complete := true)
    {
      if event.Connected? {
        isConnected := true;
        onLocalSdp := None;
      } else if event.Failed? {
        isConnected := false;  // and the connection is closed
      } else {
        isConnected := false;
        isComplete := true;
      }
      schedule, state := RunConnectionChange(state, event);
    }

    /** OnIceCandidate adds the candidate to the description, if that is wanted and there is one. */
    method OnIceCandidate() returns (ghost schedule: seq<PeerStep>)
      requires Valid() && Keeps({}, state, Report(LocalCandidate))
      ensures Valid() && Ran({}, state, schedule, state)
    {
      schedule := RunCandidate(state);
      if hasCandidatesInSdp && hasDescription {
        assert state.description;  // and the candidate is added to it
      }
    }

    /** OnLocalDescription with EmitLocalSdp: answer at once, or a second later on a thread of its own. */
    method OnLocalDescription() returns (ghost schedule: seq<PeerStep>)
      requires Valid() && Keeps({}, state, Report(LocalDescription))
      modifies `hasDescription, `sentSdpTimeout, `onLocalSdp, `responses, `state
      ensures Valid() && Ran({}, old(state), schedule, state)
      ensures state == Described(old(state))
      ensures responses == if old(onLocalSdp).Some? && !hasCandidatesInSdp
                           then old(responses) + [old(onLocalSdp).value] else old(responses)
    {
      schedule := RunDescription(state);
      state := Described(state);
      hasDescription := true;
      if onLocalSdp.Some? {
        if sentSdpTimeout.Joinable() {
          assert false;  // with one description per registration there is no earlier send to join
        }
        if hasCandidatesInSdp {
          sentSdpTimeout := Live(ReadDescription);
        } else {
          responses := responses + [onLocalSdp.value];
          onLocalSdp := None;
        }
      }
    }
  }
}
