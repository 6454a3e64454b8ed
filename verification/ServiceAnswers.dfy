/** Who answers which session, over all interleavings and without any assumption about the library. */
module ServiceAnswers {
  import opened Basics
  import opened PeerMachine
  import opened PeerSafety
  import opened ServiceMachine
  import ServiceSafety
  import Routes

  /** Responses written to a session. */
  function Count(log: seq<Response>, session: SessionId): nat {
    if log == [] then 0
    else Count(log[..|log| - 1], session) + One(log[|log| - 1].session == session)
  }

  lemma CountAppend(log: seq<Response>, response: Response, session: SessionId)
    ensures Count(log + [response], session) == Count(log, session) + One(response.session == session)
  {
    assert (log + [response])[..|log|] == log;
  }

  lemma {:induction false} CountZero(log: seq<Response>, session: SessionId)
    requires Count(log, session) == 0
    ensures forall i :: 0 <= i < |log| ==> log[i].session != session
  {
    if log == [] {
    } else {
      CountZero(log[..|log| - 1], session);
    }
  }

  lemma {:induction false} EntryCounts(log: seq<Response>, response: Response)
    requires response in log
    ensures Count(log, response.session) >= 1
  {
    if log[|log| - 1] != response {
      EntryCounts(log[..|log| - 1], response);
    }
  }

  /** The HTTP thread is in this session's handler and has not written its response. */
  predicate Unanswered(http: Http, session: SessionId) {
    (http.Handling? || http.Registering? || http.Patching? || http.Deleting?) && http.session == session
  }

  /** Once registered, a peer has run its handler as often as its session has been answered. */
  predicate PeerAnswers(s: Service, r: Ref)
    requires r in s.peers
  {
    var p := s.peers[r];
    && OneShot(p) && (p.fault.NoFault? || s.stopped)
    && (p.registered.Some? ==>
          && p.registered.value in s.sessions
          && s.sessions[p.registered.value].peer == Some(r)
          && !Unanswered(s.http, p.registered.value)
          && Count(s.log, p.registered.value) == p.fired)
  }

  /** A session is answered by its own handler, or has exactly one peer that will. */
  predicate SessionAnswered(s: Service, session: SessionId)
    requires session in s.sessions
  {
    match s.sessions[session].peer
    case None =>
      && Count(s.log, session) == One(!Unanswered(s.http, session))
      && (s.http != Handling(session) ==> !PlanFor(s.sessions[session].request).CreatePeer?)
    case Some(r) =>
      && r in s.peers && PlanFor(s.sessions[session].request).CreatePeer?
      && if Unanswered(s.http, session)
         then s.http == Registering(session, r) && s.peers[r].registered.None? && Count(s.log, session) == 0
         else s.peers[r].registered == Some(session)
  }

  predicate Known(s: Service) {
    && (forall k :: k in s.peerMap ==> s.peerMap[k] in s.peers)
    && match s.http
       case Listening => true
       case Handling(session) => session in s.sessions && s.sessions[session].peer.None?
       case Registering(session, r) => r in s.peers && session in s.sessions && s.sessions[session].peer == Some(r)
       case Patching(session, r, _) => r in s.peers && session in s.sessions && s.sessions[session].peer.None?
       case Deleting(session, r, _) => r in s.peers && session in s.sessions && s.sessions[session].peer.None?
       case Offering(_, r) => r in s.peers
       case Releasing(r) => r in s.peers
       case Destroying(r) => r in s.peers
  }

  /** A PATCH that names a resource in the right format, but not what it expects there. */
  predicate LacksIfMatch(req: Request) {
    && req.verb.Patch? && req.contentType == Some("application/trickle-ice-sdpfrag") && req.ifMatch.None?
    && var routes := Routes.Segments(req.target);
       |routes| >= 2 || routes == ["resource"]
  }

  /** Which answers a request can get. */
  predicate Fits(req: Request, status: nat) {
    if status == 200 then req.verb.Patch? && req.ifMatch == Some("*")
    else if status == 201 then req.verb.Post? && req.contentType == Some("application/sdp")
    else if status == 202 then req.verb.Delete? && req.contentType.Some?
    else if status == 204
    then req.verb.Options? || (req.verb.Patch? && req.ifMatch.Some? && req.ifMatch != Some("*"))
    else if status == 405 then req.verb.OtherVerb? && req.contentType.Some?
    else if status == 412 then LacksIfMatch(req)
    else status == 422 && !req.verb.Options? && !LacksIfMatch(req)
         && (req.verb.Post? ==> req.contentType != Some("application/sdp"))
         && (req.verb.OtherVerb? ==> req.contentType.None?)
  }

  lemma PlanFits(req: Request)
    ensures var plan := PlanFor(req);
            match plan
            case Reply(status) => Fits(req, status) && status != CREATED
            case CreatePeer => Fits(req, CREATED)
            case PatchPeer(_, _, status) => Fits(req, status) && Fits(req, UNPROCESSABLE_ENTITY) && status != CREATED
            case DeletePeer(_) => Fits(req, ACCEPTED) && Fits(req, UNPROCESSABLE_ENTITY)
            case OutOfRange => true
  {
  }

  /** 201 goes to the sessions that have a peer, and names that peer; every status fits its request. */
  predicate Rightful(s: Service, response: Response) {
    && response.session in s.sessions
    && var session := s.sessions[response.session];
       && Fits(session.request, response.status)
       && (response.status == CREATED <==> session.peer.Some?)
       && (session.peer.Some? ==>
             && session.peer.value in s.peers
             && response.location == Location(session.request.host, s.peers[session.peer.value].id))
  }

  /** A handler that waits for a peer has an answer ready that fits. */
  predicate Ready(s: Service) {
    && (s.http.Patching? && s.http.session in s.sessions ==>
          Fits(s.sessions[s.http.session].request, s.http.status) && s.http.status != CREATED)
    && (s.http.Deleting? && s.http.session in s.sessions ==> Fits(s.sessions[s.http.session].request, ACCEPTED))
  }

  predicate Answers(s: Service) {
    && Known(s) && Ready(s)
    && (forall r :: r in s.peers ==> PeerAnswers(s, r))
    && (forall session :: session in s.sessions ==> SessionAnswered(s, session))
    && (forall response :: response in s.log ==> Rightful(s, response))
  }

  // ----- what the steps do to it -----

  /** q answers like p. */
  predicate Alike(p: Peer, q: Peer) {
    OneShot(q) && q.fault == p.fault && q.registered == p.registered && q.fired == p.fired && q.id == p.id
  }

  lemma StartRemoteAlike(p: Peer, calls: seq<RemoteCall>)
    requires OneShot(p)
    ensures Alike(p, Next(p, StartRemote(calls)))
  {
    assert Next(p, StartRemote(calls)) == if p.fault.NoFault? && RemoteIdle(p) then p.(remote := calls) else p;
  }

  lemma StartTerminateAlike(p: Peer)
    requires OneShot(p)
    ensures Alike(p, Next(p, StartTerminate))
  {
    var begins := p.fault.NoFault? && p.terminate.NotTerminating?;
    assert Next(p, StartTerminate) == if begins then p.(terminate := TermUnflag) else p;
  }

  lemma RegisterPeer(p: Peer, session: SessionId)
    requires OneShot(p) && p.fault.NoFault? && p.registered.None?
    ensures Next(p, Register(session)) == p.(handler := Some(session), registered := Some(session))
    ensures OneShot(Next(p, Register(session)))
  {
  }

  lemma ReplaceKeeps(s: Service, r: Ref, e: Peer, t: Service)
    requires Answers(s) && r in s.peers && Alike(s.peers[r], e)
    requires t == s.(peers := s.peers[r := e])
    ensures Answers(t)
  {
    forall q | q in t.peers ensures PeerAnswers(t, q) {
      assert PeerAnswers(s, q);
    }
    forall session | session in t.sessions ensures SessionAnswered(t, session) {
      assert SessionAnswered(s, session);
    }
    forall response | response in t.log ensures Rightful(t, response) {
      assert Rightful(s, response);
    }
  }

  /** A call into a peer that neither registers nor runs the handler. */
  lemma TellKeeps(s: Service, r: Ref, step: PeerStep)
    requires Answers(s) && r in s.peers && Alike(s.peers[r], Next(s.peers[r], step))
    ensures Answers(Tell(s, r, step)) && Tell(s, r, step).peers.Keys == s.peers.Keys
  {
    ReplaceKeeps(s, r, Next(s.peers[r], step), Tell(s, r, step));
  }

  /** The HTTP thread, the cleaner or the map move, and no handler begins or ends. */
  lemma MoveKeeps(s: Service, t: Service)
    requires Answers(s) && Known(t) && Ready(t)
    requires t == s.(http := t.http, cleaner := t.cleaner, peerMap := t.peerMap, destroyed := t.destroyed,
                     stopped := t.stopped)
    requires s.stopped ==> t.stopped
    requires forall session :: Unanswered(s.http, session) <==> Unanswered(t.http, session)
    requires s.http.Handling? ==> t.http == s.http || !PlanFor(s.sessions[s.http.session].request).CreatePeer?
    requires s.http.Registering? || t.http.Handling? || t.http.Registering? ==> t.http == s.http
    ensures Answers(t)
  {
    forall q | q in t.peers ensures PeerAnswers(t, q) {
      assert PeerAnswers(s, q);
    }
    forall session | session in t.sessions ensures SessionAnswered(t, session) {
      assert SessionAnswered(s, session);
    }
    forall response | response in t.log ensures Rightful(t, response) {
      assert Rightful(s, response);
    }
  }

  /** A handler answers its own session and is done with it. */
  lemma WriteKeeps(s: Service, session: SessionId, status: nat, t: Service)
    requires Answers(s) && Unanswered(s.http, session) && !s.http.Registering? && status != CREATED
    requires session in s.sessions && Fits(s.sessions[session].request, status)
    requires s.http == Handling(session) ==> !PlanFor(s.sessions[session].request).CreatePeer?
    requires t == Write(s, session, status).(http := t.http, peerMap := t.peerMap)
    requires t.http.Listening? || t.http.Releasing?
    requires Known(t)
    ensures Answers(t)
  {
    forall other { CountAppend(s.log, Response(session, status, ""), other); }
    forall q | q in t.peers ensures PeerAnswers(t, q) {
      assert PeerAnswers(s, q);
    }
    forall other | other in t.sessions ensures SessionAnswered(t, other) {
      assert SessionAnswered(s, other);
    }
    forall response | response in t.log ensures Rightful(t, response) {
      assert response in s.log ==> Rightful(s, response);
    }
  }

  lemma HandlePostKeeps(s: Service, session: SessionId, r: Ref, id: string)
    requires Answers(s) && s.http == Handling(session) && session in s.sessions
    requires PlanFor(s.sessions[session].request).CreatePeer? && r !in s.peers
    ensures Answers(HandlePost(s, session, r, id))
  {
    var t := HandlePost(s, session, r, id);
    PlanFits(s.sessions[session].request);
    assert SessionAnswered(s, session);
    CountZero(s.log, session);
    forall q | q in t.peers ensures PeerAnswers(t, q) {
      assert q != r ==> PeerAnswers(s, q);
    }
    forall other | other in t.sessions ensures SessionAnswered(t, other) {
      assert SessionAnswered(s, other);
    }
    forall response | response in t.log ensures Rightful(t, response) {
      assert Rightful(s, response);
    }
  }

  lemma HandlePatchKeeps(s: Service, session: SessionId, plan: Plan)
    requires Answers(s) && s.http == Handling(session) && session in s.sessions
    requires plan == PlanFor(s.sessions[session].request) && plan.PatchPeer?
    ensures Answers(HandlePatch(s, session, plan))
  {
    var t := HandlePatch(s, session, plan);
    PlanFits(s.sessions[session].request);
    if plan.id in s.peerMap {
      var r := s.peerMap[plan.id];
      assert PeerAnswers(s, r);
      StartRemoteAlike(s.peers[r], plan.calls);
      TellKeeps(s, r, StartRemote(plan.calls));
      MoveKeeps(Tell(s, r, StartRemote(plan.calls)), t);
    } else {
      WriteKeeps(s, session, UNPROCESSABLE_ENTITY, t);
    }
  }

  lemma HandleDeleteKeeps(s: Service, session: SessionId, id: string)
    requires Answers(s) && s.http == Handling(session) && session in s.sessions
    requires PlanFor(s.sessions[session].request) == DeletePeer(id)
    ensures Answers(HandleDelete(s, session, id))
  {
    var t := HandleDelete(s, session, id);
    PlanFits(s.sessions[session].request);
    if id in s.peerMap {
      var r := s.peerMap[id];
      assert PeerAnswers(s, r);
      StartTerminateAlike(s.peers[r]);
      TellKeeps(s, r, StartTerminate);
      MoveKeeps(Tell(s, r, StartTerminate), t);
    } else {
      WriteKeeps(s, session, UNPROCESSABLE_ENTITY, t);
    }
  }

  lemma HandleKeeps(s: Service, session: SessionId, r: Ref, id: string)
    requires Answers(s) && s.http == Handling(session) && session in s.sessions
    ensures Answers(Handle(s, session, r, id))
  {
    var plan := PlanFor(s.sessions[session].request);
    var t := Handle(s, session, r, id);
    PlanFits(s.sessions[session].request);
    match plan
    case Reply(status) => WriteKeeps(s, session, status, t);
    case OutOfRange => MoveKeeps(s, t);
    case CreatePeer =>
      if IsNew(s, r, id) {
        HandlePostKeeps(s, session, r, id);
      }
    case PatchPeer(_, _, _) => HandlePatchKeeps(s, session, plan);
    case DeletePeer(key) => HandleDeleteKeeps(s, session, key);
  }

  /** OnLocalSdp and the start of SetRemoteSdp: the session now belongs to its peer. */
  lemma RegisterKeeps(s: Service, t: Service)
    requires Answers(s) && s.http.Registering? && !s.stopped
    requires var session, r := s.http.session, s.http.ref;
             t == Tell(Tell(s, r, Register(session)), r, StartRemote([SetSdp])).(http := Offering(session, r))
    ensures Answers(t)
  {
    var session, r := s.http.session, s.http.ref;
    assert SessionAnswered(s, session) && PeerAnswers(s, r);
    RegisterPeer(s.peers[r], session);
    StartRemoteAlike(Next(s.peers[r], Register(session)), [SetSdp]);
    RegisteredKeeps(s, session, r, t.peers[r], t);
  }

  lemma RegisteredKeeps(s: Service, session: SessionId, r: Ref, q: Peer, t: Service)
    requires Answers(s) && s.http == Registering(session, r) && !s.stopped
    requires OneShot(q) && q.fault.NoFault? && q.registered == Some(session) && q.id == s.peers[r].id
    requires q.fired == s.peers[r].fired == 0 && s.peers[r].registered.None?
    requires t == s.(peers := s.peers[r := q], http := Offering(session, r))
    ensures Answers(t)
  {
    assert SessionAnswered(s, session) && PeerAnswers(s, r);
    forall o | o in t.peers ensures PeerAnswers(t, o) {
      assert PeerAnswers(s, o);
    }
    forall other | other in t.sessions ensures SessionAnswered(t, other) {
      assert SessionAnswered(s, other);
    }
    forall response | response in t.log ensures Rightful(t, response) {
      assert Rightful(s, response);
    }
  }

  lemma HttpKeeps(s: Service, r: Ref, id: string)
    requires Answers(s) && !s.stopped
    ensures Answers(NextHttp(s, r, id))
  {
    match s.http
    case Handling(session) => HandleKeeps(s, session, r, id);
    case Registering(_, p) => RegisterKeeps(s, NextHttp(s, r, id));
    case Listening =>
    case _ => HttpWaitKeeps(s, r, id);
  }

  /** The HTTP thread when it waits for a peer or lets it go. */
  lemma HttpWaitKeeps(s: Service, r: Ref, id: string)
    requires Answers(s) && !s.stopped && !s.http.Listening? && !s.http.Handling? && !s.http.Registering?
    ensures Answers(NextHttp(s, r, id))
  {
    var t := NextHttp(s, r, id);
    match s.http
    case Offering(_, p) => LeavingKeeps(s, t);
    case Patching(session, p, status) => PatchingKeeps(s, session, p, t);
    case Deleting(session, p, _) => DeletingKeeps(s, session, p, t);
    case Releasing(p) => ReleasingKeeps(s, p, t);
    case Destroying(p) => LeavingKeeps(s, t);
    case _ =>
  }

  /** The HTTP thread stops waiting for a peer it owes nobody an answer for. */
  lemma LeavingKeeps(s: Service, t: Service)
    requires Answers(s) && (s.http.Offering? || s.http.Releasing? || s.http.Destroying?)
    requires t == s.(http := t.http, destroyed := t.destroyed)
    requires t.http == s.http || t.http == Releasing(s.http.ref) || t.http.Listening?
    ensures Answers(t)
  {
    MoveKeeps(s, t);
  }

  lemma PatchingKeeps(s: Service, session: SessionId, p: Ref, t: Service)
    requires Answers(s) && s.http.Patching? && s.http.session == session && s.http.ref == p
    requires t == if RemoteIdle(s.peers[p]) then Write(s, session, s.http.status).(http := Releasing(p)) else s
    ensures Answers(t)
  {
    if t != s { WriteKeeps(s, session, s.http.status, t); }
  }

  lemma ReleasingKeeps(s: Service, p: Ref, t: Service)
    requires Answers(s) && s.http == Releasing(p) && !s.stopped
    requires t == if p in s.peerMap.Values then s.(http := Listening)
                  else Tell(s, p, StartTerminate).(http := Destroying(p))
    ensures Answers(t)
  {
    if p in s.peerMap.Values { LeavingKeeps(s, t); } else { TellThenMoveKeeps(s, p, t); }
  }

  lemma DeletingKeeps(s: Service, session: SessionId, p: Ref, t: Service)
    requires Answers(s) && s.http.Deleting? && s.http.session == session && s.http.ref == p
    requires t == if s.peers[p].terminate.NotTerminating?
                  then Write(s, session, ACCEPTED).(peerMap := s.peerMap - {s.http.key}, http := Releasing(p)) else s
    ensures Answers(t)
  {
    if t != s { WriteKeeps(s, session, ACCEPTED, t); }
  }

  lemma TellThenMoveKeeps(s: Service, p: Ref, t: Service)
    requires Answers(s) && s.http == Releasing(p) && !s.stopped
    requires t == Tell(s, p, StartTerminate).(http := Destroying(p))
    ensures Answers(t)
  {
    assert PeerAnswers(s, p);
    StartTerminateAlike(s.peers[p]);
    TellKeeps(s, p, StartTerminate);
    MoveKeeps(Tell(s, p, StartTerminate), t);
  }

  lemma ScanKeeps(s: Service, todo: set<string>, key: string)
    requires Answers(s)
    ensures Answers(NextScan(s, todo, key))
  {
    var t := NextScan(s, todo, key);
    if t.cleaner.Sweeping? && t.peerMap != s.peerMap {
      SweepKeeps(s, key, s.peerMap[key], t);
    } else {
      EntryKeeps(s, t);
    }
  }

  lemma EntryKeeps(s: Service, t: Service)
    requires Answers(s) && t == s.(cleaner := t.cleaner, peerMap := t.peerMap)
    requires forall key :: key in t.peerMap ==> key in s.peerMap && t.peerMap[key] == s.peerMap[key]
    ensures Answers(t)
  {
    MoveKeeps(s, t);
  }

  lemma SweepKeeps(s: Service, key: string, r: Ref, t: Service)
    requires Answers(s) && r in s.peers
    requires t == Tell(s, r, StartTerminate).(peerMap := s.peerMap - {key}, cleaner := t.cleaner)
    ensures Answers(t)
  {
    assert PeerAnswers(s, r);
    StartTerminateAlike(s.peers[r]);
    TellKeeps(s, r, StartTerminate);
    MoveKeeps(Tell(s, r, StartTerminate), t);
  }

  /** A peer's own step that does not run its handler. */
  lemma SilentKeeps(s: Service, r: Ref, q: Peer, t: Service)
    requires Answers(s) && !s.stopped && r in s.peers && OneShot(q) && q.id == s.peers[r].id
    requires q.registered == s.peers[r].registered && q.fired == s.peers[r].fired
    requires t == s.(peers := s.peers[r := q], stopped := !q.fault.NoFault?)
    ensures Answers(t)
  {
    forall o | o in t.peers ensures PeerAnswers(t, o) {
      assert PeerAnswers(s, o);
    }
    forall session | session in t.sessions ensures SessionAnswered(t, session) {
      assert SessionAnswered(s, session);
    }
    forall response | response in t.log ensures Rightful(t, response) {
      assert Rightful(s, response);
    }
  }

  lemma FiringKeepsPeers(s: Service, r: Ref, q: Peer, session: SessionId, response: Response, t: Service)
    requires Answers(s) && !s.stopped && r in s.peers && OneShot(q) && response.session == session
    requires q.registered == s.peers[r].registered == Some(session) && q.fired == s.peers[r].fired + 1
    requires t == s.(peers := s.peers[r := q], stopped := !q.fault.NoFault?, log := s.log + [response])
    ensures forall o :: o in t.peers ==> PeerAnswers(t, o)
  {
    forall o | o in t.peers ensures PeerAnswers(t, o) {
      assert PeerAnswers(s, o);
      if t.peers[o].registered.Some? { CountAppend(s.log, response, t.peers[o].registered.value); }
    }
  }

  /** One that does: the response goes to the session that registered, which had none. */
  lemma FiringKeeps(s: Service, r: Ref, q: Peer, session: SessionId, t: Service)
    requires Answers(s) && !s.stopped && r in s.peers && OneShot(q) && q.id == s.peers[r].id
    requires q.registered == s.peers[r].registered == Some(session) && q.fired == s.peers[r].fired + 1
    requires t == s.(peers := s.peers[r := q], stopped := !q.fault.NoFault?,
                     log := s.log + [Response(session, CREATED, Location(HostOf(s, session), q.id))])
    ensures Answers(t)
  {
    var response := Response(session, CREATED, Location(HostOf(s, session), q.id));
    assert PeerAnswers(s, r) && SessionAnswered(s, session);
    PlanFits(s.sessions[session].request);
    FiringKeepsPeers(s, r, q, session, response, t);
    forall other | other in t.sessions ensures SessionAnswered(t, other) {
      assert SessionAnswered(s, other);
      CountAppend(s.log, response, other);
    }
    forall entry | entry in t.log ensures Rightful(t, entry) {
      assert entry in s.log ==> Rightful(s, entry);
    }
  }

  /** A peer's own step, with the response if its handler runs. */
  lemma OfPeerKeeps(s: Service, r: Ref, step: PeerStep)
    requires Answers(s) && !s.stopped && r in s.peers && Internal(step)
    ensures Answers(NextOfPeer(s, r, step))
  {
    var p, q, t := s.peers[r], Next(s.peers[r], step), NextOfPeer(s, r, step);
    assert PeerAnswers(s, r);
    OneShotStep(p, step);
    FiresOneAtATime(p, step);
    ServiceSafety.InternalFrame(p, step);
    if q.fired > p.fired {
      FiringKeeps(s, r, q, p.handler.value, t);
    } else {
      SilentKeeps(s, r, q, t);
    }
  }

  lemma {:induction false} NoEntryNoCount(log: seq<Response>, session: SessionId)
    requires forall response :: response in log ==> response.session != session
    ensures Count(log, session) == 0
  {
    if log == [] {
    } else {
      assert forall response :: response in log[..|log| - 1] ==> response in log;
      NoEntryNoCount(log[..|log| - 1], session);
    }
  }

  lemma AcceptKeeps(s: Service, session: SessionId, request: Request)
    requires Answers(s) && s.http.Listening? && session !in s.sessions
    ensures Answers(s.(sessions := s.sessions[session := Session(request, None)], http := Handling(session)))
  {
    var t := s.(sessions := s.sessions[session := Session(request, None)], http := Handling(session));
    forall response | response in s.log ensures response.session != session {
      assert Rightful(s, response);
    }
    NoEntryNoCount(s.log, session);
    forall q | q in t.peers ensures PeerAnswers(t, q) {
      assert PeerAnswers(s, q);
    }
    forall other | other in t.sessions ensures SessionAnswered(t, other) {
      assert other != session ==> SessionAnswered(s, other);
    }
    forall response | response in t.log ensures Rightful(t, response) {
      assert Rightful(s, response);
    }
  }

  lemma CleanerKeeps(s: Service, t: Service)
    requires Answers(s) && t == s.(cleaner := t.cleaner, destroyed := t.destroyed)
    ensures Answers(t)
  {
    MoveKeeps(s, t);
  }

  lemma AnswersStep(s: Service, step: Step)
    requires Answers(s)
    ensures Answers(NextService(s, step))
  {
    var t := NextService(s, step);
    if !s.stopped {
      match step
      case Accept(session, request) =>
        if s.http.Listening? && session !in s.sessions { AcceptKeeps(s, session, request); }
      case HttpStep(r, id) => HttpKeeps(s, r, id);
      case Wake => CleanerKeeps(s, t);
      case Scan(key) => if s.cleaner.Scanning? { ScanKeeps(s, s.cleaner.todo, key); }
      case SweepDone => CleanerKeeps(s, t);
      case Rest => CleanerKeeps(s, t);
      case OfPeer(r, peerStep) => if r in s.peers && Internal(peerStep) { OfPeerKeeps(s, r, peerStep); }
    }
  }

  lemma {:induction false} AnswersAlways(schedule: seq<Step>)
    ensures Answers(Serve(schedule))
  {
    if schedule == [] {
    } else {
      AnswersAlways(schedule[..|schedule| - 1]);
      AnswersStep(Serve(schedule[..|schedule| - 1]), schedule[|schedule| - 1]);
    }
  }

  // ----- what it means -----

  /** In every interleaving each session gets at most one response. */
  lemma AtMostOneResponse(schedule: seq<Step>, session: SessionId)
    ensures Count(Serve(schedule).log, session) <= 1
  {
    AnswersAlways(schedule);
    var s := Serve(schedule);
    if session in s.sessions {
      assert SessionAnswered(s, session);
      if s.sessions[session].peer.Some? {
        assert PeerAnswers(s, s.sessions[session].peer.value);
      }
    } else {
      forall response | response in s.log ensures response.session != session {
        assert Rightful(s, response);
      }
      NoEntryNoCount(s.log, session);
    }
  }

  /** In every interleaving each response has a status that fits the request of its session. */
  lemma StatusFitsRequest(schedule: seq<Step>, response: Response)
    requires response in Serve(schedule).log
    ensures var s := Serve(schedule);
            response.session in s.sessions && Fits(s.sessions[response.session].request, response.status)
  {
    AnswersAlways(schedule);
    assert Rightful(Serve(schedule), response);
  }

  /** Exactly a PATCH that lacks If-Match, and is well formed otherwise, is answered 412. */
  lemma PreconditionFailedExactly(schedule: seq<Step>, response: Response)
    requires response in Serve(schedule).log
    ensures var s := Serve(schedule);
            && response.session in s.sessions
            && (response.status == 412 <==> LacksIfMatch(s.sessions[response.session].request))
  {
    StatusFitsRequest(schedule, response);
  }

  /** A session whose request creates no peer has exactly one response once its handler is past writing. */
  lemma ExactlyOneResponse(schedule: seq<Step>, session: SessionId)
    requires var s := Serve(schedule);
             && session in s.sessions && !Unanswered(s.http, session)
             && !PlanFor(s.sessions[session].request).CreatePeer?
    ensures Count(Serve(schedule).log, session) == 1
  {
    AnswersAlways(schedule);
    assert SessionAnswered(Serve(schedule), session);
  }

  predicate AnsweredBy(s: Service, response: Response, r: Ref)
    requires r in s.peers && response.session in s.sessions
  {
    && s.peers[r].registered == Some(response.session) && s.peers[r].fired == 1
    && response.location == "https://" + s.sessions[response.session].request.host + ("/resource/" + s.peers[r].id)
  }

  /** 201 goes exactly to the sessions whose request creates a peer, and nothing else goes to them. */
  lemma CreatedAnswersPosts(schedule: seq<Step>, response: Response)
    requires response in Serve(schedule).log
    ensures var s := Serve(schedule);
            && response.session in s.sessions
            && (response.status == 201 <==> PlanFor(s.sessions[response.session].request).CreatePeer?)
  {
    AnswersAlways(schedule);
    var s := Serve(schedule);
    assert Rightful(s, response) && SessionAnswered(s, response.session);
    if Unanswered(s.http, response.session) {
      EntryCounts(s.log, response);
    }
  }

  /** 201 comes only from the one-shot handler of the peer that the session's own POST created, and names that peer. */
  lemma CreatedComesFromOwnPeer(schedule: seq<Step>, response: Response) returns (r: Ref)
    requires response in Serve(schedule).log && response.status == 201
    ensures var s := Serve(schedule);
            response.session in s.sessions && r in s.peers && AnsweredBy(s, response, r)
  {
    AnswersAlways(schedule);
    var s := Serve(schedule);
    assert Rightful(s, response) && SessionAnswered(s, response.session);
    r := s.sessions[response.session].peer.value;
    LocationIs(s.sessions[response.session].request.host, s.peers[r].id);
    assert PeerAnswers(s, r);
    EntryCounts(s.log, response);
  }

  /** A PATCH or DELETE without the path segment that its handler reads. */
  predicate MissesRoute(req: Request) {
    var routes := Routes.Segments(req.target);
    && (routes == [] || routes == ["resource"])
    && match req.verb
       case Delete => req.contentType.Some?
       case Patch => req.contentType == Some("application/trickle-ice-sdpfrag") && (routes == [] || req.ifMatch.Some?)
       case _ => false
  }

  /** Only such a request, as the routes are read, leaves the vector. */
  lemma OutOfRangeExactly(req: Request)
    ensures PlanFor(req).OutOfRange? <==> MissesRoute(req)
  {
  }

  /** A step of the HTTP thread stops the process exactly if it handles such a request. */
  lemma HttpStopsExactly(s: Service, r: Ref, id: string)
    requires !s.stopped && (s.http.Handling? ==> s.http.session in s.sessions)
    ensures NextHttp(s, r, id).stopped <==> s.http.Handling? && MissesRoute(s.sessions[s.http.session].request)
  {
    match s.http
    case Handling(session) => OutOfRangeExactly(s.sessions[session].request);
    case Listening =>
    case Registering(_, _) =>
    case Offering(_, _) =>
    case Patching(_, _, _) =>
    case Deleting(_, _, _) =>
    case Releasing(_) =>
    case Destroying(_) =>
  }

  /** In every interleaving the process stops only there, or where a peer faults, and then at once. */
  lemma StopsExactly(schedule: seq<Step>, step: Step)
    requires !Serve(schedule).stopped
    ensures var s := Serve(schedule);
            NextService(s, step).stopped <==>
            match step
            case HttpStep(_, _) =>
              s.http.Handling? && s.http.session in s.sessions && MissesRoute(s.sessions[s.http.session].request)
            case OfPeer(r, peerStep) =>
              r in s.peers && r !in s.destroyed && Internal(peerStep) && !Next(s.peers[r], peerStep).fault.NoFault?
            case _ => false
  {
    AnswersAlways(schedule);
    var s := Serve(schedule);
    match step
    case HttpStep(r, id) => HttpStopsExactly(s, r, id);
    case Scan(key) =>
    case _ =>
  }
}
