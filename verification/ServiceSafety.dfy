/**
The service drives its peers the way PeerSafety asks for, so under the assumptions about the library
no interleaving stops the process; and the peer map never leads to a terminated peer.
*/
module ServiceSafety {
  import opened Basics
  import opened PeerMachine
  import opened PeerSafety
  import opened ServiceMachine

  /** Whoever runs a Terminate of r, if one is running. */
  predicate Terminating(s: Service, r: Ref) {
    || (s.http.Deleting? && s.http.ref == r)
    || s.http == Destroying(r)
    || (s.cleaner.Sweeping? && s.cleaner.ref == r)
  }

  /** The HTTP thread is setting r up or patching it. */
  predicate InUse(s: Service, r: Ref) {
    (s.http.Registering? || s.http.Offering? || s.http.Patching?) && s.http.ref == r
  }

  predicate PeerPlaced(s: Service, r: Ref)
    requires r in s.peers
  {
    var p := s.peers[r];
    && Sound(p)
    && (!p.terminate.NotTerminating? ==> Terminating(s, r))
    && (Begun(p) ==> !InUse(s, r))
    && (!RemoteIdle(p) ==> InUse(s, r) && !s.http.Registering?)
    && (s.http.Registering? && s.http.ref == r ==> p.registered.None?)
  }

  /** A map entry leads to a live peer with that id; only while DELETE terminates it may it have begun to end. */
  predicate KeyPlaced(s: Service, key: string)
    requires key in s.peerMap
  {
    var r := s.peerMap[key];
    && r in s.peers && r !in s.destroyed && s.peers[r].id == key
    && (Begun(s.peers[r]) ==> s.http.Deleting? && s.http.ref == r)
    && !(s.cleaner.Sweeping? && s.cleaner.ref == r) && s.http != Destroying(r)
  }

  predicate HttpPlaced(s: Service) {
    && (s.http.Handling? ==> s.http.session in s.sessions)
    && (!s.http.Listening? && !s.http.Handling? ==>
          && s.http.ref in s.peers && s.http.ref !in s.destroyed
          && !(s.cleaner.Sweeping? && s.cleaner.ref == s.http.ref))
    && (s.http.Deleting? && s.http.ref in s.peers ==> s.http.key == s.peers[s.http.ref].id)
  }

  predicate CleanerPlaced(s: Service) {
    && s.destroyed <= s.peers.Keys
    && (s.cleaner.Sweeping? ==> s.cleaner.ref in s.peers && s.cleaner.ref !in s.destroyed)
  }

  ghost predicate IdsDiffer(s: Service) {
    forall q, r :: q in s.peers && r in s.peers && s.peers[q].id == s.peers[r].id ==> q == r
  }

  ghost predicate Safe(s: Service) {
    && !s.stopped
    && (forall r :: r in s.peers ==> PeerPlaced(s, r))
    && (forall key :: key in s.peerMap ==> KeyPlaced(s, key))
    && HttpPlaced(s) && CleanerPlaced(s) && IdsDiffer(s)
  }

  /** The peer that this step starts to terminate, if any. */
  function Ends(s: Service, step: Step): Option<Ref> {
    match step
    case HttpStep(_, _) =>
      (match s.http
       case Handling(session) =>
         if session !in s.sessions then None else
         var plan := PlanFor(s.sessions[session].request);
         if plan.DeletePeer? && plan.id in s.peerMap then Some(s.peerMap[plan.id]) else None
       case Releasing(r) => if r in s.peerMap.Values then None else Some(r)
       case _ => None)
    case Scan(key) => if key in s.peerMap && !Held(s.http, s.peerMap[key]) then Some(s.peerMap[key]) else None
    case _ => None
  }

  /** What is assumed: of the library and of scheduling as in PeerMachine, and that targets name a resource. */
  ghost predicate Assumed(s: Service, step: Step) {
    && (step.OfPeer? && step.ref in s.peers ==> Keeps({}, s.peers[step.ref], step.step))
    && (Ends(s, step).Some? && Ends(s, step).value in s.peers ==>
          Keeps({}, s.peers[Ends(s, step).value], StartTerminate))
    && (step.HttpStep? && s.http.Handling? && s.http.session in s.sessions ==>
          !PlanFor(s.sessions[s.http.session].request).OutOfRange?)
  }

  ghost predicate AssumedThroughout(schedule: seq<Step>) {
    schedule == [] ||
    var before := schedule[..|schedule| - 1];
    AssumedThroughout(before) && Assumed(Serve(before), schedule[|schedule| - 1])
  }

  // ----- what a peer sees of a call -----

  lemma StartTerminateSound(p: Peer)
    requires Sound(p) && RemoteIdle(p) && Keeps({}, p, StartTerminate)
    ensures var q := Next(p, StartTerminate);
            Sound(q) && RemoteIdle(q) && q.id == p.id && Begun(q) && q.registered == p.registered
  {
    SoundStep(p, StartTerminate);
  }

  lemma StartRemoteSound(p: Peer, calls: seq<RemoteCall>)
    requires Sound(p) && !Begun(p)
    ensures var q := Next(p, StartRemote(calls));
            Sound(q) && q.id == p.id && !Begun(q) && q.terminate == p.terminate && q.registered == p.registered
  {
    assert Keeps({}, p, StartRemote(calls));
    SoundStep(p, StartRemote(calls));
  }

  lemma RegisterSound(p: Peer, session: SessionId)
    requires Sound(p) && !Begun(p)
    ensures var q := Next(p, Register(session));
            Sound(q) && q.id == p.id && !Begun(q) && q.terminate == p.terminate
  {
    assert Keeps({}, p, Register(session));
    SoundStep(p, Register(session));
  }

  lemma CallsFrame(p: Peer)
    ensures CanTerminate(p) ==> SameToService(p, NextTerminate(p))
    ensures forall choice :: !RemoteIdle(p) ==> SameToService(p, NextRemote(p, choice))
  {
  }

  lemma ThreadsFrame(p: Peer)
    ensures SameToService(p, NextCallback(p))
    ensures p.timer.Live? ==> SameToService(p, NextTimer(p))
    ensures p.sender.Live? ==> SameToService(p, NextSender(p))
  {
  }

  lemma ReportFrame(p: Peer, event: Event)
    ensures SameToService(p, NextReport(p, event))
  {
  }

  /** A peer's own step starts no Terminate and no remote call. */
  lemma InternalFrame(p: Peer, step: PeerStep)
    requires Internal(step)
    ensures SameToService(p, Next(p, step))
  {
    match step
    case RemoteStep(_) => CallsFrame(p);
    case TerminateStep => CallsFrame(p);
    case Report(event) => ReportFrame(p, event);
    case CallbackStep => ThreadsFrame(p);
    case TimerStep => ThreadsFrame(p);
    case SenderStep => ThreadsFrame(p);
    case _ =>
  }

  predicate SameToService(p: Peer, q: Peer) {
    && q.id == p.id && q.registered == p.registered
    && (Begun(q) <==> Begun(p))
    && (RemoteIdle(p) ==> RemoteIdle(q))
    && (p.terminate.NotTerminating? ==> q.terminate.NotTerminating?)
  }

  // ----- the steps of the service -----

  lemma UpdatePeers(s: Service, r: Ref, q: Peer, t: Service)
    requires Safe(s) && r in s.peers && Sound(q) && SameToService(s.peers[r], q)
    requires t == s.(peers := s.peers[r := q], log := t.log)
    ensures forall u :: u in t.peers ==> PeerPlaced(t, u)
  {
    assert PeerPlaced(s, r);
    forall u | u in t.peers ensures PeerPlaced(t, u) {
      assert PeerPlaced(s, u);
    }
  }

  lemma UpdateSafe(s: Service, r: Ref, q: Peer, t: Service)
    requires Safe(s) && r in s.peers && Sound(q) && SameToService(s.peers[r], q)
    requires t == s.(peers := s.peers[r := q], log := t.log)
    ensures Safe(t)
  {
    UpdatePeers(s, r, q, t);
    forall key | key in t.peerMap ensures KeyPlaced(t, key) {
      assert KeyPlaced(s, key);
    }
  }

  lemma OfPeerSafe(s: Service, r: Ref, step: PeerStep)
    requires Safe(s) && r in s.peers && Internal(step) && Keeps({}, s.peers[r], step)
    ensures Safe(NextOfPeer(s, r, step))
  {
    assert PeerPlaced(s, r);
    SoundStep(s.peers[r], step);
    InternalFrame(s.peers[r], step);
    UpdateSafe(s, r, Next(s.peers[r], step), NextOfPeer(s, r, step));
  }

  /** The HTTP thread and the cleaner move, entries may leave the map; no peer changes. */
  lemma MoveSafe(s: Service, t: Service)
    requires Safe(s) && HttpPlaced(t) && CleanerPlaced(t)
    requires t == s.(http := t.http, cleaner := t.cleaner, peerMap := t.peerMap, destroyed := t.destroyed,
                     log := t.log, sessions := t.sessions)
    requires forall key :: key in t.peerMap ==> key in s.peerMap && t.peerMap[key] == s.peerMap[key]
    requires forall r :: r in s.peers && !s.peers[r].terminate.NotTerminating? ==> Terminating(t, r)
    requires forall r :: r in s.peers && !RemoteIdle(s.peers[r]) ==> InUse(t, r) && !t.http.Registering?
    requires forall r :: InUse(t, r) ==> InUse(s, r)
    requires t.http.Registering? ==> t.http == s.http
    requires forall key :: key in t.peerMap ==>
               var r := t.peerMap[key];
               && r !in t.destroyed && !(t.cleaner.Sweeping? && t.cleaner.ref == r) && t.http != Destroying(r)
               && (r in s.peers && Begun(s.peers[r]) ==> t.http.Deleting? && t.http.ref == r)
    ensures Safe(t)
  {
    forall r | r in t.peers ensures PeerPlaced(t, r) {
      assert PeerPlaced(s, r);
    }
    forall key | key in t.peerMap ensures KeyPlaced(t, key) {
      assert KeyPlaced(s, key);
    }
  }

  lemma FreshSound(id: string)
    ensures var p := Fresh(id, true); Sound(p) && !Begun(p) && RemoteIdle(p) && p.registered.None?
  {
  }

  lemma HandlePostSafe(s: Service, session: SessionId, r: Ref, id: string)
    requires Safe(s) && s.http == Handling(session) && IsNew(s, r, id)
    ensures Safe(HandlePost(s, session, r, id))
  {
    var t := HandlePost(s, session, r, id);
    FreshSound(id);
    forall q | q in t.peers ensures PeerPlaced(t, q) {
      assert q != r ==> PeerPlaced(s, q);
    }
    forall key | key in t.peerMap ensures KeyPlaced(t, key) {
      assert key != id ==> KeyPlaced(s, key);
    }
  }

  /** A Terminate of r begins, on the HTTP thread or on the cleaner's, and makes e of it. */
  ghost predicate BeginsHere(s: Service, r: Ref, e: Peer, t: Service)
    requires r in s.peers
  {
    && t == s.(peers := s.peers[r := e], http := t.http, cleaner := t.cleaner, peerMap := t.peerMap)
    && Terminating(t, r) && (forall q :: Terminating(s, q) ==> Terminating(t, q))
    && !InUse(s, r) && (forall q :: InUse(t, q) <==> InUse(s, q)) && (t.http.Registering? ==> t.http == s.http)
    && (forall key :: key in t.peerMap ==> key in s.peerMap && t.peerMap[key] == s.peerMap[key])
    && (forall key :: key in t.peerMap ==>
          var q := t.peerMap[key];
          && !(t.cleaner.Sweeping? && t.cleaner.ref == q) && t.http != Destroying(q)
          && (q == r || (q in s.peers && Begun(s.peers[q])) ==> t.http.Deleting? && t.http.ref == q))
    && HttpPlaced(t) && CleanerPlaced(t)
  }

  lemma BeginsPeers(s: Service, r: Ref, e: Peer, t: Service)
    requires Safe(s) && r in s.peers && BeginsHere(s, r, e, t)
    requires Sound(e) && RemoteIdle(e) && e.registered == s.peers[r].registered
    ensures forall q :: q in t.peers ==> PeerPlaced(t, q)
  {
    assert PeerPlaced(s, r);
    forall q | q in t.peers ensures PeerPlaced(t, q) {
      assert PeerPlaced(s, q);
    }
  }

  lemma BeginsSafe(s: Service, r: Ref, t: Service)
    requires Safe(s) && r in s.peers && r !in s.destroyed
    requires RemoteIdle(s.peers[r]) && Keeps({}, s.peers[r], StartTerminate)
    requires BeginsHere(s, r, Next(s.peers[r], StartTerminate), t)
    ensures Safe(t)
  {
    assert PeerPlaced(s, r);
    StartTerminateSound(s.peers[r]);
    BeginsPeers(s, r, Next(s.peers[r], StartTerminate), t);
    forall key | key in t.peerMap ensures KeyPlaced(t, key) {
      assert KeyPlaced(s, key);
    }
  }

  lemma NobodyInUse(s: Service, r: Ref)
    requires Safe(s) && r in s.peers && !InUse(s, r)
    ensures RemoteIdle(s.peers[r]) && Sound(s.peers[r])
  {
    assert PeerPlaced(s, r);
  }

  lemma DeleteBeginsSafe(s: Service, id: string, r: Ref, t: Service)
    requires Safe(s) && s.http.Handling? && id in s.peerMap && s.peerMap[id] == r && r in s.peers
    requires Keeps({}, s.peers[r], StartTerminate)
    requires t == s.(peers := s.peers[r := Next(s.peers[r], StartTerminate)], http := Deleting(s.http.session, r, id))
    ensures Safe(t)
  {
    assert KeyPlaced(s, id);
    NobodyInUse(s, r);
    forall key | key in t.peerMap ensures KeyPlaced(s, key) {}
    StartTerminateSound(s.peers[r]);
    BeginsSafe(s, r, t);
  }

  lemma HandleDeleteSafe(s: Service, session: SessionId, id: string)
    requires Safe(s) && s.http == Handling(session)
    requires id in s.peerMap && s.peerMap[id] in s.peers ==> Keeps({}, s.peers[s.peerMap[id]], StartTerminate)
    ensures Safe(HandleDelete(s, session, id))
  {
    var t := HandleDelete(s, session, id);
    if id in s.peerMap {
      assert KeyPlaced(s, id);
      DeleteBeginsSafe(s, id, s.peerMap[id], t);
    } else {
      MoveSafe(s, t);
    }
  }

  lemma PatchBeginsSafe(s: Service, r: Ref, q: Peer, t: Service)
    requires Safe(s) && s.http.Handling? && r in s.peers && r !in s.destroyed
    requires !(s.cleaner.Sweeping? && s.cleaner.ref == r)
    requires var p := s.peers[r];
             Sound(q) && q.id == p.id && !Begun(q) && q.terminate == p.terminate && q.registered == p.registered
    requires t.http.Patching? && t.http.ref == r && t == s.(peers := s.peers[r := q], http := t.http)
    ensures Safe(t)
  {
    forall o | o in t.peers ensures PeerPlaced(t, o) {
      assert PeerPlaced(s, o);
    }
    forall key | key in t.peerMap ensures KeyPlaced(t, key) {
      assert KeyPlaced(s, key);
    }
  }

  lemma HandlePatchSafe(s: Service, session: SessionId, plan: Plan)
    requires Safe(s) && s.http == Handling(session) && plan.PatchPeer?
    ensures Safe(HandlePatch(s, session, plan))
  {
    var t := HandlePatch(s, session, plan);
    if plan.id in s.peerMap {
      var r := s.peerMap[plan.id];
      assert KeyPlaced(s, plan.id) && PeerPlaced(s, r);
      StartRemoteSound(s.peers[r], plan.calls);
      PatchBeginsSafe(s, r, Next(s.peers[r], StartRemote(plan.calls)), t);
    } else {
      MoveSafe(s, t);
    }
  }

  lemma HandleSafe(s: Service, session: SessionId, r: Ref, id: string)
    requires Safe(s) && s.http == Handling(session) && session in s.sessions
    requires Assumed(s, HttpStep(r, id))
    ensures Safe(Handle(s, session, r, id))
  {
    var plan := PlanFor(s.sessions[session].request);
    match plan
    case Reply(status) => MoveSafe(s, Handle(s, session, r, id));
    case OutOfRange =>
    case CreatePeer => if IsNew(s, r, id) { HandlePostSafe(s, session, r, id); }
    case PatchPeer(_, _, _) => HandlePatchSafe(s, session, plan);
    case DeletePeer(key) => HandleDeleteSafe(s, session, key);
  }

  lemma RegisteredSound(p: Peer, session: SessionId)
    requires Sound(p) && !Begun(p)
    ensures var q := Next(Next(p, Register(session)), StartRemote([SetSdp]));
            Sound(q) && q.id == p.id && !Begun(q) && q.terminate == p.terminate
  {
    RegisterSound(p, session);
    StartRemoteSound(Next(p, Register(session)), [SetSdp]);
  }

  lemma RegisterSafe(s: Service, q: Peer, t: Service)
    requires Safe(s) && s.http.Registering?
    requires q == Next(Next(s.peers[s.http.ref], Register(s.http.session)), StartRemote([SetSdp]))
    requires t == s.(peers := s.peers[s.http.ref := q], http := Offering(s.http.session, s.http.ref))
    ensures Safe(t)
  {
    assert PeerPlaced(s, s.http.ref);
    RegisteredSound(s.peers[s.http.ref], s.http.session);
    forall r | r in t.peers ensures PeerPlaced(t, r) {
      assert PeerPlaced(s, r);
    }
    forall key | key in t.peerMap ensures KeyPlaced(t, key) {
      assert KeyPlaced(s, key);
    }
  }

  /** DELETE is done: only its own key leaves the map, and no other key led to the peer. */
  lemma DeletedSafe(s: Service, t: Service)
    requires Safe(s) && s.http.Deleting? && s.peers[s.http.ref].terminate.NotTerminating?
    requires t == Write(s, s.http.session, ACCEPTED)
                    .(peerMap := s.peerMap - {s.http.key}, http := Releasing(s.http.ref))
    ensures Safe(t)
  {
    forall key | key in t.peerMap ensures t.peerMap[key] != s.http.ref {
      assert KeyPlaced(s, key);
    }
    forall r | r in s.peers ensures PeerPlaced(s, r) {}
    forall key | key in t.peerMap ensures KeyPlaced(s, key) {}
    MoveSafe(s, t);
  }

  lemma ReleaseSafe(s: Service, p: Ref, t: Service)
    requires Safe(s) && s.http == Releasing(p) && p !in s.peerMap.Values
    requires Keeps({}, s.peers[p], StartTerminate)
    requires t == Tell(s, p, StartTerminate).(http := Destroying(p))
    ensures Safe(t)
  {
    NobodyInUse(s, p);
    forall key | key in t.peerMap ensures KeyPlaced(s, key) && s.peerMap[key] != p {
      assert s.peerMap[key] in s.peerMap.Values;
    }
    StartTerminateSound(s.peers[p]);
    BeginsSafe(s, p, t);
  }

  /** The HTTP thread stops waiting for p. */
  lemma WaitOverSafe(s: Service, p: Ref, t: Service)
    requires Safe(s) && (s.http.Offering? || s.http.Patching? || s.http.Destroying?) && p == s.http.ref
    requires if s.http.Destroying? then s.peers[p].terminate.NotTerminating? else RemoteIdle(s.peers[p])
    requires t == s.(http := t.http, log := t.log, destroyed := t.destroyed)
    requires if s.http.Destroying? then t.http.Listening? && t.destroyed == s.destroyed + {p}
             else t.http == Releasing(p) && t.destroyed == s.destroyed
    ensures Safe(t)
  {
    forall q | q in s.peers ensures PeerPlaced(s, q) {}
    forall key | key in t.peerMap ensures KeyPlaced(s, key) {}
    MoveSafe(s, t);
  }

  lemma WaitSafe(s: Service, r: Ref, id: string)
    requires Safe(s) && (s.http.Offering? || s.http.Patching? || s.http.Destroying?)
    ensures Safe(NextHttp(s, r, id))
  {
    var t := NextHttp(s, r, id);
    match s.http
    case Offering(_, p) => if RemoteIdle(s.peers[p]) { WaitOverSafe(s, p, t); }
    case Patching(_, p, _) => if RemoteIdle(s.peers[p]) { WaitOverSafe(s, p, t); }
    case Destroying(p) => if s.peers[p].terminate.NotTerminating? { WaitOverSafe(s, p, t); }
  }

  lemma ListenSafe(s: Service, t: Service)
    requires Safe(s) && s.http.Releasing? && t == s.(http := Listening)
    ensures Safe(t)
  {
    forall q | q in s.peers ensures PeerPlaced(s, q) {}
    forall key | key in s.peerMap ensures KeyPlaced(s, key) {}
    MoveSafe(s, t);
  }

  lemma ReleasingSafe(s: Service, p: Ref, r: Ref, id: string)
    requires Safe(s) && s.http == Releasing(p) && Assumed(s, HttpStep(r, id))
    ensures Safe(NextHttp(s, r, id))
  {
    if p in s.peerMap.Values {
      ListenSafe(s, s.(http := Listening));
    } else {
      ReleaseSafe(s, p, NextHttp(s, r, id));
    }
  }

  lemma OnPeerSafe(s: Service, r: Ref, id: string)
    requires Safe(s) && (s.http.Registering? || s.http.Deleting?)
    ensures Safe(NextHttp(s, r, id))
  {
    var t := NextHttp(s, r, id);
    if s.http.Registering? {
      RegisterSafe(s, t.peers[s.http.ref], t);
    } else if s.peers[s.http.ref].terminate.NotTerminating? {
      DeletedSafe(s, t);
    }
  }

  lemma HttpSafe(s: Service, r: Ref, id: string)
    requires Safe(s) && Assumed(s, HttpStep(r, id))
    ensures Safe(NextHttp(s, r, id))
  {
    match s.http
    case Listening =>
    case Handling(session) => HandleSafe(s, session, r, id);
    case Registering(_, _) => OnPeerSafe(s, r, id);
    case Offering(_, _) => WaitSafe(s, r, id);
    case Patching(_, _, _) => WaitSafe(s, r, id);
    case Deleting(_, _, _) => OnPeerSafe(s, r, id);
    case Releasing(p) => ReleasingSafe(s, p, r, id);
    case Destroying(_) => WaitSafe(s, r, id);
  }

  /** The cleaner drops the last pointer to the peer at key. */
  lemma SweepSafe(s: Service, key: string, r: Ref, t: Service)
    requires Safe(s) && s.cleaner.Scanning? && Assumed(s, Scan(key))
    requires key in s.peerMap && s.peerMap[key] == r && !Held(s.http, r) && r in s.peers
    requires t == s.(peers := s.peers[r := Next(s.peers[r], StartTerminate)],
                     peerMap := s.peerMap - {key}, cleaner := Sweeping(s.cleaner.todo - {key}, r))
    ensures Safe(t)
  {
    assert KeyPlaced(s, key);
    NobodyInUse(s, r);
    StartTerminateSound(s.peers[r]);
    forall k | k in t.peerMap ensures KeyPlaced(s, k) && s.peerMap[k] != r {
      assert KeyPlaced(s, k);
    }
    BeginsSafe(s, r, t);
  }

  lemma ScanSafe(s: Service, key: string)
    requires Safe(s) && s.cleaner.Scanning? && Assumed(s, Scan(key))
    ensures Safe(NextScan(s, s.cleaner.todo, key))
  {
    var t := NextScan(s, s.cleaner.todo, key);
    forall k | k in s.peerMap ensures KeyPlaced(s, k) {}
    if t.cleaner.Sweeping? {
      SweepSafe(s, key, s.peerMap[key], t);
    } else {
      forall q | q in s.peers ensures PeerPlaced(s, q) {}
      MoveSafe(s, t);
    }
  }

  lemma SweptSafe(s: Service, t: Service)
    requires Safe(s) && t == NextService(s, SweepDone)
    ensures Safe(t)
  {
    if t != s {
      forall k | k in s.peerMap ensures KeyPlaced(s, k) {}
      forall q | q in s.peers ensures PeerPlaced(s, q) {}
      MoveSafe(s, t);
    }
  }

  /** A request arrives; the cleaner wakes or goes back to sleep. */
  lemma IdleSafe(s: Service, t: Service)
    requires Safe(s) && HttpPlaced(t) && CleanerPlaced(t)
    requires t == s.(http := t.http, cleaner := t.cleaner, sessions := t.sessions)
    requires t.http == s.http || (s.http.Listening? && t.http.Handling?)
    requires t.cleaner == s.cleaner || (!s.cleaner.Sweeping? && !t.cleaner.Sweeping?)
    ensures Safe(t)
  {
    forall q | q in t.peers ensures PeerPlaced(t, q) {
      assert PeerPlaced(s, q);
    }
    forall key | key in t.peerMap ensures KeyPlaced(t, key) {
      assert KeyPlaced(s, key);
    }
  }

  lemma SafeStep(s: Service, step: Step)
    requires Safe(s) && Assumed(s, step)
    ensures Safe(NextService(s, step))
  {
    match step
    case Accept(session, request) => IdleSafe(s, NextService(s, step));
    case HttpStep(r, id) => HttpSafe(s, r, id);
    case Wake => IdleSafe(s, NextService(s, step));
    case Scan(key) => if s.cleaner.Scanning? { ScanSafe(s, key); }
    case SweepDone => SweptSafe(s, NextService(s, step));
    case Rest => IdleSafe(s, NextService(s, step));
    case OfPeer(r, peerStep) => if r in s.peers && Internal(peerStep) { OfPeerSafe(s, r, peerStep); }
  }
}
