/** Who answers for a peer: no peer is forgotten, and whoever lets the last pointer go has it terminated. */
module ServiceOwners {
  import opened Basics
  import opened PeerMachine
  import opened PeerSafety
  import opened ServiceMachine
  import opened ServiceSafety
  import opened ServiceMap

  predicate Swept(s: Service, r: Ref) { s.cleaner.Sweeping? && s.cleaner.ref == r }

  /** It is mapped, in a handler's hands, being terminated by the cleaner, or destroyed. */
  predicate Accounted(s: Service, r: Ref) {
    r in s.peerMap.Values || Held(s.http, r) || Swept(s, r) || r in s.destroyed
  }

  /** Where somebody waits for a Terminate, it has begun; where nobody waits any more, it is over. */
  predicate InOrder(s: Service) {
    && (s.http.Deleting? || s.http.Destroying? ==> s.http.ref in s.peers && Begun(s.peers[s.http.ref]))
    && (s.cleaner.Sweeping? ==> s.cleaner.ref in s.peers && Begun(s.peers[s.cleaner.ref]))
    && forall r :: r in s.destroyed ==> r in s.peers && Quiet(s.peers[r])
  }

  ghost predicate Owners(s: Service) { InOrder(s) && forall r :: r in s.peers ==> Accounted(s, r) }

  lemma OverIsQuiet(p: Peer)
    requires Sound(p) && Begun(p) && p.terminate.NotTerminating?
    ensures Quiet(p)
  {
  }

  lemma StartBegins(p: Peer)
    requires p.fault.NoFault?
    ensures Begun(Next(p, StartTerminate))
  {
  }

  lemma BegunStays(p: Peer, step: PeerStep)
    requires Begun(p)
    ensures Begun(Next(p, step))
  {
    if Internal(step) { InternalFrame(p, step); }
  }

  /** Entries leave the map, or it grows; whoever was accounted for in it still is. */
  lemma OwnersMove(s: Service, t: Service)
    requires Owners(s) && t.peers == s.peers && InOrder(t)
    requires forall r :: r in s.peers && Accounted(s, r) ==> Accounted(t, r)
    ensures Owners(t)
  {
  }

  lemma TellOwners(s: Service, r: Ref, step: PeerStep, t: Service)
    requires Owners(s) && r in s.peers && r !in s.destroyed
    requires t.peers == Tell(s, r, step).peers && t.destroyed == s.destroyed
    requires t.http.Deleting? || t.http.Destroying? ==> t.http.ref in t.peers && Begun(t.peers[t.http.ref])
    requires t.cleaner.Sweeping? ==> t.cleaner.ref in t.peers && Begun(t.peers[t.cleaner.ref])
    requires forall q :: q in s.peers && Accounted(s, q) ==> Accounted(t, q)
    ensures Owners(t)
  {
  }

  lemma PostOwners(s: Service, session: SessionId, r: Ref, id: string)
    requires Safe(s) && Owners(s) && session in s.sessions && IsNew(s, r, id) && s.http.Handling?
    ensures Owners(HandlePost(s, session, r, id))
  {
    var t := HandlePost(s, session, r, id);
    forall q | q in t.peers ensures Accounted(t, q) {
      if q in s.peers && q in s.peerMap.Values {
        var key :| key in s.peerMap && s.peerMap[key] == q;
        assert KeyPlaced(s, key);
        assert t.peerMap[key] == q;
      }
    }
  }

  lemma HandleOwners(s: Service, session: SessionId, r: Ref, id: string)
    requires Safe(s) && Owners(s) && s.http == Handling(session) && session in s.sessions
    requires Assumed(s, HttpStep(r, id))
    ensures Owners(Handle(s, session, r, id))
  {
    var plan := PlanFor(s.sessions[session].request);
    var t := Handle(s, session, r, id);
    match plan
    case Reply(_) => OwnersMove(s, t);
    case CreatePeer => if IsNew(s, r, id) { PostOwners(s, session, r, id); }
    case PatchPeer(key, calls, _) =>
      if key in s.peerMap { AddressedOwners(s, key, StartRemote(calls), t); } else { OwnersMove(s, t); }
    case DeletePeer(key) =>
      if key in s.peerMap { AddressedOwners(s, key, StartTerminate, t); } else { OwnersMove(s, t); }
  }

  /** A PATCH or DELETE takes up its peer. */
  lemma AddressedOwners(s: Service, key: string, step: PeerStep, t: Service)
    requires Safe(s) && Owners(s) && s.http.Handling? && key in s.peerMap
    requires t == Tell(s, s.peerMap[key], step).(http := t.http) && Held(t.http, s.peerMap[key])
    requires t.http.Patching? || (t.http.Deleting? && step.StartTerminate?)
    ensures Owners(t)
  {
    var p := s.peerMap[key];
    assert KeyPlaced(s, key) && PeerPlaced(s, p);
    StartBegins(s.peers[p]);
    TellKeepsBegun(s, p, step);
    TellOwners(s, p, step, t);
  }

  lemma TellKeepsBegun(s: Service, r: Ref, step: PeerStep)
    ensures forall q :: q in s.peers && Begun(s.peers[q]) ==>
              q in Tell(s, r, step).peers && Begun(Tell(s, r, step).peers[q])
  {
    if r in s.peers && Begun(s.peers[r]) { BegunStays(s.peers[r], step); }
  }

  lemma RegisterOwners(s: Service, session: SessionId, p: Ref, t: Service)
    requires Safe(s) && Owners(s) && s.http == Registering(session, p)
    requires t == Tell(Tell(s, p, Register(session)), p, StartRemote([SetSdp])).(http := Offering(session, p))
    ensures Owners(t)
  {
    var u := Tell(s, p, Register(session));
    TellKeepsBegun(s, p, Register(session));
    TellOwners(s, p, Register(session), u);
    TellKeepsBegun(u, p, StartRemote([SetSdp]));
    TellOwners(u, p, StartRemote([SetSdp]), t);
  }

  lemma DeletedOwners(s: Service, t: Service)
    requires Safe(s) && Owners(s) && s.http.Deleting?
    requires t == s.(log := t.log, peerMap := s.peerMap - {s.http.key}, http := Releasing(s.http.ref))
    ensures Owners(t)
  {
    forall q | q in s.peers && Accounted(s, q) ensures Accounted(t, q) {
      if q in s.peerMap.Values {
        var key :| key in s.peerMap && s.peerMap[key] == q;
        assert KeyPlaced(s, key);
        assert key != s.http.key ==> t.peerMap[key] == q;
      }
    }
    OwnersMove(s, t);
  }

  lemma ReleasedOwners(s: Service, p: Ref, t: Service)
    requires Safe(s) && Owners(s) && s.http == Releasing(p)
    requires t == if p in s.peerMap.Values then s.(http := Listening)
                  else Tell(s, p, StartTerminate).(http := Destroying(p))
    ensures Owners(t)
  {
    if p in s.peerMap.Values {
      OwnersMove(s, t);
    } else {
      assert PeerPlaced(s, p);
      StartBegins(s.peers[p]);
      TellKeepsBegun(s, p, StartTerminate);
      TellOwners(s, p, StartTerminate, t);
    }
  }

  lemma DestroyedOwners(s: Service, r: Ref, t: Service)
    requires Safe(s) && Owners(s) && r in s.peers && Begun(s.peers[r]) && s.peers[r].terminate.NotTerminating?
    requires s.http == Destroying(r) || Swept(s, r)
    requires t == s.(destroyed := s.destroyed + {r}, http := t.http, cleaner := t.cleaner)
    requires t.http == s.http || (s.http == Destroying(r) && t.http.Listening?)
    requires t.cleaner == s.cleaner || (Swept(s, r) && t.cleaner.Scanning?)
    ensures Owners(t)
  {
    assert PeerPlaced(s, r);
    OverIsQuiet(s.peers[r]);
    OwnersMove(s, t);
  }

  lemma HttpOwners(s: Service, r: Ref, id: string)
    requires Safe(s) && Owners(s) && Assumed(s, HttpStep(r, id))
    ensures Owners(NextHttp(s, r, id))
  {
    var t := NextHttp(s, r, id);
    match s.http
    case Listening =>
    case Handling(session) => HandleOwners(s, session, r, id);
    case Registering(session, p) => RegisterOwners(s, session, p, t);
    case _ => HttpWaitOwners(s, r, id);
  }

  /** The HTTP thread when it waits for a peer or lets it go. */
  lemma HttpWaitOwners(s: Service, r: Ref, id: string)
    requires Safe(s) && Owners(s) && !s.http.Listening? && !s.http.Handling? && !s.http.Registering?
    ensures Owners(NextHttp(s, r, id))
  {
    var t := NextHttp(s, r, id);
    match s.http
    case Offering(_, p) => ServedOwners(s, p, t);
    case Patching(_, p, _) => ServedOwners(s, p, t);
    case Deleting(_, p, _) => if t != s { DeletedOwners(s, t); }
    case Releasing(p) => ReleasedOwners(s, p, t);
    case Destroying(p) => if t != s { DroppedOwners(s, p, r, id); }
    case _ =>
  }

  lemma DroppedOwners(s: Service, p: Ref, r: Ref, id: string)
    requires Safe(s) && Owners(s) && s.http == Destroying(p) && NextHttp(s, r, id) != s
    ensures Owners(NextHttp(s, r, id))
  {
    DestroyedOwners(s, p, NextHttp(s, r, id));
  }

  lemma ServedOwners(s: Service, p: Ref, t: Service)
    requires Owners(s) && Held(s.http, p) && (s.http.Offering? || s.http.Patching?)
    requires t == s || t == s.(log := t.log, http := Releasing(p))
    ensures Owners(t)
  {
    OwnersMove(s, t);
  }

  lemma IdleOwners(s: Service, t: Service)
    requires Owners(s) && t == s.(http := t.http, cleaner := t.cleaner, sessions := t.sessions)
    requires t.http == s.http || (s.http.Listening? && t.http.Handling?)
    requires t.cleaner == s.cleaner || (!s.cleaner.Sweeping? && !t.cleaner.Sweeping?)
    ensures Owners(t)
  {
    OwnersMove(s, t);
  }

  lemma OfPeerOwners(s: Service, r: Ref, step: PeerStep)
    requires Owners(s) && r in s.peers && r !in s.destroyed
    ensures Owners(NextOfPeer(s, r, step))
  {
    TellKeepsBegun(s, r, step);
    TellOwners(s, r, step, NextOfPeer(s, r, step));
  }

  lemma ScanOwners(s: Service, key: string, t: Service)
    requires Safe(s) && Owners(s) && s.cleaner.Scanning? && t == NextScan(s, s.cleaner.todo, key)
    ensures Owners(t)
  {
    if key !in s.peerMap || s.peers[s.peerMap[key]].connected {
      OwnersMove(s, t);
    } else {
      var p := s.peerMap[key];
      assert KeyPlaced(s, key) && PeerPlaced(s, p);
      forall q | q in s.peers && Accounted(s, q) ensures Accounted(t, q) {
        if q in s.peerMap.Values && q != p {
          var other :| other in s.peerMap && s.peerMap[other] == q;
          assert t.peerMap[other] == q;
        }
      }
      if Held(s.http, p) {
        OwnersMove(s, t);
      } else {
        StartBegins(s.peers[p]);
        TellKeepsBegun(s, p, StartTerminate);
        TellOwners(s, p, StartTerminate, t);
      }
    }
  }

  lemma OwnersStep(s: Service, step: Step)
    requires Safe(s) && Owners(s) && Assumed(s, step)
    ensures Owners(NextService(s, step))
  {
    var t := NextService(s, step);
    match step
    case Accept(_, _) => IdleOwners(s, t);
    case HttpStep(r, id) => HttpOwners(s, r, id);
    case Wake => IdleOwners(s, t);
    case Scan(key) => if s.cleaner.Scanning? && key in s.cleaner.todo { ScanOwners(s, key, t); }
    case SweepDone => if t != s { DestroyedOwners(s, s.cleaner.ref, t); }
    case Rest => IdleOwners(s, t);
    case OfPeer(r, peerStep) =>
      if r in s.peers && r !in s.destroyed && Internal(peerStep) { OfPeerOwners(s, r, peerStep); }
  }

  /**
  In every run each peer is mapped, in a handler's hands, being terminated by the cleaner, or destroyed; and
  a destroyed one has been terminated, and has no connection, no handler and no thread left.
  */
  lemma {:induction false} NobodyLost(schedule: seq<Step>)
    requires AssumedThroughout(schedule)
    ensures Owners(Serve(schedule))
  {
    if schedule == [] {
    } else {
      var before := schedule[..|schedule| - 1];
      NobodyLost(before);
      NeverStops(before);
      OwnersStep(Serve(before), schedule[|schedule| - 1]);
    }
  }

  /** A DELETE is answered, and its entry goes, only once its peer is quiet. */
  lemma DeletedIsQuiet(schedule: seq<Step>, r: Ref, id: string)
    requires AssumedThroughout(schedule) && Serve(schedule).http.Deleting?
    requires NextService(Serve(schedule), HttpStep(r, id)).log != Serve(schedule).log
    ensures var s := Serve(schedule); s.http.ref in s.peers && Quiet(s.peers[s.http.ref])
  {
    NobodyLost(schedule);
    NeverStops(schedule);
    var s := Serve(schedule);
    assert PeerPlaced(s, s.http.ref);
    OverIsQuiet(s.peers[s.http.ref]);
  }

  /** The cleaner terminates the peer of each entry it erases, unless a handler holds it, and waits for that. */
  lemma ScanTerminates(schedule: seq<Step>, key: string)
    requires AssumedThroughout(schedule) && key in Serve(schedule).peerMap
    requires key !in NextService(Serve(schedule), Scan(key)).peerMap
    ensures var s, t := Serve(schedule), NextService(Serve(schedule), Scan(key));
            var r := s.peerMap[key];
            Held(s.http, r) || (r in t.peers && Begun(t.peers[r]) && Swept(t, r))
  {
    NeverStops(schedule);
    assert Serve(schedule).cleaner.Scanning?;
    Erased(Serve(schedule), key);
  }

  lemma Erased(s: Service, key: string)
    requires Safe(s) && s.cleaner.Scanning? && key in s.peerMap && !s.peers[s.peerMap[key]].connected
    requires KeyPlaced(s, key)
    ensures var t, r := NextScan(s, s.cleaner.todo, key), s.peerMap[key];
            Held(s.http, r) || (r in t.peers && Begun(t.peers[r]) && Swept(t, r))
  {
    assert PeerPlaced(s, s.peerMap[key]);
    StartBegins(s.peers[s.peerMap[key]]);
  }
}
