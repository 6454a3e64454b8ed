/** What a peer's id and its map entry mean over whole runs of the service. */
module ServiceMap {
  import opened Basics
  import opened PeerMachine
  import opened Routes
  import opened ServiceMachine
  import opened ServiceSafety
  import ServiceAnswers

  /** Under the assumptions no interleaving of HTTP thread, cleaner and peers stops the process. */
  lemma {:induction false} NeverStops(schedule: seq<Step>)
    requires AssumedThroughout(schedule)
    ensures Safe(Serve(schedule)) && !Serve(schedule).stopped
  {
    if schedule == [] {
    } else {
      NeverStops(schedule[..|schedule| - 1]);
      SafeStep(Serve(schedule[..|schedule| - 1]), schedule[|schedule| - 1]);
    }
  }

  /** Between requests the map holds only live peers that no Terminate has touched, each under its own id. */
  lemma MapAtBoundary(schedule: seq<Step>, key: string)
    requires AssumedThroughout(schedule) && Serve(schedule).http.Listening? && key in Serve(schedule).peerMap
    ensures var s := Serve(schedule);
            var r := s.peerMap[key];
            && r in s.peers && r !in s.destroyed && s.peers[r].id == key && !Begun(s.peers[r])
            && forall other :: other in s.peerMap && s.peerMap[other] == r ==> other == key
  {
    NeverStops(schedule);
    var s := Serve(schedule);
    forall other | other in s.peerMap ensures KeyPlaced(s, other) {}
  }

  // ----- one step, whatever is assumed -----

  predicate Had(s: Service, id: string) { exists q :: q in s.peers && s.peers[q].id == id }

  /** No peer is forgotten or renamed; new ones and new keys have ids nobody had. */
  predicate Grows(s: Service, t: Service) {
    && (forall r :: r in s.peers ==> r in t.peers && t.peers[r].id == s.peers[r].id)
    && (forall r :: r in t.peers && r !in s.peers ==> Segment(t.peers[r].id) && !Had(s, t.peers[r].id))
    && (forall key :: key in t.peerMap ==>
          if key in s.peerMap then t.peerMap[key] == s.peerMap[key] || !Had(s, key) else !Had(s, key))
  }

  lemma TellGrows(s: Service, r: Ref, step: PeerStep)
    ensures Grows(s, Tell(s, r, step))
  {
    if r in s.peers { NextId(s.peers[r], step); }
  }

  /** Peers stay as they are and no key is added. */
  lemma ShrinkGrows(s: Service, t: Service)
    requires t.peers == s.peers
    requires forall key :: key in t.peerMap ==> key in s.peerMap && t.peerMap[key] == s.peerMap[key]
    ensures Grows(s, t)
  {
  }

  lemma GrowsThenShrinks(s: Service, t: Service, u: Service)
    requires Grows(s, t) && (u.peers == t.peers || u.peers == s.peers)
    requires forall key :: key in u.peerMap ==> key in s.peerMap && u.peerMap[key] == s.peerMap[key]
    ensures Grows(s, u)
  {
  }

  lemma HandleGrows(s: Service, session: SessionId, r: Ref, id: string)
    requires session in s.sessions
    ensures Grows(s, Handle(s, session, r, id))
  {
    var plan := PlanFor(s.sessions[session].request);
    match plan
    case Reply(_) =>
    case OutOfRange =>
    case CreatePeer =>
    case PatchPeer(key, calls, _) => if key in s.peerMap { TellGrows(s, s.peerMap[key], StartRemote(calls)); }
    case DeletePeer(key) => if key in s.peerMap { TellGrows(s, s.peerMap[key], StartTerminate); }
  }

  lemma RegisterGrows(s: Service, p: Ref, session: SessionId)
    ensures Grows(s, Tell(Tell(s, p, Register(session)), p, StartRemote([SetSdp])))
  {
    var t := Tell(s, p, Register(session));
    TellGrows(s, p, Register(session));
    if p in s.peers { NextId(t.peers[p], StartRemote([SetSdp])); }
  }

  lemma ReleaseGrows(s: Service, p: Ref, r: Ref, id: string)
    requires s.http == Releasing(p)
    ensures Grows(s, NextHttp(s, r, id))
  {
    if p !in s.peerMap.Values {
      var t := Tell(s, p, StartTerminate);
      TellGrows(s, p, StartTerminate);
      GrowsThenShrinks(s, t, NextHttp(s, r, id));
    }
  }

  lemma HttpGrows(s: Service, r: Ref, id: string)
    ensures Grows(s, NextHttp(s, r, id))
  {
    match s.http
    case Listening =>
    case Handling(session) => if session in s.sessions { HandleGrows(s, session, r, id); }
    case Registering(session, p) => RegisterGrows(s, p, session);
    case Offering(_, _) => ShrinkGrows(s, NextHttp(s, r, id));
    case Patching(_, _, _) => ShrinkGrows(s, NextHttp(s, r, id));
    case Deleting(_, _, _) => ShrinkGrows(s, NextHttp(s, r, id));
    case Releasing(p) => ReleaseGrows(s, p, r, id);
    case Destroying(_) => ShrinkGrows(s, NextHttp(s, r, id));
  }

  lemma ScanGrows(s: Service, todo: set<string>, key: string)
    ensures Grows(s, NextScan(s, todo, key))
  {
    if key in s.peerMap {
      var t := Tell(s, s.peerMap[key], StartTerminate);
      TellGrows(s, s.peerMap[key], StartTerminate);
      GrowsThenShrinks(s, t, NextScan(s, todo, key));
    }
  }

  lemma OfPeerGrows(s: Service, r: Ref, step: PeerStep)
    requires r in s.peers
    ensures Grows(s, NextOfPeer(s, r, step))
  {
    NextId(s.peers[r], step);
  }

  lemma GrowsStep(s: Service, step: Step)
    ensures Grows(s, NextService(s, step))
  {
    match step
    case Accept(_, _) => ShrinkGrows(s, NextService(s, step));
    case HttpStep(r, id) => HttpGrows(s, r, id);
    case Wake => ShrinkGrows(s, NextService(s, step));
    case Scan(key) => if s.cleaner.Scanning? { ScanGrows(s, s.cleaner.todo, key); }
    case SweepDone => ShrinkGrows(s, NextService(s, step));
    case Rest => ShrinkGrows(s, NextService(s, step));
    case OfPeer(r, peerStep) => if r in s.peers { OfPeerGrows(s, r, peerStep); }
  }

  // ----- whole runs -----

  /** The service goes on from s. */
  function Continue(s: Service, after: seq<Step>): Service {
    if after == [] then s else NextService(Continue(s, after[..|after| - 1]), after[|after| - 1])
  }

  lemma {:induction false} ContinueServes(before: seq<Step>, after: seq<Step>)
    ensures Continue(Serve(before), after) == Serve(before + after)
  {
    if after == [] {
      assert before + after == before;
    } else {
      var last := |after| - 1;
      ContinueServes(before, after[..last]);
      assert (before + after)[..|before + after| - 1] == before + after[..last];
    }
  }

  lemma {:induction false} IdsAreSegments(schedule: seq<Step>, r: Ref)
    requires r in Serve(schedule).peers
    ensures Segment(Serve(schedule).peers[r].id)
  {
    if schedule == [] {
    } else {
      var s := Serve(schedule[..|schedule| - 1]);
      GrowsStep(s, schedule[|schedule| - 1]);
      if r in s.peers { IdsAreSegments(schedule[..|schedule| - 1], r); }
    }
  }

  lemma {:induction false} PeerStays(s: Service, after: seq<Step>, r: Ref)
    requires r in s.peers
    ensures r in Continue(s, after).peers && Continue(s, after).peers[r].id == s.peers[r].id
  {
    if after == [] {
    } else {
      PeerStays(s, after[..|after| - 1], r);
      GrowsStep(Continue(s, after[..|after| - 1]), after[|after| - 1]);
    }
  }

  /** Once a peer's id is not in the map, whoever removed it, no continuation brings it back. */
  lemma {:induction false} RemovedStaysRemoved(s: Service, after: seq<Step>, r: Ref)
    requires r in s.peers && s.peers[r].id !in s.peerMap
    ensures s.peers[r].id !in Continue(s, after).peerMap
  {
    if after == [] {
    } else {
      RemovedStaysRemoved(s, after[..|after| - 1], r);
      PeerStays(s, after[..|after| - 1], r);
      RemovedStep(Continue(s, after[..|after| - 1]), after[|after| - 1], r);
    }
  }

  lemma RemovedStep(s: Service, step: Step, r: Ref)
    requires r in s.peers && s.peers[r].id !in s.peerMap
    ensures s.peers[r].id !in NextService(s, step).peerMap
  {
    GrowsStep(s, step);
  }

  predicate Names(plan: Plan, id: string) { (plan.PatchPeer? || plan.DeletePeer?) && plan.id == id }

  /** So every later PATCH or DELETE of that id is refused, and reaches no peer. */
  lemma RemovedIsNotFound(s: Service, after: seq<Step>, r: Ref, q: Ref, id: string)
    requires r in s.peers && s.peers[r].id !in s.peerMap
    requires var t := Continue(s, after);
             && t.http.Handling? && t.http.session in t.sessions && !t.stopped
             && Names(PlanFor(t.sessions[t.http.session].request), s.peers[r].id)
    ensures var t := Continue(s, after);
            NextService(t, HttpStep(q, id)) ==
            t.(log := t.log + [Response(t.http.session, 422, "")], http := Listening)
  {
    RemovedStaysRemoved(s, after, r);
  }

  /** Its peer's Terminate, run by the DELETE of this key, has returned. */
  predicate DeleteDone(s: Service, key: string) {
    s.http.Deleting? && s.http.key == key && s.http.ref in s.peers && s.peers[s.http.ref].terminate.NotTerminating?
  }

  predicate ScansUnconnected(s: Service, key: string) {
    && s.cleaner.Scanning? && key in s.cleaner.todo && key in s.peerMap
    && s.peerMap[key] in s.peers && !s.peers[s.peerMap[key]].connected
  }

  lemma EntryStays(s: Service, step: Step, key: string)
    requires Safe(s) && key in s.peerMap && key in NextService(s, step).peerMap
    ensures NextService(s, step).peerMap[key] == s.peerMap[key]
  {
    assert KeyPlaced(s, key);
    GrowsStep(s, step);
  }

  /**
  An entry leaves the map in two ways only: the DELETE of that very key is done, or the cleaner finds
  its peer not connected. Every other entry stays, and leads to the same peer.
  */
  lemma EntryLeaves(s: Service, step: Step, key: string)
    requires Safe(s) && key in s.peerMap
    ensures key !in NextService(s, step).peerMap <==>
            || (step.HttpStep? && DeleteDone(s, key))
            || (step == Scan(key) && ScansUnconnected(s, key))
  {
    assert KeyPlaced(s, key);
    match step
    case HttpStep(r, id) => HttpRemoves(s, r, id, key);
    case Scan(scanned) => if s.cleaner.Scanning? { ScanRemoves(s, s.cleaner.todo, scanned, key); }
    case Accept(_, _) => MapUntouched(s, step);
    case Wake => MapUntouched(s, step);
    case SweepDone => MapUntouched(s, step);
    case Rest => MapUntouched(s, step);
    case OfPeer(_, _) => MapUntouched(s, step);
  }

  lemma MapUntouched(s: Service, step: Step)
    requires !step.HttpStep? && !step.Scan?
    ensures NextService(s, step).peerMap == s.peerMap
  {
  }

  lemma ScanRemoves(s: Service, todo: set<string>, scanned: string, key: string)
    requires key in s.peerMap && s.peerMap[key] in s.peers
    ensures key !in NextScan(s, todo, scanned).peerMap <==> scanned == key && !s.peers[s.peerMap[key]].connected
  {
  }

  lemma HttpRemoves(s: Service, r: Ref, id: string, key: string)
    requires key in s.peerMap
    ensures key !in NextHttp(s, r, id).peerMap <==> DeleteDone(s, key)
  {
    match s.http
    case Listening =>
    case Handling(session) =>
    case Registering(session, p) =>
    case Offering(_, _) =>
    case Patching(_, _, _) =>
    case Deleting(_, _, _) =>
    case Releasing(_) =>
    case Destroying(_) =>
  }

  /** A DELETE or PATCH with the headers it needs. */
  predicate Addressed(req: Request) {
    if req.verb.Delete? then req.contentType.Some?
    else req.verb.Patch? && req.contentType == Some("application/trickle-ice-sdpfrag") && req.ifMatch.Some?
  }

  /**
  The Location a 201 carries leads back: the target of a PATCH or DELETE of it parses to the id of the
  peer whose handler wrote the response, and while that id is mapped, it is mapped to that peer.
  */
  lemma LocationLeadsBack(before: seq<Step>, after: seq<Step>, response: Response, req: Request) returns (r: Ref)
    requires AssumedThroughout(before + after)
    requires response in Serve(before).log && response.status == 201 && response.session in Serve(before).sessions
    requires response.location == "https://" + Serve(before).sessions[response.session].request.host + req.target
    requires Addressed(req)
    ensures var s, t := Serve(before), Serve(before + after);
            && r in s.peers && s.peers[r].registered == Some(response.session) && r in t.peers
            && Names(PlanFor(req), t.peers[r].id)
            && (t.peers[r].id in t.peerMap ==> t.peerMap[t.peers[r].id] == r)
  {
    var s := Serve(before);
    r := ServiceAnswers.CreatedComesFromOwnPeer(before, response);
    var id := s.peers[r].id;
    DroppedPrefix("https://" + s.sessions[response.session].request.host, req.target, "/resource/" + id);
    IdsAreSegments(before, r);
    ResourcePathParses(id);
    ContinueServes(before, after);
    PeerStays(s, after, r);
    MapLeadsTo(before + after, r);
  }

  lemma MapLeadsTo(schedule: seq<Step>, r: Ref)
    requires AssumedThroughout(schedule) && r in Serve(schedule).peers
    ensures var s := Serve(schedule); s.peers[r].id in s.peerMap ==> s.peerMap[s.peers[r].id] == r
  {
    NeverStops(schedule);
    var s := Serve(schedule);
    if s.peers[r].id in s.peerMap { assert KeyPlaced(s, s.peers[r].id); }
  }

  // ----- what the class HttpService does, as steps of the machine -----

  /** The peers' states by key. */
  function View(s: Service): map<string, Peer> {
    map key | key in s.peerMap && s.peerMap[key] in s.peers :: s.peers[s.peerMap[key]]
  }

  /** CreatePeer: one entry more. */
  lemma PostView(s: Service, session: SessionId, r: Ref, id: string)
    requires Safe(s) && session in s.sessions && IsNew(s, r, id)
    ensures View(HandlePost(s, session, r, id)) == View(s)[id := Fresh(id, true)]
  {
    forall key | key in s.peerMap ensures s.peerMap[key] in s.peers && key != id {
      assert KeyPlaced(s, key);
    }
  }

  /** The end of a DELETE: one entry less. */
  lemma DeleteView(s: Service, r: Ref, id: string)
    requires Safe(s) && s.http.Deleting? && DeleteDone(s, s.http.key)
    ensures View(NextHttp(s, r, id)) == View(s) - {s.http.key}
  {
  }

  /** An entry goes, whatever becomes of its peer. */
  lemma ViewWithout(s: Service, key: string, peers: map<Ref, Peer>, t: Service)
    requires key in s.peerMap
    requires forall other :: other in s.peerMap && other != key ==> s.peerMap[other] != s.peerMap[key]
    requires peers.Keys == s.peers.Keys && forall r :: r in peers && r != s.peerMap[key] ==> peers[r] == s.peers[r]
    requires t.peers == peers && t.peerMap == s.peerMap - {key}
    ensures View(t) == View(s) - {key}
  {
  }

  lemma OnlyKey(s: Service, key: string)
    requires Safe(s) && key in s.peerMap
    ensures s.peerMap[key] in s.peers
    ensures forall other :: other in s.peerMap && other != key ==> s.peerMap[other] != s.peerMap[key]
  {
    forall other | other in s.peerMap ensures KeyPlaced(s, other) {}
  }

  lemma ScanErases(s: Service, key: string)
    requires s.cleaner.Scanning? && key in s.peerMap && s.peerMap[key] in s.peers
    requires forall other :: other in s.peerMap && other != key ==> s.peerMap[other] != s.peerMap[key]
    requires !s.peers[s.peerMap[key]].connected
    ensures View(NextScan(s, s.cleaner.todo, key)) == View(s) - {key}
  {
    var t := NextScan(s, s.cleaner.todo, key);
    ViewWithout(s, key, t.peers, t);
  }

  /** One turn of the cleaner: the entry goes exactly if its peer is not connected; the others stay as they are. */
  lemma ScanView(s: Service, key: string)
    requires Safe(s) && s.cleaner.Scanning? && key in s.peerMap
    ensures key in View(s)
    ensures View(NextScan(s, s.cleaner.todo, key)) == if View(s)[key].connected then View(s) else View(s) - {key}
  {
    OnlyKey(s, key);
    if !s.peers[s.peerMap[key]].connected { ScanErases(s, key); }
  }
}
