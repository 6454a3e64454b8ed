/** What a request asks for, said of the request itself. */
module ServiceRequests {
  import opened Basics
  import opened PeerMachine
  import opened PeerRestart
  import opened Routes
  import opened SdpText
  import opened ServiceMachine
  import opened ServiceSafety
  import opened ServiceMap
  import opened ServiceAnswers

  /** A PATCH of a peer, as the headers and the target ask for it. */
  predicate Patches(req: Request) {
    && req.verb.Patch? && req.contentType == Some("application/trickle-ice-sdpfrag") && req.ifMatch.Some?
    && |Segments(req.target)| >= 2
  }

  predicate Deletes(req: Request) { req.verb.Delete? && req.contentType.Some? && |Segments(req.target)| >= 2 }

  /** Which request creates a peer, which patches or deletes one, and which is answered at once. */
  lemma PlanExactly(req: Request)
    ensures PlanFor(req).CreatePeer? <==> req.verb.Post? && req.contentType == Some("application/sdp")
    ensures PlanFor(req).PatchPeer? <==> Patches(req)
    ensures PlanFor(req).DeletePeer? <==> Deletes(req)
    ensures PlanFor(req) == Reply(204) <==> req.verb.Options?
    ensures PlanFor(req) == Reply(405) <==> req.verb.OtherVerb? && req.contentType.Some?
    ensures PlanFor(req) == Reply(412) <==> LacksIfMatch(req)
    ensures PlanFor(req).Reply? ==> PlanFor(req).status in {204, 405, 412, 422}
    ensures Patches(req) || Deletes(req) ==> PlanFor(req).id == Segments(req.target)[1]
  {
  }

  /**
  A PATCH adds each candidate of its body, all of them first; then it restarts ICE if its If-Match is `*`,
  and answers 200, and otherwise does nothing more, and answers 204.
  */
  lemma PatchAsks(req: Request)
    requires Patches(req)
    ensures var plan, candidates := PlanFor(req), Parsed(req.body).candidates;
            && plan.PatchPeer? && |plan.calls| >= |candidates|
            && (forall i :: 0 <= i < |candidates| ==> plan.calls[i] == AddIce(candidates[i]))
            && plan.calls[|candidates|..] == (if req.ifMatch == Some("*") then RESTART_CALLS else [])
            && plan.status == (if req.ifMatch == Some("*") then 200 else 204)
  {
  }

  /** In every run: once the PATCH of a mapped peer is handled, that is what the peer has been asked. */
  lemma PatchReachesPeer(schedule: seq<Step>, r: Ref, id: string)
    requires AssumedThroughout(schedule)
    requires var s := Serve(schedule);
             s.http.Handling? && s.http.session in s.sessions && Patches(s.sessions[s.http.session].request)
             && Segments(s.sessions[s.http.session].request.target)[1] in s.peerMap
    ensures var s, t := Serve(schedule), NextService(Serve(schedule), HttpStep(r, id));
            var req := s.sessions[s.http.session].request;
            var q := s.peerMap[Segments(req.target)[1]];
            && t.http.Patching? && t.http.ref == q && q in s.peers && q in t.peers
            && t.peers[q] == s.peers[q].(remote := PatchOf(Parsed(req.body).candidates, req.ifMatch == Some("*")))
  {
    NeverStops(schedule);
    var s := Serve(schedule);
    var req := s.sessions[s.http.session].request;
    var plan, candidates := PlanFor(req), Parsed(req.body).candidates;
    assert KeyPlaced(s, plan.id) && PeerPlaced(s, s.peerMap[plan.id]);
    assert RemoteIdle(s.peers[s.peerMap[plan.id]]);
    PatchAsks(req);
    assert plan.calls == plan.calls[..|candidates|] + plan.calls[|candidates|..];
    assert plan.calls[..|candidates|] == AddAll(candidates);
    assert plan.calls == PatchOf(candidates, req.ifMatch == Some("*"));
    ReachesPeer(s, r, id, plan);
  }

  lemma ReachesPeer(s: Service, r: Ref, id: string, plan: Plan)
    requires !s.stopped && s.http.Handling? && s.http.session in s.sessions
    requires plan == PlanFor(s.sessions[s.http.session].request) && plan.PatchPeer? && plan.id in s.peerMap
    requires s.peerMap[plan.id] in s.peers
    requires var p := s.peers[s.peerMap[plan.id]]; RemoteIdle(p) && p.fault.NoFault?
    ensures var t, q := NextService(s, HttpStep(r, id)), s.peerMap[plan.id];
            && t.http.Patching? && t.http.ref == q && q in t.peers
            && t.peers[q] == s.peers[q].(remote := plan.calls)
  {
  }

  /** It is answered only once the peer has done it all. */
  lemma PatchAnswersLast(s: Service, r: Ref, id: string)
    requires s.http.Patching? && NextService(s, HttpStep(r, id)).log != s.log
    ensures s.http.ref in s.peers && RemoteIdle(s.peers[s.http.ref])
  {
  }
}
