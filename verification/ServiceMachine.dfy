/**
HttpService and HttpSession with all their peers, as one machine: the HTTP thread runs one request
handler at a time, the cleaner refreshes the peer map, and every peer takes its own steps in between.
A peer is alive while the map or the HTTP thread holds it; whoever drops it last runs its destructor,
which is another Terminate.
*/
module ServiceMachine {
  import opened Basics
  import opened PeerMachine
  import opened Routes
  import opened SdpText

  type Ref = nat

  datatype Verb = Post | Patch | Options | Delete | OtherVerb

  datatype Request = Request(verb: Verb, contentType: Option<string>, target: string, ifMatch: Option<string>,
                             host: string, body: string)

  // Status codes the handlers answer with.
  const OK := 200
  const CREATED := 201
  const ACCEPTED := 202
  const NO_CONTENT := 204
  const METHOD_NOT_ALLOWED := 405
  const PRECONDITION_FAILED := 412
  const UNPROCESSABLE_ENTITY := 422

  /** What a handler decides before it touches the service. */
  datatype Plan =
    | Reply(status: nat)
    | CreatePeer
    | PatchPeer(id: string, calls: seq<RemoteCall>, status: nat)
    | DeletePeer(id: string)
    | OutOfRange  // reads routes[0] or routes[1] of a vector without them

  /** HandleRequest. */
  function PlanFor(req: Request): Plan {
    if !req.verb.Options? && req.contentType.None? then Reply(UNPROCESSABLE_ENTITY)
    else match req.verb
         case Post => if req.contentType == Some("application/sdp") then CreatePeer else Reply(UNPROCESSABLE_ENTITY)
         case Patch => PlanPatch(req, Segments(req.target))
         case Options => Reply(NO_CONTENT)
         case Delete => PlanDelete(Segments(req.target))
         case OtherVerb => Reply(METHOD_NOT_ALLOWED)
  }

  function PlanPatch(req: Request, routes: seq<string>): Plan {
    if req.contentType != Some("application/trickle-ice-sdpfrag") then Reply(UNPROCESSABLE_ENTITY)
    else if routes == [] then OutOfRange
    else if |routes| < 2 && routes[0] != RESOURCE then Reply(UNPROCESSABLE_ENTITY)
    else if req.ifMatch.None? then Reply(PRECONDITION_FAILED)
    else if |routes| < 2 then OutOfRange
    else var restart := req.ifMatch == Some("*");
         PatchPeer(routes[1], PatchCalls(Parsed(req.body).candidates, restart), if restart then OK else NO_CONTENT)
  }

  /** One SetRemoteIce per candidate, then RestartIce if asked for. */
  function PatchCalls(candidates: seq<string>, restart: bool): seq<RemoteCall> {
    seq(|candidates|, i requires 0 <= i < |candidates| => AddIce(candidates[i]))
    + if restart then [ReadDescriptions, SetSdp, ReadDescriptions] else []
  }

  function PlanDelete(routes: seq<string>): Plan {
    if routes == [] then OutOfRange
    else if |routes| < 2 && routes[0] != RESOURCE then Reply(UNPROCESSABLE_ENTITY)
    else if |routes| < 2 then OutOfRange
    else DeletePeer(routes[1])
  }

  datatype Session = Session(request: Request, peer: Option<Ref>)
  datatype Response = Response(session: SessionId, status: nat, location: string)

  /** Where the HTTP thread is. */
  datatype Http =
    | Listening
    | Handling(session: SessionId)
    | Registering(session: SessionId, ref: Ref)
    | Offering(session: SessionId, ref: Ref)
    | Patching(session: SessionId, ref: Ref, status: nat)
    | Deleting(session: SessionId, ref: Ref, key: string)
    | Releasing(ref: Ref)
    | Destroying(ref: Ref)

  datatype Cleaner = Asleep | Scanning(todo: set<string>) | Sweeping(todo: set<string>, ref: Ref)

  datatype Service = Service(
    peers: map<Ref, Peer>,          // every peer ever created
    peerMap: map<string, Ref>,
    sessions: map<SessionId, Session>,
    http: Http,
    cleaner: Cleaner,
    log: seq<Response>,             // every response written
    destroyed: set<Ref>,
    stopped: bool)                  // the process is gone

  const STARTED: Service := Service(map[], map[], map[], Listening, Asleep, [], {}, false)

  datatype Step =
    | Accept(session: SessionId, request: Request)
    | HttpStep(ref: Ref, id: string)  // the address and id of a peer created by this step, if any
    | Wake
    | Scan(key: string)
    | SweepDone
    | Rest
    | OfPeer(ref: Ref, step: PeerStep)

  /** The peer the HTTP thread has in a local variable. */
  predicate Held(http: Http, r: Ref) { !http.Listening? && !http.Handling? && http.ref == r }

  function Location(host: string, id: string): string { "https://" + host + ResourcePath(id) }

  lemma LocationIs(host: string, id: string)
    ensures Location(host, id) == "https://" + host + ("/resource/" + id)
  {
    ResourcePathIs(id);
  }

  function HostOf(s: Service, session: SessionId): string {
    if session in s.sessions then s.sessions[session].request.host else ""
  }

  function Write(s: Service, session: SessionId, status: nat): Service {
    s.(log := s.log + [Response(session, status, "")])
  }

  function Tell(s: Service, r: Ref, step: PeerStep): Service {
    if r in s.peers then s.(peers := s.peers[r := Next(s.peers[r], step)]) else s
  }

  function HandlePost(s: Service, session: SessionId, r: Ref, id: string): Service
    requires session in s.sessions
  {
    s.(peers := s.peers[r := Fresh(id, true)], peerMap := s.peerMap[id := r],
       sessions := s.sessions[session := s.sessions[session].(peer := Some(r))],
       http := Registering(session, r))
  }

  function HandlePatch(s: Service, session: SessionId, plan: Plan): Service
    requires plan.PatchPeer?
  {
    if plan.id in s.peerMap
    then Tell(s, s.peerMap[plan.id], StartRemote(plan.calls))
         .(http := Patching(session, s.peerMap[plan.id], plan.status))
    else Write(s, session, UNPROCESSABLE_ENTITY).(http := Listening)
  }

  function HandleDelete(s: Service, session: SessionId, id: string): Service {
    if id in s.peerMap
    then Tell(s, s.peerMap[id], StartTerminate).(http := Deleting(session, s.peerMap[id], id))
    else Write(s, session, UNPROCESSABLE_ENTITY).(http := Listening)
  }

  /** HandleRequest up to its first call into a peer. */
  function Handle(s: Service, session: SessionId, r: Ref, id: string): Service
    requires session in s.sessions
  {
    var plan := PlanFor(s.sessions[session].request);
    match plan
    case Reply(status) => Write(s, session, status).(http := Listening)
    case OutOfRange => s.(stopped := true)
    case CreatePeer => if IsNew(s, r, id) then HandlePost(s, session, r, id) else s
    case PatchPeer(_, _, _) => HandlePatch(s, session, plan)
    case DeletePeer(key) => HandleDelete(s, session, key)
  }

  /** Peers get a new address, and an id no peer has had. */
  predicate IsNew(s: Service, r: Ref, id: string) {
    r !in s.peers && Segment(id) && forall q :: q in s.peers ==> s.peers[q].id != id
  }

  /** The HTTP thread moves on once the peer is done with its call. */
  function NextHttp(s: Service, r: Ref, id: string): Service {
    match s.http
    case Listening => s
    case Handling(session) => if session in s.sessions then Handle(s, session, r, id) else s
    case Registering(session, p) =>
      Tell(Tell(s, p, Register(session)), p, StartRemote([SetSdp])).(http := Offering(session, p))
    case Offering(_, p) =>
      if p in s.peers && RemoteIdle(s.peers[p]) then s.(http := Releasing(p)) else s
    case Patching(session, p, status) =>
      if p in s.peers && RemoteIdle(s.peers[p]) then Write(s, session, status).(http := Releasing(p)) else s
    case Deleting(session, p, key) =>
      if p in s.peers && s.peers[p].terminate.NotTerminating?
      then Write(s, session, ACCEPTED).(peerMap := s.peerMap - {key}, http := Releasing(p)) else s
    case Releasing(p) =>
      if p in s.peerMap.Values then s.(http := Listening)
      else Tell(s, p, StartTerminate).(http := Destroying(p))
    case Destroying(p) =>
      if p in s.peers && s.peers[p].terminate.NotTerminating?
      then s.(destroyed := s.destroyed + {p}, http := Listening) else s
  }

  /** RefreshPeerMap at one key of the map. */
  function NextScan(s: Service, todo: set<string>, key: string): Service {
    var rest := todo - {key};
    if key !in s.peerMap then s.(cleaner := Scanning(rest)) else
    var r := s.peerMap[key];
    if r in s.peers && s.peers[r].connected then s.(cleaner := Scanning(rest))
    else if Held(s.http, r) then s.(peerMap := s.peerMap - {key}, cleaner := Scanning(rest))
    else Tell(s, r, StartTerminate).(peerMap := s.peerMap - {key}, cleaner := Sweeping(rest, r))
  }

  /** A peer moves; if that runs its handler, the response is written. */
  function NextOfPeer(s: Service, r: Ref, step: PeerStep): Service
    requires r in s.peers
  {
    var p := s.peers[r];
    var q := Next(p, step);
    s.(peers := s.peers[r := q],
       log := if q.fired > p.fired && p.handler.Some?
              then s.log + [Response(p.handler.value, CREATED, Location(HostOf(s, p.handler.value), p.id))] else s.log,
       stopped := !q.fault.NoFault?)
  }

  /** One step; a step that is not enabled changes nothing, and a stopped process is stopped. */
  function NextService(s: Service, step: Step): Service {
    if s.stopped then s else
    match step
    case Accept(session, request) =>
      if s.http.Listening? && session !in s.sessions
      then s.(sessions := s.sessions[session := Session(request, None)], http := Handling(session)) else s
    case HttpStep(r, id) => NextHttp(s, r, id)
    case Wake => if s.cleaner.Asleep? then s.(cleaner := Scanning(s.peerMap.Keys)) else s
    case Scan(key) =>
      if s.cleaner.Scanning? && key in s.cleaner.todo then NextScan(s, s.cleaner.todo, key) else s
    case SweepDone =>
      if s.cleaner.Sweeping? && s.cleaner.ref in s.peers && s.peers[s.cleaner.ref].terminate.NotTerminating?
      then s.(destroyed := s.destroyed + {s.cleaner.ref}, cleaner := Scanning(s.cleaner.todo)) else s
    case Rest => if s.cleaner == Scanning({}) then s.(cleaner := Asleep) else s
    case OfPeer(r, peerStep) =>
      if r in s.peers && r !in s.destroyed && Internal(peerStep) then NextOfPeer(s, r, peerStep) else s
  }

  function Serve(schedule: seq<Step>): Service {
    if schedule == [] then STARTED
    else NextService(Serve(schedule[..|schedule| - 1]), schedule[|schedule| - 1])
  }
}
