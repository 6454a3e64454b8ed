/**
One RtcPeer as a machine of atomic steps, taken in any order by six actors: the HTTP thread
(registration, SetRemoteSdp, RestartIce, SetRemoteIce), whoever runs Terminate, the library's
callback thread, the connect-timeout thread and the delayed SDP-send thread. Every actor has a
program counter; `join` is a step that is enabled only once the joined thread has finished.
The three ways the C++ can go wrong (and a fourth, reading an absent description) are faults,
and a faulted peer takes no further step.
*/
module PeerMachine {
  import opened Basics

  datatype Fault =
    | NoFault
    | AssignOverJoinable    // std::thread assigned over a joinable thread
    | EmptyHandlerCalled    // an empty std::function is called
    | NullConnectionUsed    // peer_connection_-> on a null pointer
    | NullDescriptionUsed   // modified_desc_-> on a null pointer

  /** A std::thread member: default constructed or joined, running, or finished but not joined. */
  datatype Thread<+P> = NotJoinable | Live(pc: P) | Finished {
    predicate Joinable() { !NotJoinable? }
  }

  /** The timeout thread's three reads and its close. */
  datatype TimerPc = ReadConnection | ReadComplete | ReadConnected | CloseNow

  /** The body of send_sdp. */
  datatype SendPc = ReadDescription | CallHandler | ClearHandler

  datatype CallbackPc =
    | CbIdle
    | CbSpawnTimer
    | CbConnectedFlag | CbConnectedClear
    | CbFailedFlag | CbFailedClose
    | CbClosedFlag | CbClosedComplete
    | CbCandidateCheck | CbCandidateAdd
    | CbDescribe | CbEmitCheck | CbEmitJoin | CbEmitSpawn | CbEmitSend(pc: SendPc)

  datatype TerminatePc =
    | NotTerminating
    | TermUnflag | TermComplete | TermJoinTimer | TermJoinSender
    | TermClearHandler | TermClose | TermNull | TermRelease

  /** What the HTTP thread asks of a peer: read a description, SetRemoteIce, SetRemoteSdp. */
  datatype RemoteCall = ReadDescriptions | AddIce(candidate: string) | SetSdp
  datatype RemotePc = AtCall | AtAddCandidate(candidate: string) | AtApply | AtAnswer | AtLocal

  datatype Event = HaveRemoteOffer | Connected | Failed | Closed | LocalDescription | LocalCandidate

  datatype Peer = Peer(
    id: string,
    delayed: bool,                  // has_candidates_in_sdp_
    handler: Option<SessionId>,     // on_local_sdp_fn_, by the session it writes to
    connected: bool,
    complete: bool,
    timer: Thread<TimerPc>,
    sender: Thread<SendPc>,
    connection: bool,               // peer_connection_ is not null
    description: bool,              // modified_desc_ is not null
    // program counters
    callback: CallbackPc,
    terminate: TerminatePc,
    remote: seq<RemoteCall>,
    remotePc: RemotePc,
    // history
    registered: Option<SessionId>,  // the session OnLocalSdp was called with
    offered: bool,                  // some SetRemoteSdp got past its is_connected_ check
    added: seq<string>,             // candidates the library has been given
    offers: nat,                    // accepted offers the library has not reported yet
    descriptions: nat,              // local descriptions the library has not reported yet
    terminated: bool,               // some Terminate has returned
    fired: nat,                     // calls of the handler
    closes: nat,                    // every call of peer_connection_->close()
    fault: Fault)

  /** A peer as RtcPeer::Create leaves it: connection set, nothing registered. */
  function Fresh(id: string, delayed: bool): Peer {
    Peer(id, delayed, None, false, false, NotJoinable, NotJoinable, true, false,
         CbIdle, NotTerminating, [], AtCall, None, false, [], 0, 0, false, 0, 0, NoFault)
  }

  datatype PeerStep =
    | Register(session: SessionId)
    | StartRemote(calls: seq<RemoteCall>)
    | RemoteStep(choice: bool)      // choice: what the library makes of the call
    | StartTerminate
    | TerminateStep
    | Report(event: Event)
    | CallbackStep
    | TimerStep
    | SenderStep

  /** A step of the peer's own threads or of the library, or a call that is under way. */
  predicate Internal(step: PeerStep) { !step.Register? && !step.StartRemote? && !step.StartTerminate? }

  predicate RemoteIdle(p: Peer) { p.remotePc.AtCall? && p.remote == [] }

  /** No callback, no Terminate and no request is running. */
  predicate Resting(p: Peer) { p.callback.CbIdle? && p.terminate.NotTerminating? && RemoteIdle(p) }

  /** Terminate can move unless it waits in a join. */
  predicate CanTerminate(p: Peer) {
    && !p.terminate.NotTerminating?
    && (p.terminate.TermJoinTimer? ==> !p.timer.Live?)
    && (p.terminate.TermJoinSender? ==> !p.sender.Live?)
  }

  /** So can the callback thread. */
  predicate CanCallback(p: Peer) {
    !p.callback.CbIdle? && (p.callback.CbEmitJoin? ==> !p.sender.Live?)
  }

  // The step functions below give each field its next value; the fields not named stay.

  /** RestartIce, SetRemoteIce and SetRemoteSdp, call by call. */
  function NextRemote(p: Peer, choice: bool): Peer
    requires !RemoteIdle(p)
  {
    var pc := p.remotePc;
    var dereferences := !pc.AtCall? || p.remote[0].ReadDescriptions?;
    p.(remote := if pc.AtCall? then p.remote[1..] else p.remote,
       offered := p.offered || (pc.AtCall? && p.remote[0].SetSdp? && !p.connected),
       added := if pc.AtAddCandidate? then p.added + [pc.candidate] else p.added,
       offers := if pc.AtApply? && choice then p.offers + 1 else p.offers,
       descriptions := if pc.AtLocal? && choice then p.descriptions + 1 else p.descriptions,
       fault := if dereferences && !p.connection then NullConnectionUsed else NoFault,
       remotePc := match pc
                   case AtCall =>
                     if p.connected || p.remote[0].ReadDescriptions? then AtCall
                     else if p.remote[0].AddIce? then AtAddCandidate(p.remote[0].candidate) else AtApply
                   case AtAddCandidate(_) => AtCall
                   case AtApply => AtAnswer
                   case AtAnswer => AtLocal
                   case AtLocal => AtCall)
  }

  /** Terminate, statement by statement. */
  function NextTerminate(p: Peer): Peer {
    var pc := p.terminate;
    p.(connected := p.connected && !pc.TermUnflag?,
       complete := p.complete || pc.TermComplete?,
       timer := if pc.TermJoinTimer? then NotJoinable else p.timer,
       sender := if pc.TermJoinSender? then NotJoinable else p.sender,
       handler := if pc.TermClearHandler? then None else p.handler,
       closes := if pc.TermClose? && p.connection then p.closes + 1 else p.closes,
       connection := p.connection && !pc.TermNull?,
       description := p.description && !pc.TermRelease?,
       terminated := p.terminated || pc.TermRelease?,
       terminate := match pc
                    case NotTerminating => NotTerminating
                    case TermUnflag => TermComplete
                    case TermComplete => TermJoinTimer
                    case TermJoinTimer => TermJoinSender
                    case TermJoinSender => TermClearHandler
                    case TermClearHandler => TermClose
                    case TermClose => if p.connection then TermNull else TermRelease
                    case TermNull => TermRelease
                    case TermRelease => NotTerminating)
  }

  function Less(n: nat): nat { if n == 0 then 0 else n - 1 }

  /** The library invokes one of the registered callbacks. */
  function NextReport(p: Peer, event: Event): Peer {
    p.(offers := if event.HaveRemoteOffer? then Less(p.offers) else p.offers,
       descriptions := if event.LocalDescription? then Less(p.descriptions) else p.descriptions,
       callback := match event
                   case HaveRemoteOffer => CbSpawnTimer
                   case Connected => CbConnectedFlag
                   case Failed => CbFailedFlag
                   case Closed => CbClosedFlag
                   case LocalDescription => CbDescribe
                   case LocalCandidate => CbCandidateCheck)
  }

  /** What goes wrong in one statement of send_sdp, on whichever thread runs it. */
  function SendFault(p: Peer, pc: SendPc): Fault {
    match pc
    case ReadDescription => if p.description then NoFault else NullDescriptionUsed
    case CallHandler => if p.handler.Some? then NoFault else EmptyHandlerCalled
    case ClearHandler => NoFault
  }

  /** OnSignalingStateChange, OnConnectionChange, OnIceCandidate, OnLocalDescription with EmitLocalSdp. */
  function NextCallback(p: Peer): Peer {
    var pc := p.callback;
    p.(connected := (p.connected || pc.CbConnectedFlag?) && !pc.CbFailedFlag? && !pc.CbClosedFlag?,
       complete := p.complete || pc.CbClosedComplete?,
       description := p.description || pc.CbDescribe?,
       handler := if pc.CbConnectedClear? || pc == CbEmitSend(ClearHandler) then None else p.handler,
       timer := if pc.CbSpawnTimer? then Live(ReadConnection) else p.timer,
       sender := if pc.CbEmitJoin? then NotJoinable
                 else if pc.CbEmitSpawn? then Live(ReadDescription) else p.sender,
       closes := if pc.CbFailedClose? && p.connection then p.closes + 1 else p.closes,
       fired := if pc == CbEmitSend(CallHandler) && p.handler.Some? then p.fired + 1 else p.fired,
       fault := match pc
                case CbSpawnTimer => if p.timer.Joinable() then AssignOverJoinable else NoFault
                case CbEmitSpawn => if p.sender.Joinable() then AssignOverJoinable else NoFault
                case CbFailedClose => if p.connection then NoFault else NullConnectionUsed
                case CbCandidateAdd => if p.description then NoFault else NullDescriptionUsed
                case CbEmitSend(sendPc) => SendFault(p, sendPc)
                case _ => NoFault,
       callback := match pc
                   case CbConnectedFlag => CbConnectedClear
                   case CbFailedFlag => CbFailedClose
                   case CbClosedFlag => CbClosedComplete
                   case CbCandidateCheck => if p.delayed && p.description then CbCandidateAdd else CbIdle
                   case CbDescribe => CbEmitCheck
                   case CbEmitCheck => if p.handler.Some? then CbEmitJoin else CbIdle
                   case CbEmitJoin => if p.delayed then CbEmitSpawn else CbEmitSend(ReadDescription)
                   case CbEmitSend(ReadDescription) => CbEmitSend(CallHandler)
                   case CbEmitSend(CallHandler) => CbEmitSend(ClearHandler)
                   case _ => CbIdle)
  }

  /** The body of the timeout thread: three reads, then close. */
  function NextTimer(p: Peer): Peer
    requires p.timer.Live?
  {
    var pc := p.timer.pc;
    p.(closes := if pc.CloseNow? && p.connection then p.closes + 1 else p.closes,
       fault := if pc.CloseNow? && !p.connection then NullConnectionUsed else NoFault,
       timer := match pc
                case ReadConnection => if p.connection then Live(ReadComplete) else Finished
                case ReadComplete => if p.complete then Finished else Live(ReadConnected)
                case ReadConnected => if p.connected then Finished else Live(CloseNow)
                case CloseNow => Finished)
  }

  /** The body of the delayed SDP-send thread. */
  function NextSender(p: Peer): Peer
    requires p.sender.Live?
  {
    var pc := p.sender.pc;
    p.(handler := if pc.ClearHandler? then None else p.handler,
       fired := if pc.CallHandler? && p.handler.Some? then p.fired + 1 else p.fired,
       fault := SendFault(p, pc),
       sender := match pc
                 case ReadDescription => Live(CallHandler)
                 case CallHandler => Live(ClearHandler)
                 case ClearHandler => Finished)
  }

  /** One step. A step that is not enabled changes nothing, and a faulted peer is stopped. */
  function Next(p: Peer, step: PeerStep): Peer {
    if !p.fault.NoFault? then p else
    match step
    case Register(session) =>
      if p.registered.None? then p.(handler := Some(session), registered := Some(session)) else p
    case StartRemote(calls) => if RemoteIdle(p) then p.(remote := calls) else p
    case RemoteStep(choice) => if RemoteIdle(p) then p else NextRemote(p, choice)
    case StartTerminate => if p.terminate.NotTerminating? then p.(terminate := TermUnflag) else p
    case TerminateStep => if CanTerminate(p) then NextTerminate(p) else p
    case Report(event) => if p.callback.CbIdle? then NextReport(p, event) else p
    case CallbackStep => if CanCallback(p) then NextCallback(p) else p
    case TimerStep => if p.timer.Live? then NextTimer(p) else p
    case SenderStep => if p.sender.Live? then NextSender(p) else p
  }

  lemma CallbackId(p: Peer)
    ensures NextCallback(p).id == p.id
  {
  }

  lemma CallId(p: Peer, choice: bool)
    requires !RemoteIdle(p)
    ensures NextRemote(p, choice).id == p.id
  {
  }

  lemma ThreadId(p: Peer)
    ensures NextTerminate(p).id == p.id
    ensures p.timer.Live? ==> NextTimer(p).id == p.id
    ensures p.sender.Live? ==> NextSender(p).id == p.id
  {
  }

  lemma NextId(p: Peer, step: PeerStep)
    ensures Next(p, step).id == p.id
  {
    match step
    case Register(_) =>
    case StartRemote(_) =>
    case RemoteStep(choice) => if !RemoteIdle(p) { CallId(p, choice); }
    case StartTerminate =>
    case TerminateStep => ThreadId(p);
    case Report(_) =>
    case CallbackStep => CallbackId(p);
    case TimerStep => ThreadId(p);
    case SenderStep => ThreadId(p);
  }

  /** A whole interleaving. */
  function Exec(p: Peer, schedule: seq<PeerStep>): Peer {
    if schedule == [] then p
    else Next(Exec(p, schedule[..|schedule| - 1]), schedule[|schedule| - 1])
  }

  // ----- what the surroundings promise -----

  /** Some Terminate has begun. */
  predicate Begun(p: Peer) { p.terminated || !p.terminate.NotTerminating? }

  /** A send that has not called the handler yet. */
  predicate Owes(sender: Thread<SendPc>) { sender == Live(ReadDescription) || sender == Live(CallHandler) }

  /** OnLocalDescription is running. */
  predicate Emitting(p: Peer) {
    p.callback.CbDescribe? || p.callback.CbEmitCheck? || p.callback.CbEmitJoin?
    || p.callback.CbEmitSpawn? || p.callback.CbEmitSend?
  }

  /** It is running, has a handler, and has not called it yet. */
  predicate Emits(p: Peer) { p.handler.Some? && Emitting(p) && p.callback != CbEmitSend(ClearHandler) }

  /** OnIceCandidate is running and is going to use the description. */
  predicate AddsCandidate(p: Peer) {
    p.callback.CbCandidateAdd? || (p.callback.CbCandidateCheck? && p.delayed && p.description)
  }

  /** Everything assumed of the WebRTC library and of scheduling. */
  datatype Assumption =
    | OfferOnce                     // one HaveRemoteOffer per accepted offer
    | OfferBeforeTerminate          // none once Terminate has begun
    | DescriptionOnce               // one local description per setLocalDescription
    | DescriptionNotWhileClearing   // none while the first Terminate has yet to clear the handler
    | ConnectedAfterSend            // no Connected while an SDP send has yet to call the handler
    | FailedBeforeTerminate         // no Failed once Terminate has begun
    | CandidateNotWhileTerminating  // no candidate to add while a Terminate is running
    | TerminateOutsideOffer         // a Terminate does not start inside these four callbacks
    | TerminateOutsideFailed
    | TerminateOutsideDescription
    | TerminateOutsideCandidate
    | RestartWhenConnected          // a second SetRemoteSdp finds the peer connected

  predicate Holds(a: Assumption, p: Peer, step: PeerStep) {
    match a
    case OfferOnce => step == Report(HaveRemoteOffer) ==> p.offers > 0
    case OfferBeforeTerminate => step == Report(HaveRemoteOffer) ==> !Begun(p)
    case DescriptionOnce => step == Report(LocalDescription) ==> p.descriptions > 0
    case DescriptionNotWhileClearing => step == Report(LocalDescription) ==> !(Begun(p) && p.handler.Some?)
    case ConnectedAfterSend => step == Report(Connected) ==> !Owes(p.sender)
    case FailedBeforeTerminate => step == Report(Failed) ==> !Begun(p)
    case CandidateNotWhileTerminating =>
      step == Report(LocalCandidate) && p.delayed && p.description ==> p.terminate.NotTerminating?
    case TerminateOutsideOffer => step.StartTerminate? && p.callback.CbSpawnTimer? ==> p.terminated
    case TerminateOutsideFailed =>
      step.StartTerminate? && (p.callback.CbFailedFlag? || p.callback.CbFailedClose?) ==> p.terminated
    case TerminateOutsideDescription => step.StartTerminate? ==> !Emits(p)
    case TerminateOutsideCandidate => step.StartTerminate? ==> !AddsCandidate(p)
    case RestartWhenConnected =>
      step.RemoteStep? && p.remotePc.AtCall? && p.remote != [] && p.remote[0].SetSdp? ==>
        !p.offered || p.connected
  }

  /** Every assumption that is not dropped. */
  predicate Keeps(dropped: set<Assumption>, p: Peer, step: PeerStep) {
    forall a: Assumption :: a !in dropped ==> Holds(a, p, step)
  }

  /** How the HTTP service drives a peer; proved of it in ServiceSafety. */
  predicate Disciplined(p: Peer, step: PeerStep) {
    match step
    case Register(_) => !Begun(p)
    case StartRemote(_) => !Begun(p)
    case StartTerminate => RemoteIdle(p)
    case _ => true
  }

  /** Each step of the schedule respects both in the state it is taken in. */
  predicate Fair(dropped: set<Assumption>, p: Peer, schedule: seq<PeerStep>) {
    schedule == [] ||
    var before := schedule[..|schedule| - 1];
    var step := schedule[|schedule| - 1];
    Fair(dropped, p, before) && Keeps(dropped, Exec(p, before), step) && Disciplined(Exec(p, before), step)
  }

  /** p is where the schedule leads from start, and the schedule is fair. */
  predicate Ran(dropped: set<Assumption>, start: Peer, schedule: seq<PeerStep>, p: Peer) {
    p == Exec(start, schedule) && Fair(dropped, start, schedule)
  }

  lemma Take(dropped: set<Assumption>, start: Peer, schedule: seq<PeerStep>, p: Peer, step: PeerStep)
    returns (longer: seq<PeerStep>, q: Peer)
    requires Ran(dropped, start, schedule, p) && Keeps(dropped, p, step) && Disciplined(p, step)
    ensures q == Next(p, step) && Ran(dropped, start, longer, q)
    ensures forall other :: other in longer ==> other in schedule || other == step
  {
    longer, q := schedule + [step], Next(p, step);
    assert longer[..|longer| - 1] == schedule;
  }

  /** A fault, or a Terminate that has returned and left a joinable thread behind. */
  predicate Unsafe(p: Peer) {
    || !p.fault.NoFault?
    || (p.terminated && p.terminate.NotTerminating? && (p.timer.Joinable() || p.sender.Joinable()))
  }
}
