/** When the connect timeout closes the connection. */
module PeerTimer {
  import opened PeerMachine
  import opened PeerSafety

  /** Alone, a thread that has got this far will call close on the connection. */
  predicate WillClose(p: Peer) {
    p.timer.Live? &&
    match p.timer.pc
    case ReadConnection => p.connection && !p.complete && !p.connected
    case ReadComplete => !p.complete && !p.connected
    case ReadConnected => !p.connected
    case CloseNow => true
  }

  /** What becomes of the peer then. */
  function RanOut(p: Peer): Peer {
    p.(timer := if p.timer.Live? then Finished else p.timer, closes := p.closes + One(WillClose(p) && p.connection),
       fault := if WillClose(p) && !p.connection then NullConnectionUsed else p.fault)
  }

  lemma RunOutStep(p: Peer)
    requires p.fault.NoFault? && p.timer.Live?
    ensures var q := NextTimer(p); TimerSteps(q) < TimerSteps(p) && RanOut(q) == RanOut(p)
    ensures !NextTimer(p).fault.NoFault? ==> NextTimer(p).timer.Finished?
  {
  }

  /** The thread alone comes to its end; without a connection it uses a null pointer if it gets as far. */
  lemma {:induction false} RunOut(start: Peer, before: seq<PeerStep>, p: Peer) returns (s: seq<PeerStep>)
    requires Ran({}, start, before, p) && (p.timer.Live? ==> p.fault.NoFault?)
    requires forall step :: step in before ==> step.TimerStep?
    ensures Ran({}, start, s, RanOut(p)) && forall step :: step in s ==> step.TimerStep?
    decreases TimerSteps(p)
  {
    s := before;
    if p.timer.Live? {
      var q;
      RunOutStep(p);
      s, q := Take({}, start, before, p, TimerStep);
      s := RunOut(start, s, q);
    }
  }

  /**
  Alone, the thread comes to its end, and closes a connection that is there, of a peer that is neither
  complete nor connected, and no other.
  */
  lemma TimeoutAlone(p: Peer) returns (alone: seq<PeerStep>)
    requires p.fault.NoFault? && p.timer == Live(ReadConnection)
    ensures forall step :: step in alone ==> step.TimerStep?
    ensures Ran({}, p, alone, p.(timer := Finished,
                                 closes := p.closes + One(p.connection && !p.complete && !p.connected)))
  {
    alone := RunOut(p, [], p);
  }

  // ----- over schedules -----

  /** How often the thread has closed the connection. */
  function TimeoutCloses(p: Peer, schedule: seq<PeerStep>): int {
    if schedule == [] then 0 else
    var before, step := schedule[..|schedule| - 1], schedule[|schedule| - 1];
    TimeoutCloses(p, before)
    + if step.TimerStep? then Exec(p, schedule).closes - Exec(p, before).closes else 0
  }

  /** It holds before, after and between all steps. */
  ghost predicate Throughout(p: Peer, schedule: seq<PeerStep>, holds: Peer -> bool) {
    holds(Exec(p, schedule)) && (schedule != [] ==> Throughout(p, schedule[..|schedule| - 1], holds))
  }

  /** Of a peer that is connected all the time, or complete all the time, a new timeout thread closes nothing. */
  lemma {:induction false} NeverTimesOut(p: Peer, schedule: seq<PeerStep>)
    requires p.timer == Live(ReadConnection)
    requires Throughout(p, schedule, (q: Peer) => q.connected) || Throughout(p, schedule, (q: Peer) => q.complete)
    ensures TimeoutCloses(p, schedule) == 0 && Exec(p, schedule).timer != Live(CloseNow)
    ensures Throughout(p, schedule, (q: Peer) => q.complete) ==> Exec(p, schedule).timer != Live(ReadConnected)
  {
    if schedule == [] {
    } else {
      NeverTimesOut(p, schedule[..|schedule| - 1]);
      OpenStep(Exec(p, schedule[..|schedule| - 1]), schedule[|schedule| - 1]);
    }
  }

  /** What one step does to the thread. */
  lemma OpenStep(p: Peer, step: PeerStep)
    requires p.timer != Live(CloseNow) && (p.connected || (p.complete && p.timer != Live(ReadConnected)))
    ensures Next(p, step).timer != Live(CloseNow)
    ensures p.complete && p.timer != Live(ReadConnected) ==> Next(p, step).timer != Live(ReadConnected)
    ensures step.TimerStep? ==> Next(p, step).closes == p.closes
  {
    match step
    case CallbackStep => if CanCallback(p) { CallbackTimer(p); }
    case RemoteStep(choice) => if !RemoteIdle(p) { OutsideTimer(p, choice); }
    case TerminateStep => TerminateTimer(p);
    case TimerStep => if p.timer.Live? { OpenTimer(p); }
    case Report(_) =>
    case SenderStep =>
    case _ =>
  }

  lemma OpenTimer(p: Peer)
    requires p.timer.Live? && p.timer.pc != CloseNow
    requires p.connected || (p.complete && p.timer != Live(ReadConnected))
    ensures NextTimer(p).timer != Live(CloseNow) && NextTimer(p).closes == p.closes
    ensures p.complete && p.timer != Live(ReadConnected) ==> NextTimer(p).timer != Live(ReadConnected)
  {
  }

  lemma TerminateTimer(p: Peer)
    ensures NextTerminate(p).timer == if p.terminate.TermJoinTimer? then NotJoinable else p.timer
  {
  }

  lemma CallbackTimer(p: Peer)
    ensures NextCallback(p).timer == if p.callback.CbSpawnTimer? then Live(ReadConnection) else p.timer
    ensures p.callback.CbSpawnTimer? && p.timer.Joinable() ==> !NextCallback(p).fault.NoFault?
  {
  }

  lemma OutsideTimer(p: Peer, choice: bool)
    requires !RemoteIdle(p)
    ensures NextRemote(p, choice).timer == p.timer
  {
  }

  /** The connection is there, and the peer neither complete nor connected. */
  predicate Overdue(p: Peer) { p.connection && !p.complete && !p.connected }

  /** The thread has closed the connection if and only if it is finished. */
  predicate Counted(p: Peer, closes: int) {
    && !p.timer.NotJoinable? && (p.timer.Finished? ==> closes == 1) && !PastFlags(p)
    && (p.fault.NoFault? && p.timer.Live? ==> closes == 0)
  }

  lemma OverdueStep(p: Peer, step: PeerStep, closes: int)
    requires Overdue(p) && Counted(p, closes) && Overdue(Next(p, step))
    ensures Counted(Next(p, step), closes + if step.TimerStep? then Next(p, step).closes - p.closes else 0)
  {
    match step
    case CallbackStep => if CanCallback(p) { CallbackTimer(p); }
    case RemoteStep(choice) => if !RemoteIdle(p) { OutsideTimer(p, choice); }
    case _ =>
  }

  /** Of a peer that is overdue all the time the thread closes the connection exactly once, and is then finished. */
  lemma {:induction false} TimesOutOnce(p: Peer, schedule: seq<PeerStep>)
    requires Sound(p) && p.timer == Live(ReadConnection) && Throughout(p, schedule, (q: Peer) => Overdue(q))
    ensures Counted(Exec(p, schedule), TimeoutCloses(p, schedule))
  {
    if schedule == [] {
    } else {
      var before := schedule[..|schedule| - 1];
      TimesOutOnce(p, before);
      OverdueStep(Exec(p, before), schedule[|schedule| - 1], TimeoutCloses(p, before));
    }
  }

  /** There is one timeout thread at most, and it closes at most once. */
  predicate OnceAtMost(p: Peer, closes: int) {
    0 <= closes <= 1 && (closes == 1 ==> p.offered && (p.timer.Finished? || TimerChances(p) == 0))
  }

  lemma OnceStep(p: Peer, step: PeerStep, closes: int)
    requires Sound(p) && OnceAtMost(p, closes) && Keeps({}, p, step) && Disciplined(p, step)
    ensures OnceAtMost(Next(p, step), closes + if step.TimerStep? then Next(p, step).closes - p.closes else 0)
  {
    match step
    case CallbackStep => if CanCallback(p) { CallbackTimer(p); }
    case Report(event) => assert Holds(OfferOnce, p, step);
    case RemoteStep(choice) => assert Holds(RestartWhenConnected, p, step);
    case _ =>
  }

  /** Under the assumptions the timeout closes the connection of a peer at most once. */
  lemma {:induction false} TimesOutAtMostOnce(id: string, delayed: bool, schedule: seq<PeerStep>)
    requires Fair({}, Fresh(id, delayed), schedule)
    ensures var p := Fresh(id, delayed);
            Sound(Exec(p, schedule)) && OnceAtMost(Exec(p, schedule), TimeoutCloses(p, schedule))
  {
    var p := Fresh(id, delayed);
    SoundExec(p, schedule);
    if schedule == [] {
    } else {
      var before := schedule[..|schedule| - 1];
      TimesOutAtMostOnce(id, delayed, before);
      OnceStep(Exec(p, before), schedule[|schedule| - 1], TimeoutCloses(p, before));
    }
  }
}
