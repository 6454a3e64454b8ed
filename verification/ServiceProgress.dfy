/** A request's handler is never stuck: the answer it owes can always be reached, and nothing sets it back. */
module ServiceProgress {
  import opened Basics
  import opened PeerMachine
  import opened PeerSafety
  import opened PeerProgress
  import opened PeerOverlap
  import opened ServiceMachine
  import opened ServiceSafety
  import opened ServiceMap
  import ServiceAnswers

  // ----- a handler that waits for a peer -----

  predicate Waiting(s: Service) { (s.http.Patching? || s.http.Deleting?) && s.http.ref in s.peers }

  /** Steps between here and the answer, the last one not counted. */
  function WorkLeft(s: Service): nat
    requires Waiting(s)
  {
    var p := s.peers[s.http.ref];
    if s.http.Patching? then CallSteps(p)
    else if p.terminate.NotTerminating? then 0 else StepsLeft(p)
  }

  // ----- continuations that keep the assumptions -----

  ghost predicate AssumedFrom(s: Service, after: seq<Step>) {
    after == [] ||
    var before := after[..|after| - 1];
    AssumedFrom(s, before) && Assumed(Continue(s, before), after[|after| - 1])
  }

  /** s is safe, and where such a continuation leads from start. */
  ghost predicate Went(start: Service, after: seq<Step>, s: Service) {
    s == Continue(start, after) && AssumedFrom(start, after) && Safe(s)
  }

  lemma Go(start: Service, before: seq<Step>, s: Service, step: Step) returns (after: seq<Step>, t: Service)
    requires Went(start, before, s) && Assumed(s, step)
    ensures Went(start, after, t) && t == NextService(s, step)
  {
    after, t := before + [step], NextService(s, step);
    assert after[..|after| - 1] == before;
    SafeStep(s, step);
  }

  lemma {:induction false} AssumedServes(before: seq<Step>, after: seq<Step>)
    requires AssumedThroughout(before) && AssumedFrom(Serve(before), after)
    ensures AssumedThroughout(before + after)
  {
    if after == [] {
      assert before + after == before;
    } else {
      var last := |after| - 1;
      AssumedServes(before, after[..last]);
      ContinueServes(before, after[..last]);
      assert (before + after)[..|before + after| - 1] == before + after[..last];
    }
  }

  /** Only r has moved, and answered if it was its time to. */
  predicate OnlyPeer(s: Service, r: Ref, q: Peer, t: Service) {
    t == s.(peers := s.peers[r := q], log := t.log)
  }

  /** One step of the peer. */
  lemma GoPeerStep(start: Service, before: seq<Step>, s: Service, r: Ref, step: PeerStep)
    returns (after: seq<Step>, t: Service)
    requires Went(start, before, s) && r in s.peers && r !in s.destroyed
    requires Internal(step) && Keeps({}, s.peers[r], step) && Sound(s.peers[r])
    ensures Went(start, after, t) && OnlyPeer(s, r, Next(s.peers[r], step), t)
  {
    after, t := Go(start, before, s, OfPeer(r, step));
    SoundStep(s.peers[r], step);
    PeerStepOnly(s, r, step);
  }

  lemma PeerStepOnly(s: Service, r: Ref, step: PeerStep)
    requires r in s.peers && r !in s.destroyed && !s.stopped && Internal(step) && Next(s.peers[r], step).fault.NoFault?
    ensures OnlyPeer(s, r, Next(s.peers[r], step), NextService(s, OfPeer(r, step)))
  {
  }

  lemma OnlyPeerTwice(s: Service, r: Ref, p: Peer, t: Service, q: Peer, u: Service)
    requires OnlyPeer(s, r, p, t) && OnlyPeer(t, r, q, u)
    ensures OnlyPeer(s, r, q, u)
  {
    assert s.peers[r := p][r := q] == s.peers[r := q];
  }

  lemma PeerIsSound(s: Service, r: Ref)
    requires Safe(s) && r in s.peers
    ensures Sound(s.peers[r]) && Walked(s.peers[r], [], s.peers[r])
  {
    assert PeerPlaced(s, r);
  }

  /** What a peer can be brought to, it can be brought to in the service. */
  lemma {:induction false} GoPeer(start: Service, before: seq<Step>, s: Service, r: Ref, schedule: seq<PeerStep>)
    returns (after: seq<Step>, t: Service)
    requires Went(start, before, s) && r in s.peers && r !in s.destroyed
    requires Inner(schedule) && Fair({}, s.peers[r], schedule)
    ensures Went(start, after, t) && OnlyPeer(s, r, Exec(s.peers[r], schedule), t)
  {
    if schedule == [] {
      after, t := before, s;
      assert s.peers[r := s.peers[r]] == s.peers;
    } else {
      var first, last := schedule[..|schedule| - 1], schedule[|schedule| - 1];
      assert last in schedule;
      var u;
      after, u := GoPeer(start, before, s, r, first);
      PeerIsSound(u, r);
      after, t := GoPeerStep(start, after, u, r, last);
      OnlyPeerTwice(s, r, Exec(s.peers[r], first), u, Exec(s.peers[r], schedule), t);
    }
  }

  // ----- a waiting handler answers -----

  /** No work left: the next step writes the answer. */
  lemma AnswerIsWritten(s: Service)
    requires Waiting(s) && !s.stopped && WorkLeft(s) == 0
    ensures var t := NextService(s, HttpStep(0, ""));
            && t.http.Releasing? && t.sessions == s.sessions
            && |t.log| == |s.log| + 1 && t.log[|s.log|].session == s.http.session
  {
  }

  /** The peer gets through what the handler waits for. */
  lemma FinishWork(start: Service, before: seq<Step>, s: Service) returns (after: seq<Step>, t: Service)
    requires Went(start, before, s) && Waiting(s)
    ensures Went(start, after, t) && t.http == s.http && t.sessions == s.sessions && Waiting(t) && WorkLeft(t) == 0
  {
    var r := s.http.ref;
    var p := s.peers[r];
    PeerIsSound(s, r);
    var schedule, q;
    if s.http.Patching? {
      schedule, q := FinishCalls(p, [], p);
    } else {
      schedule, q := FinishTerminate(p, [], p);
    }
    after, t := GoPeer(start, before, s, r, schedule);
  }

  /**
  From any point of a PATCH or DELETE handler, steps of its own peer, of the library and of its own
  lead past the answer, and every assumption is kept.
  */
  lemma CanFinish(start: Service, before: seq<Step>, s: Service) returns (after: seq<Step>, t: Service)
    requires Went(start, before, s) && (s.http.Patching? || s.http.Deleting?)
    ensures Went(start, after, t) && t.http.Releasing? && t.sessions == s.sessions
  {
    after, t := FinishWork(start, before, s);
    AnswerIsWritten(t);
    after, t := Go(start, after, t, HttpStep(0, ""));
  }

  // ----- nothing sets it back -----

  /** The handler's peer is as it was. */
  lemma SameWork(s: Service, t: Service)
    requires Waiting(s) && t.http == s.http && s.http.ref in t.peers && t.peers[s.http.ref] == s.peers[s.http.ref]
    ensures NotSetBack(s, t)
  {
  }

  lemma PeerNotSetBack(s: Service, step: PeerStep)
    requires Safe(s) && Waiting(s) && Internal(step) && Keeps({}, s.peers[s.http.ref], step)
    ensures NotSetBack(s, NextOfPeer(s, s.http.ref, step))
  {
    var p := s.peers[s.http.ref];
    assert PeerPlaced(s, s.http.ref);
    CallsNotSetBack(p, step);
    InternalFrame(p, step);
    if !p.terminate.NotTerminating? { TerminateNotSetBack(p, step); }
  }

  lemma ScanNotSetBack(s: Service, key: string)
    requires Safe(s) && Waiting(s) && s.cleaner.Scanning?
    ensures NotSetBack(s, NextScan(s, s.cleaner.todo, key))
  {
    SameWork(s, NextScan(s, s.cleaner.todo, key));
  }

  lemma OfPeerNotSetBack(s: Service, r: Ref, step: PeerStep)
    requires Safe(s) && Waiting(s) && (r in s.peers ==> Keeps({}, s.peers[r], step))
    ensures NotSetBack(s, NextService(s, OfPeer(r, step)))
  {
    if r == s.http.ref && Internal(step) {
      PeerNotSetBack(s, step);
    } else {
      SameWork(s, NextService(s, OfPeer(r, step)));
    }
  }

  /**
  Whatever moves, a waiting handler is never set back: it stays where it is with no more work, or its
  answer has just been written.
  */
  lemma HandlerNotSetBack(s: Service, step: Step)
    requires Safe(s) && Assumed(s, step) && Waiting(s)
    ensures NotSetBack(s, NextService(s, step))
  {
    var t := NextService(s, step);
    match step
    case Accept(_, _) => SameWork(s, t);
    case HttpStep(r, id) => HttpNotSetBack(s, r, id);
    case Wake => SameWork(s, t);
    case Scan(key) =>
      if s.cleaner.Scanning? && key in s.cleaner.todo {
        ScanNotSetBack(s, key);
      } else {
        SameWork(s, s);
      }
    case SweepDone => SameWork(s, t);
    case Rest => SameWork(s, t);
    case OfPeer(r, peerStep) => OfPeerNotSetBack(s, r, peerStep);
  }

  predicate NotSetBack(s: Service, t: Service)
    requires Waiting(s)
  {
    || (Waiting(t) && t.http == s.http && WorkLeft(t) <= WorkLeft(s))
    || (t.http.Releasing? && |t.log| == |s.log| + 1 && t.log[|s.log|].session == s.http.session)
  }

  lemma HttpNotSetBack(s: Service, r: Ref, id: string)
    requires Waiting(s)
    ensures NotSetBack(s, NextHttp(s, r, id))
  {
  }

  // ----- the answer comes -----

  /** A handler's first step answers, or makes it wait for a peer. */
  lemma HandleMovesOn(s: Service, session: SessionId)
    requires session in s.sessions && forall key :: key in s.peerMap ==> s.peerMap[key] in s.peers
    requires var plan := PlanFor(s.sessions[session].request); !plan.CreatePeer? && !plan.OutOfRange?
    ensures var t := Handle(s, session, 0, "");
            t.sessions == s.sessions && (t.http.Listening? || (Waiting(t) && t.http.session == session))
  {
    var plan := PlanFor(s.sessions[session].request);
    match plan
    case Reply(_) =>
    case PatchPeer(_, _, _) =>
    case DeletePeer(_) =>
  }

  /** The peer that a DELETE is about to terminate gets out of every callback first. */
  lemma MakeReady(start: Service, before: seq<Step>, s: Service) returns (after: seq<Step>, t: Service)
    requires Went(start, before, s) && s.http.Handling?
    requires !PlanFor(s.sessions[s.http.session].request).OutOfRange?
    ensures Went(start, after, t) && t.http == s.http && t.sessions == s.sessions && Assumed(t, HttpStep(0, ""))
  {
    after, t := before, s;
    var plan := PlanFor(s.sessions[s.http.session].request);
    if plan.DeletePeer? && plan.id in s.peerMap {
      after, t := SettleEntry(start, before, s, plan.id);
    }
  }

  lemma SettleEntry(start: Service, before: seq<Step>, s: Service, key: string) returns (after: seq<Step>, t: Service)
    requires Went(start, before, s) && key in s.peerMap
    ensures Went(start, after, t) && t == s.(peers := t.peers, log := t.log)
    ensures t.peerMap[key] in t.peers && Keeps({}, t.peers[t.peerMap[key]], StartTerminate)
  {
    assert KeyPlaced(s, key);
    var r := s.peerMap[key];
    PeerIsSound(s, r);
    var schedule, q := MayEnd(s.peers[r]);
    after, t := GoPeer(start, before, s, r, schedule);
  }

  lemma MayEnd(p: Peer) returns (s: seq<PeerStep>, q: Peer)
    requires Sound(p)
    ensures Walked(p, s, q) && Keeps({}, q, StartTerminate)
  {
    s, q := Settle(p, [], p);
    StartKeeps(q);
  }

  lemma HandlerMovesOn(start: Service, before: seq<Step>, s: Service) returns (after: seq<Step>, t: Service)
    requires Went(start, before, s) && s.http.Handling?
    requires var plan := PlanFor(s.sessions[s.http.session].request); !plan.CreatePeer? && !plan.OutOfRange?
    ensures Went(start, after, t) && t.sessions == s.sessions
    ensures t.http.Listening? || (Waiting(t) && t.http.session == s.http.session)
  {
    after, t := MakeReady(start, before, s);
    forall key | key in t.peerMap ensures t.peerMap[key] in t.peers { assert KeyPlaced(t, key); }
    HandleMovesOn(t, t.http.session);
    after, t := Go(start, after, t, HttpStep(0, ""));
  }

  /**
  Every request that creates no peer, and does not read a route that is not there, is answered exactly
  once in some continuation of every run, and that continuation keeps every assumption.
  */
  lemma AnswerComes(schedule: seq<Step>) returns (after: seq<Step>)
    requires AssumedThroughout(schedule)
    requires var s := Serve(schedule);
             && (s.http.Handling? || s.http.Patching? || s.http.Deleting?) && s.http.session in s.sessions
             && var plan := PlanFor(s.sessions[s.http.session].request);
                !plan.CreatePeer? && (s.http.Handling? ==> !plan.OutOfRange?)
    ensures AssumedThroughout(schedule + after)
    ensures ServiceAnswers.Count(Serve(schedule + after).log, Serve(schedule).http.session) == 1
  {
    var s := Serve(schedule);
    NeverStops(schedule);
    var t := s;
    after := [];
    if s.http.Handling? { after, t := HandlerMovesOn(s, after, t); }
    if !t.http.Listening? { after, t := CanFinish(s, after, t); }
    AssumedServes(schedule, after);
    ContinueServes(schedule, after);
    ServiceAnswers.ExactlyOneResponse(schedule + after, s.http.session);
  }

  // ----- a POST is answered by its peer -----

  /**
  In every run: a session whose peer has a send under way, or a local description that the library is to
  report, gets its one answer, a 201, in some continuation that keeps every assumption.
  */
  lemma PendingAnswerComes(schedule: seq<Step>, r: Ref) returns (after: seq<Step>)
    requires AssumedThroughout(schedule)
    requires r in Serve(schedule).peers && r !in Serve(schedule).destroyed && CanAnswer(Serve(schedule).peers[r])
    ensures AssumedThroughout(schedule + after)
    ensures var session := Serve(schedule).peers[r].handler.value;
            ServiceAnswers.Count(Serve(schedule).log, session) == 0
            && ServiceAnswers.Count(Serve(schedule + after).log, session) == 1
  {
    var s := Serve(schedule);
    NeverStops(schedule);
    PeerIsSound(s, r);
    var p := s.peers[r];
    var steps, q := SendAnswer(p, [], p);
    var t;
    after, t := GoPeer(s, [], s, r, steps);
    AssumedServes(schedule, after);
    ContinueServes(schedule, after);
    ServiceAnswers.AnswersAlways(schedule);
    ServiceAnswers.AnswersAlways(schedule + after);
    assert ServiceAnswers.PeerAnswers(s, r) && ServiceAnswers.PeerAnswers(t, r);
  }

  /** POST up to its SetRemoteSdp. */
  lemma PostOffers(s: Service, r: Ref, id: string) returns (after: seq<Step>, t: Service)
    requires Safe(s) && s.http.Handling? && IsNew(s, r, id) && r !in s.destroyed
    requires PlanFor(s.sessions[s.http.session].request).CreatePeer?
    ensures Went(s, after, t) && r in t.peers && r !in t.destroyed && OfferPending(t.peers[r], s.http.session)
  {
    after, t := Go(s, [], s, HttpStep(r, id));
    PostCreates(s, r, id);
    PostRegisters(t, s.http.session, r, id);
    after, t := Go(s, after, t, HttpStep(r, id));
  }

  lemma PostCreates(s: Service, r: Ref, id: string)
    requires Safe(s) && s.http.Handling? && IsNew(s, r, id)
    requires PlanFor(s.sessions[s.http.session].request).CreatePeer?
    ensures var t := NextService(s, HttpStep(r, id));
            && t.http == Registering(s.http.session, r) && !t.stopped && t.destroyed == s.destroyed
            && r in t.peers && t.peers[r] == Fresh(id, true)
  {
  }

  lemma PostRegisters(s: Service, session: SessionId, r: Ref, id: string)
    requires s.http == Registering(session, r) && !s.stopped && r in s.peers && s.peers[r] == Fresh(id, true)
    ensures Assumed(s, HttpStep(r, id))
    ensures var t := NextService(s, HttpStep(r, id));
            r in t.peers && t.destroyed == s.destroyed && OfferPending(t.peers[r], session)
  {
  }

  /** And so every POST that creates a peer can be answered, once, in a continuation that keeps every assumption. */
  lemma PostIsAnswered(schedule: seq<Step>, r: Ref, id: string) returns (after: seq<Step>)
    requires AssumedThroughout(schedule)
    requires var s := Serve(schedule);
             && s.http.Handling? && s.http.session in s.sessions && IsNew(s, r, id)
             && PlanFor(s.sessions[s.http.session].request).CreatePeer?
    ensures AssumedThroughout(schedule + after)
    ensures ServiceAnswers.Count(Serve(schedule + after).log, Serve(schedule).http.session) == 1
  {
    var s := Serve(schedule);
    NeverStops(schedule);
    var t;
    after, t := PostOffers(s, r, id);
    PeerIsSound(t, r);
    var steps, q := AnswerOffer(t.peers[r], [], t.peers[r], s.http.session);
    after, t := GoPeer(s, after, t, r, steps);
    AssumedServes(schedule, after);
    ContinueServes(schedule, after);
    ServiceAnswers.AnswersAlways(schedule + after);
    assert ServiceAnswers.PeerAnswers(t, r);
  }

  // ----- the HTTP thread listens again -----

  /** Nobody else holds the peer: its destructor runs. */
  lemma DestroyEnds(start: Service, before: seq<Step>, s: Service) returns (after: seq<Step>, t: Service)
    requires Went(start, before, s) && s.http.Destroying?
    ensures Went(start, after, t) && t.http.Listening?
  {
    var r := s.http.ref;
    PeerIsSound(s, r);
    var schedule, q := FinishTerminate(s.peers[r], [], s.peers[r]);
    after, t := GoPeer(start, before, s, r, schedule);
    Destroyed(t);
    after, t := Go(start, after, t, HttpStep(0, ""));
  }

  lemma Destroyed(s: Service)
    requires s.http.Destroying? && s.http.ref in s.peers && s.peers[s.http.ref].terminate.NotTerminating?
    requires !s.stopped
    ensures Assumed(s, HttpStep(0, "")) && NextService(s, HttpStep(0, "")).http.Listening?
  {
  }

  lemma Released(s: Service)
    requires s.http.Releasing? && s.http.ref in s.peers && Keeps({}, s.peers[s.http.ref], StartTerminate) && !s.stopped
    ensures Assumed(s, HttpStep(0, ""))
    ensures var t := NextService(s, HttpStep(0, "")); t.http.Listening? || t.http.Destroying?
  {
  }

  lemma ReleaseEnds(start: Service, before: seq<Step>, s: Service) returns (after: seq<Step>, t: Service)
    requires Went(start, before, s) && s.http.Releasing?
    ensures Went(start, after, t) && t.http.Listening?
  {
    var r := s.http.ref;
    PeerIsSound(s, r);
    var schedule, q := MayEnd(s.peers[r]);
    after, t := GoPeer(start, before, s, r, schedule);
    Released(t);
    after, t := Go(start, after, t, HttpStep(0, ""));
    if !t.http.Listening? { after, t := DestroyEnds(start, after, t); }
  }

  lemma OfferEnds(start: Service, before: seq<Step>, s: Service) returns (after: seq<Step>, t: Service)
    requires Went(start, before, s) && (s.http.Registering? || s.http.Offering?)
    ensures Went(start, after, t) && t.http.Releasing?
  {
    after, t := before, s;
    if s.http.Registering? { after, t := Go(start, after, t, HttpStep(0, "")); }
    var r := t.http.ref;
    PeerIsSound(t, r);
    var schedule, q := FinishCalls(t.peers[r], [], t.peers[r]);
    after, t := GoPeer(start, after, t, r, schedule);
    after, t := Go(start, after, t, HttpStep(0, ""));
  }

  /** A request is being handled that will not read a route that is not there; a POST has an address and id to give. */
  predicate Handles(s: Service, r: Ref, id: string) {
    s.http.Handling? && s.http.session in s.sessions ==>
      var plan := PlanFor(s.sessions[s.http.session].request);
      !plan.OutOfRange? && (plan.CreatePeer? ==> IsNew(s, r, id))
  }

  /** From every point of a handler the HTTP thread can get back to listening without breaking an assumption. */
  lemma ListensAgain(s: Service, r: Ref, id: string) returns (after: seq<Step>, t: Service)
    requires Safe(s) && Handles(s, r, id)
    ensures Went(s, after, t) && t.http.Listening?
  {
    after, t := [], s;
    if s.http.Handling? {
      if PlanFor(s.sessions[s.http.session].request).CreatePeer? {
        after, t := Go(s, after, t, HttpStep(r, id));
      } else {
        after, t := HandlerMovesOn(s, after, t);
      }
    }
    if t.http.Registering? || t.http.Offering? { after, t := OfferEnds(s, after, t); }
    if t.http.Patching? || t.http.Deleting? { after, t := CanFinish(s, after, t); }
    if t.http.Releasing? { after, t := ReleaseEnds(s, after, t); }
    if t.http.Destroying? { after, t := DestroyEnds(s, after, t); }
  }
}
