/** The cleaner of the peer map: what one clean-up leaves, and that it always ends. */
module ServiceCleaner {
  import opened PeerMachine
  import opened PeerProgress
  import opened ServiceMachine
  import opened ServiceSafety
  import opened ServiceMap
  import opened ServiceProgress

  /** The keys it has yet to visit. */
  function Todo(s: Service): set<string> { if s.cleaner.Asleep? then {} else s.cleaner.todo }

  /** A step of the cleaner, or of the peer it waits for. */
  predicate CleaningStep(s: Service, step: Step) {
    step.Scan? || step.SweepDone? || step.Rest? || (step.OfPeer? && s.cleaner.Sweeping? && step.ref == s.cleaner.ref)
  }

  /** Nobody else moves. */
  ghost predicate Uninterrupted(s: Service, after: seq<Step>) {
    after == [] ||
    var before, step := after[..|after| - 1], after[|after| - 1];
    Uninterrupted(s, before) && CleaningStep(Continue(s, before), step) && Assumed(Continue(s, before), step)
  }

  /** The entries visited are gone exactly if their peers were not connected; all else is as it was. */
  ghost predicate PartClean(start: Service, s: Service) {
    && s.http == start.http && Todo(s) <= start.peerMap.Keys
    && (forall key :: key in s.peerMap ==> Untouched(start, s, key))
    && (forall key :: key in start.peerMap && start.peerMap[key] in start.peers ==>
          (key in s.peerMap <==> key in Todo(s) || start.peers[start.peerMap[key]].connected))
  }

  predicate Untouched(start: Service, s: Service, key: string)
    requires key in s.peerMap
  {
    var r := s.peerMap[key];
    key in start.peerMap && start.peerMap[key] == r && r in start.peers && r in s.peers && s.peers[r] == start.peers[r]
  }

  /** The cleaner wakes with every key to visit. */
  lemma WakeVisitsAll(s: Service)
    requires Safe(s) && s.cleaner.Asleep?
    ensures var t := NextService(s, Wake); Todo(t) == s.peerMap.Keys && Safe(t) && PartClean(s, t)
  {
    SafeStep(s, Wake);
    forall key | key in s.peerMap ensures s.peerMap[key] in s.peers { assert KeyPlaced(s, key); }
  }

  lemma ScanCleans(start: Service, s: Service, key: string)
    requires Safe(s) && PartClean(start, s) && s.cleaner.Scanning? && key in s.cleaner.todo
    ensures PartClean(start, NextScan(s, s.cleaner.todo, key))
  {
    var t := NextScan(s, s.cleaner.todo, key);
    if key !in s.peerMap || s.peers[s.peerMap[key]].connected {
      assert key in s.peerMap ==> Untouched(start, s, key);
      forall other | other in t.peerMap ensures Untouched(start, t, other) {
        assert Untouched(start, s, other);
      }
    } else {
      EraseCleans(start, s, key, t);
    }
  }

  /** An entry goes, and at most its own peer changes. */
  lemma EraseCleans(start: Service, s: Service, key: string, t: Service)
    requires Safe(s) && PartClean(start, s) && s.cleaner.Scanning? && key in s.cleaner.todo && key in s.peerMap
    requires !s.peers[s.peerMap[key]].connected
    requires t.http == s.http && Todo(t) == s.cleaner.todo - {key} && t.peerMap == s.peerMap - {key}
    requires t.peers == s.peers || t.peers == Tell(s, s.peerMap[key], StartTerminate).peers
    ensures PartClean(start, t)
  {
    OnlyKey(s, key);
    assert Untouched(start, s, key);
    forall other | other in t.peerMap ensures Untouched(start, t, other) {
      assert Untouched(start, s, other);
    }
  }

  /** The peer it waits for is in the map no more. */
  lemma SweepCleans(start: Service, s: Service, step: PeerStep)
    requires Safe(s) && PartClean(start, s) && s.cleaner.Sweeping? && s.cleaner.ref in s.peers
    ensures PartClean(start, NextOfPeer(s, s.cleaner.ref, step))
  {
    PeerCleans(start, s, NextOfPeer(s, s.cleaner.ref, step));
  }

  lemma PeerCleans(start: Service, s: Service, t: Service)
    requires Safe(s) && PartClean(start, s) && s.cleaner.Sweeping?
    requires t == s.(peers := t.peers, log := t.log, stopped := t.stopped) && t.peers.Keys == s.peers.Keys
    requires forall r :: r in s.peers && r != s.cleaner.ref ==> t.peers[r] == s.peers[r]
    ensures PartClean(start, t)
  {
    forall key | key in t.peerMap ensures Untouched(start, t, key) {
      assert KeyPlaced(s, key) && Untouched(start, s, key);
    }
  }

  lemma RestCleans(start: Service, s: Service, t: Service)
    requires PartClean(start, s) && Todo(t) == Todo(s)
    requires t == s.(cleaner := t.cleaner, destroyed := t.destroyed)
    ensures PartClean(start, t)
  {
    forall key | key in t.peerMap ensures Untouched(start, t, key) {
      assert Untouched(start, s, key);
    }
  }

  lemma CleanStep(start: Service, s: Service, step: Step)
    requires Safe(s) && PartClean(start, s) && CleaningStep(s, step)
    ensures PartClean(start, NextService(s, step))
  {
    match step
    case Scan(key) => if s.cleaner.Scanning? && key in s.cleaner.todo { ScanCleans(start, s, key); }
    case OfPeer(r, peerStep) => if NextService(s, step) != s { SweepCleans(start, s, peerStep); }
    case SweepDone => RestCleans(start, s, NextService(s, step));
    case Rest => RestCleans(start, s, NextService(s, step));
    case _ =>
  }

  lemma {:induction false} CleanExec(start: Service, s: Service, after: seq<Step>)
    requires Safe(s) && PartClean(start, s) && Uninterrupted(s, after)
    ensures Safe(Continue(s, after)) && PartClean(start, Continue(s, after))
  {
    if after == [] {
    } else {
      var before, step := after[..|after| - 1], after[|after| - 1];
      CleanExec(start, s, before);
      SafeStep(Continue(s, before), step);
      CleanStep(start, Continue(s, before), step);
    }
  }

  /** A clean-up that nobody interrupts leaves the connected entries, with their peers as they were, and no other. */
  lemma CleansUp(s: Service, after: seq<Step>)
    requires Safe(s) && s.cleaner.Asleep? && Uninterrupted(NextService(s, Wake), after)
    requires Continue(NextService(s, Wake), after).cleaner.Asleep?
    ensures LeavesConnected(View(s), View(Continue(NextService(s, Wake), after)))
  {
    WakeVisitsAll(s);
    CleanExec(s, NextService(s, Wake), after);
    CleanView(s, Continue(NextService(s, Wake), after));
  }

  lemma CleanView(s: Service, t: Service)
    requires Safe(s) && PartClean(s, t) && Todo(t) == {}
    ensures LeavesConnected(View(s), View(t))
  {
    var was, now := View(s), View(t);
    forall key ensures key in now <==> key in was && was[key].connected {
      if key in s.peerMap { assert KeyPlaced(s, key); }
      if key in t.peerMap { assert Untouched(s, t, key); }
    }
    forall key | key in now ensures now[key] == was[key] {
      assert Untouched(s, t, key);
    }
  }

  /** Exactly the connected entries remain, with their peers as they were. */
  ghost predicate LeavesConnected(was: map<string, Peer>, now: map<string, Peer>) {
    && (forall key :: key in now <==> key in was && was[key].connected)
    && (forall key :: key in now ==> now[key] == was[key])
  }

  // ----- it ends -----

  /** The cleaner's wait for a Terminate comes to its end. */
  lemma SweepEnds(start: Service, before: seq<Step>, s: Service) returns (after: seq<Step>, t: Service)
    requires Went(start, before, s) && s.cleaner.Sweeping?
    ensures Went(start, after, t) && t.cleaner == Scanning(s.cleaner.todo) && t.http == s.http
  {
    var r := s.cleaner.ref;
    PeerIsSound(s, r);
    var schedule, q := FinishTerminate(s.peers[r], [], s.peers[r]);
    after, t := GoPeer(start, before, s, r, schedule);
    SweepMoves(t);
    after, t := Go(start, after, t, SweepDone);
  }

  lemma SweepMoves(s: Service)
    requires s.cleaner.Sweeping? && s.cleaner.ref in s.peers && s.peers[s.cleaner.ref].terminate.NotTerminating?
    requires !s.stopped
    ensures Assumed(s, SweepDone)
    ensures var t := NextService(s, SweepDone); t.cleaner == Scanning(s.cleaner.todo) && t.http == s.http
  {
  }

  /** So does a visit. */
  lemma ScanEnds(start: Service, before: seq<Step>, s: Service, key: string) returns (after: seq<Step>, t: Service)
    requires Went(start, before, s) && s.cleaner.Scanning? && key in s.cleaner.todo
    ensures Went(start, after, t) && !t.cleaner.Asleep? && t.cleaner.todo == s.cleaner.todo - {key} && t.http == s.http
  {
    after, t := before, s;
    if key in s.peerMap { after, t := SettleEntry(start, before, s, key); }
    ScanMoves(t, key);
    after, t := Go(start, after, t, Scan(key));
  }

  lemma ScanMoves(s: Service, key: string)
    requires s.cleaner.Scanning? && key in s.cleaner.todo && !s.stopped
    ensures key in s.peerMap && s.peerMap[key] in s.peers && Keeps({}, s.peers[s.peerMap[key]], StartTerminate) ==>
              Assumed(s, Scan(key))
    ensures key !in s.peerMap ==> Assumed(s, Scan(key))
    ensures var t := NextService(s, Scan(key));
            !t.cleaner.Asleep? && t.cleaner.todo == s.cleaner.todo - {key} && t.http == s.http
  {
  }

  /** From every point of a clean-up some continuation brings it to its end without breaking an assumption. */
  lemma {:induction false} CleanerSleeps(start: Service, before: seq<Step>, s: Service)
    returns (after: seq<Step>, t: Service)
    requires Went(start, before, s)
    ensures Went(start, after, t) && t.cleaner.Asleep? && t.http == s.http
    decreases Todo(s)
  {
    after, t := before, s;
    if t.cleaner.Sweeping? { after, t := SweepEnds(start, after, t); }
    if t.cleaner.Scanning? {
      if t.cleaner.todo == {} {
        after, t := Go(start, after, t, Rest);
      } else {
        var key :| key in t.cleaner.todo;
        after, t := ScanEnds(start, after, t, key);
        after, t := CleanerSleeps(start, after, t);
      }
    }
  }
}
