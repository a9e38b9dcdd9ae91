/**
 The order of the queue after a drain pass. An instance that is deferred because it is broken or
 being deleted goes to index 0, which is where the next scan begins.
 */
module DrainOrder {
  import opened Basics
  import opened Drain
  import opened DrainShape

  // ------------------------------------------------------- the deferred come first

  predicate AlarmInFront(q: seq<string>, nova: Nova, host: string) { q != [] && Alarming(nova, host, q[0]) }

  lemma ScanOneFront(p: Pass, nova: Nova, host: string, u: string)
    requires Departed(nova, host, u) || u in p.queue
    requires Alarming(nova, host, u) || AlarmInFront(p.queue, nova, host)
    ensures AlarmInFront(ScanOne(p, nova, host, u).queue, nova, host)
  {
  }

  lemma KeptForScan(p: Pass, nova: Nova, host: string, us: seq<string>)
    requires us != [] && forall u :: u in us && !Departed(nova, host, u) ==> u in p.queue
    ensures forall u :: u in us[1..] && !Departed(nova, host, u) ==> u in ScanOne(p, nova, host, us[0]).queue
  {
    ScanOneKeeps(p, nova, host, us[0]);
    KeptInQueue(p.queue, ScanOne(p, nova, host, us[0]).queue, nova, host);
  }

  lemma {:induction false} ScanPutsInFront(p: Pass, nova: Nova, host: string, us: seq<string>, limit: nat)
    requires forall u :: u in us && !Departed(nova, host, u) ==> u in p.queue
    requires AlarmInFront(p.queue, nova, host) || AnyAlarm(Inspected(us, nova, host, limit - p.inFlight), nova, host)
    ensures AlarmInFront(Scan(p, nova, host, us, limit).queue, nova, host)
    decreases |us|
  {
    if us != [] && p.inFlight < limit {
      var p' := ScanOne(p, nova, host, us[0]);
      KeptForScan(p, nova, host, us);
      var rest := Inspected(us[1..], nova, host, limit - p'.inFlight);
      assert AnyAlarm(Inspected(us, nova, host, limit - p.inFlight), nova, host)
        ==> Alarming(nova, host, us[0]) || AnyAlarm(rest, nova, host) by {
        assert Inspected(us, nova, host, limit - p.inFlight) == [us[0]] + rest;
        AlarmFirst(us[0], rest, nova, host);
      }
      if Alarming(nova, host, us[0]) || AlarmInFront(p.queue, nova, host) {
        ScanOneFront(p, nova, host, us[0]);
      }
      ScanPutsInFront(p', nova, host, us[1..], limit);
    }
  }

  lemma {:induction false} StartKeepsFront(p: Pass, nova: Nova, host: string, cs: seq<Candidate>, limit: nat)
    requires Sound(cs, nova, host) && AlarmInFront(p.queue, nova, host)
    ensures AlarmInFront(Start(p, nova, cs, limit).queue, nova, host)
    decreases |cs|
  {
    if cs != [] && p.inFlight + |p.started| < limit {
      assert Movable(nova, host, cs[0].id);
      StartKeepsFront(StartOne(p, nova, cs[0]), nova, host, cs[1..], limit);
    }
  }

  /** For every queue: if a pass defers anything, the queue afterwards begins with a deferred
      instance, and that is the first one any later pass looks at. */
  lemma DeferredIsNext(queue: seq<string>, verdict: Verdict, nova: Nova, host: string, limit: int, nova': Nova,
                       limit': int)
    requires AnyAlarm(Inspected(queue, nova, host, Clamp(limit)), nova, host)
    ensures var q := RunPass(queue, verdict, nova, host, limit).queue;
            && AlarmInFront(q, nova, host)
            && Inspected(q, nova', host, Clamp(limit')) != [] && Inspected(q, nova', host, Clamp(limit'))[0] == q[0]
  {
    var p := Pass(queue, verdict, 0, [], []);
    var s := Scanned(queue, verdict, nova, host, limit);
    ScanPutsInFront(p, nova, host, queue, Clamp(limit));
    ScanKeeps(p, nova, host, queue, Clamp(limit));
    StartKeepsFront(s, nova, host, s.candidates, Clamp(limit));
  }

  // --------------------------------------------------------------- exact order

  function Reversed(s: seq<string>): seq<string> {
    if s == [] then [] else Reversed(s[1..]) + [s[0]]
  }

  /** The instances a scan defers. */
  function AlarmsOf(us: seq<string>, nova: Nova, host: string): seq<string> {
    if us == [] then []
    else (if Alarming(nova, host, us[0]) then [us[0]] else []) + AlarmsOf(us[1..], nova, host)
  }

  /** The instances a scan leaves where they are. */
  function StayersOf(us: seq<string>, nova: Nova, host: string): seq<string> {
    if us == [] then []
    else if Alarming(nova, host, us[0]) || ScanDeparted(nova, host, us[0]) then StayersOf(us[1..], nova, host)
    else [us[0]] + StayersOf(us[1..], nova, host)
  }

  lemma MiddleRest(a: seq<string>, u: string, b: seq<string>)
    requires a != []
    ensures var q := a + [u] + b;
            q[0] == a[0] && q[1..] == a[1..] + [u] + b && [a[0]] + (a[1..] + b) == a + b
  {
  }

  lemma {:induction false} WithoutMiddle(a: seq<string>, u: string, b: seq<string>)
    requires u !in a
    ensures Without(a + [u] + b, u) == a + b
    decreases |a|
  {
    if a == [] {
      assert a + [u] + b == [u] + b && ([u] + b)[1..] == b && a + b == b;
    } else {
      MiddleRest(a, u, b);
      WithoutMiddle(a[1..], u, b);
    }
  }

  /** One instance: deferred to the front, removed, or left in place. */
  lemma ScanOneMoves(p: Pass, nova: Nova, host: string, a: seq<string>, u: string, b: seq<string>)
    requires p.queue == a + [u] + b && u !in a
    ensures ScanOne(p, nova, host, u).queue
            == if Alarming(nova, host, u) then [u] + (a + b) else if ScanDeparted(nova, host, u) then a + b else p.queue
  {
    ScanOneQueue(p, nova, host, u);
    QueueAfterMoves(nova, host, a, u, b);
  }

  lemma QueueAfterMoves(nova: Nova, host: string, a: seq<string>, u: string, b: seq<string>)
    requires u !in a
    ensures QueueAfter(a + [u] + b, nova, host, u)
            == if Alarming(nova, host, u) then [u] + (a + b)
                else if ScanDeparted(nova, host, u) then a + b else a + [u] + b
  {
    WithoutMiddle(a, u, b);
    assert u in a + [u] + b;
  }

  /** The queue after inspecting the first part of `us`, with all that came before in front and kept. */
  function Arranged(front: seq<string>, kept: seq<string>, seen: seq<string>, us: seq<string>, nova: Nova,
                    host: string): seq<string>
    requires |seen| <= |us|
  {
    Reversed(AlarmsOf(seen, nova, host)) + front + (kept + StayersOf(seen, nova, host)) + us[|seen|..]
  }

  function FrontAfter(front: seq<string>, u: string, nova: Nova, host: string): seq<string> {
    (if Alarming(nova, host, u) then [u] else []) + front
  }

  function KeptAfter(kept: seq<string>, u: string, nova: Nova, host: string): seq<string> {
    kept + (if Alarming(nova, host, u) || ScanDeparted(nova, host, u) then [] else [u])
  }

  lemma {:induction false} InspectedLength(us: seq<string>, nova: Nova, host: string, free: int)
    ensures |Inspected(us, nova, host, free)| <= |us|
    decreases |us|
  {
    if us != [] && free > 0 {
      InspectedLength(us[1..], nova, host, if Occupies(nova, host, us[0]) then free - 1 else free);
    }
  }

  lemma {:induction false} ScanMoves(p: Pass, nova: Nova, host: string, front: seq<string>, kept: seq<string>,
                                     us: seq<string>, limit: nat)
    requires p.queue == front + kept + us && Distinct(us)
    requires forall u :: u in us ==> u !in front + kept
    requires |Inspected(us, nova, host, limit - p.inFlight)| <= |us|
    ensures Scan(p, nova, host, us, limit).queue
            == Arranged(front, kept, Inspected(us, nova, host, limit - p.inFlight), us, nova, host)
    decreases |us|
  {
    if us == [] || p.inFlight >= limit {
      NothingMoves(front, kept, us, nova, host);
    } else {
      var u, rest := us[0], us[1..];
      var p' := ScanOne(p, nova, host, u);
      var front', kept' := FrontAfter(front, u, nova, host), KeptAfter(kept, u, nova, host);
      var seen' := Inspected(rest, nova, host, limit - p'.inFlight);
      ScanOneArranges(p, nova, host, front, kept, us);
      MovesOn(front, kept, us, nova, host);
      InspectedLength(rest, nova, host, limit - p'.inFlight);
      ScanMoves(p', nova, host, front', kept', rest, limit);
      MovesOne(front, kept, seen', us, nova, host);
      InspectedFirst(p, nova, host, us, limit);
    }
  }

  lemma NothingMoves(front: seq<string>, kept: seq<string>, us: seq<string>, nova: Nova, host: string)
    ensures Arranged(front, kept, [], us, nova, host) == front + kept + us
  {
    assert [] + front == front && kept + [] == kept && us[0..] == us;
  }

  lemma ScanOneArranges(p: Pass, nova: Nova, host: string, front: seq<string>, kept: seq<string>, us: seq<string>)
    requires us != [] && p.queue == front + kept + us && us[0] !in front + kept
    ensures ScanOne(p, nova, host, us[0]).queue
            == FrontAfter(front, us[0], nova, host) + KeptAfter(kept, us[0], nova, host) + us[1..]
  {
    var u, rest := us[0], us[1..];
    Regroup(front, kept, us);
    ScanOneMoves(p, nova, host, front + kept, u, rest);
    AfterOne(front, kept, u, nova, host);
  }

  lemma Regroup(front: seq<string>, kept: seq<string>, us: seq<string>)
    requires us != []
    ensures var u, rest := us[0], us[1..];
            && front + kept + us == (front + kept) + [u] + rest == front + (kept + [u]) + rest
            && [u] + ((front + kept) + rest) == ([u] + front) + kept + rest
  {
    assert us == [us[0]] + us[1..];
  }

  /** Where the next instance goes, case by case. */
  lemma AfterOne(front: seq<string>, kept: seq<string>, u: string, nova: Nova, host: string)
    ensures FrontAfter(front, u, nova, host) == if Alarming(nova, host, u) then [u] + front else front
    ensures KeptAfter(kept, u, nova, host)
            == if Alarming(nova, host, u) || ScanDeparted(nova, host, u) then kept else kept + [u]
  {
  }

  lemma MovesOn(front: seq<string>, kept: seq<string>, us: seq<string>, nova: Nova, host: string)
    requires us != [] && Distinct(us) && forall x :: x in us ==> x !in front + kept
    ensures Distinct(us[1..])
    ensures forall x :: x in us[1..] ==> x !in FrontAfter(front, us[0], nova, host) + KeptAfter(kept, us[0], nova, host)
  {
    var both := FrontAfter(front, us[0], nova, host) + KeptAfter(kept, us[0], nova, host);
    assert forall x :: x in both ==> x == us[0] || x in front + kept;
    assert us[0] !in us[1..];
    assert forall x :: x in us[1..] ==> x in us;
  }

  /** The closed form moves on with the first inspected instance. */
  lemma MovesOne(front: seq<string>, kept: seq<string>, seen: seq<string>, us: seq<string>, nova: Nova, host: string)
    requires us != [] && |seen| < |us|
    ensures Arranged(front, kept, [us[0]] + seen, us, nova, host)
            == Arranged(FrontAfter(front, us[0], nova, host), KeptAfter(kept, us[0], nova, host), seen, us[1..], nova,
                        host)
  {
    var u, more := us[0], [us[0]] + seen;
    assert more[1..] == seen;
    var alarms, stay := AlarmsOf(seen, nova, host), StayersOf(seen, nova, host);
    AlarmsReversed(u, seen, front, nova, host);
    assert kept + StayersOf(more, nova, host) == KeptAfter(kept, u, nova, host) + stay;
    assert us[|more|..] == us[1..][|seen|..];
  }

  lemma AlarmsReversed(u: string, seen: seq<string>, front: seq<string>, nova: Nova, host: string)
    ensures Reversed(AlarmsOf([u] + seen, nova, host)) + front
            == Reversed(AlarmsOf(seen, nova, host)) + FrontAfter(front, u, nova, host)
  {
    assert ([u] + seen)[1..] == seen;
    var alarms := AlarmsOf(seen, nova, host);
    if Alarming(nova, host, u) {
      assert ([u] + alarms)[1..] == alarms;
      assert Reversed([u] + alarms) == Reversed(alarms) + [u];
      assert Reversed(alarms) + [u] + front == Reversed(alarms) + ([u] + front);
    } else {
      assert [] + alarms == alarms && [] + front == front;
    }
  }

  /** The trials that Nova answers with "not found". */
  function VanishedOf(us: seq<string>, nova: Nova): seq<string> {
    if us == [] then []
    else (if nova.Trigger(us[0]).NotFound? then [us[0]] else []) + VanishedOf(us[1..], nova)
  }

  /** The queue without the given instances. */
  function Except(gone: seq<string>, q: seq<string>): seq<string> {
    if q == [] then [] else (if q[0] in gone then [] else [q[0]]) + Except(gone, q[1..])
  }

  lemma {:induction false} ExceptNobody(q: seq<string>)
    ensures Except([], q) == q
  {
    if q != [] {
      ExceptNobody(q[1..]);
    }
  }

  /** Nothing is queued twice. */
  ghost predicate Once(q: seq<string>) { forall x :: multiset(q)[x] <= 1 }

  lemma WithoutOnce(q: seq<string>, u: string)
    requires Once(q)
    ensures Once(Without(q, u))
  {
    WithoutCounts(q, u);
    forall x ensures multiset(Without(q, u))[x] <= 1 {
      assert multiset(q)[x] <= 1;
    }
  }

  lemma OnceRest(q: seq<string>)
    requires q != [] && Once(q)
    ensures Once(q[1..]) && q[0] !in q[1..]
  {
    assert q == [q[0]] + q[1..];
    forall x ensures multiset(q[1..])[x] <= 1 {
      assert multiset(q)[x] <= 1;
    }
    assert multiset(q)[q[0]] <= 1;
    assert q[0] !in multiset(q[1..]);
  }

  lemma {:induction false} ExceptFirst(q: seq<string>, u: string, us: seq<string>)
    requires Once(q)
    ensures Except([u] + us, q) == Except(us, Without(q, u))
  {
    if q != [] {
      OnceRest(q);
      if q[0] == u {
        ExceptAbsent(q[1..], u, us);
      } else {
        ExceptFirst(q[1..], u, us);
        assert ([q[0]] + Without(q[1..], u))[1..] == Without(q[1..], u);
      }
    }
  }

  lemma {:induction false} ExceptAbsent(q: seq<string>, u: string, us: seq<string>)
    requires u !in q
    ensures Except([u] + us, q) == Except(us, q)
  {
    if q != [] {
      ExceptAbsent(q[1..], u, us);
    }
  }

  lemma StartOneMoves(p: Pass, nova: Nova, c: Candidate, tried: seq<string>)
    requires Once(p.queue)
    ensures Once(StartOne(p, nova, c).queue)
    ensures Except(VanishedOf(tried, nova), StartOne(p, nova, c).queue)
            == Except(VanishedOf([c.id] + tried, nova), p.queue)
  {
    assert ([c.id] + tried)[1..] == tried;
    var gone := VanishedOf(tried, nova);
    if nova.Trigger(c.id).NotFound? {
      WithoutOnce(p.queue, c.id);
      ExceptFirst(p.queue, c.id, gone);
    } else {
      assert [] + gone == gone;
    }
  }

  lemma {:induction false} StartMoves(p: Pass, nova: Nova, cs: seq<Candidate>, limit: nat)
    requires Once(p.queue)
    ensures Start(p, nova, cs, limit).queue
            == Except(VanishedOf(Attempted(Ids(cs), nova, limit - p.inFlight - |p.started|), nova), p.queue)
    decreases |cs|
  {
    if cs == [] || p.inFlight + |p.started| >= limit {
      assert Attempted(Ids(cs), nova, limit - p.inFlight - |p.started|) == [];
      ExceptNobody(p.queue);
    } else {
      var p' := StartOne(p, nova, cs[0]);
      AttemptedFirst(p, nova, cs, limit);
      StartOneMoves(p, nova, cs[0], Attempted(Ids(cs[1..]), nova, limit - p'.inFlight - |p'.started|));
      StartMoves(p', nova, cs[1..], limit);
    }
  }

  /** The queue after a scan: what was deferred, the latest first; then what stays of the
      inspected instances; then those that were not reached. */
  function Rearranged(queue: seq<string>, nova: Nova, host: string, limit: int): seq<string> {
    InspectedLength(queue, nova, host, Clamp(limit));
    Arranged([], [], Inspected(queue, nova, host, Clamp(limit)), queue, nova, host)
  }

  lemma ScannedQueue(queue: seq<string>, verdict: Verdict, nova: Nova, host: string, limit: int)
    requires Distinct(queue)
    ensures Scanned(queue, verdict, nova, host, limit).queue == Rearranged(queue, nova, host, limit)
  {
    InspectedLength(queue, nova, host, Clamp(limit));
    assert [] + [] + queue == queue;
    ScanMoves(Pass(queue, verdict, 0, [], []), nova, host, [], [], queue, Clamp(limit));
  }

  lemma ScannedOnce(queue: seq<string>, verdict: Verdict, nova: Nova, host: string, limit: int)
    requires Distinct(queue)
    ensures Once(Scanned(queue, verdict, nova, host, limit).queue)
  {
    var after := Scanned(queue, verdict, nova, host, limit).queue;
    ScanKeeps(Pass(queue, verdict, 0, [], []), nova, host, queue, Clamp(limit));
    forall x ensures multiset(after)[x] <= 1 {
      DistinctCounts(queue, x);
      assert multiset(after)[x] <= multiset(queue)[x];
    }
  }

  /** The exact queue after a pass over a duplicate-free queue: rearranged in this way, without
      the trials that turned out to be gone. */
  lemma QueueExactly(queue: seq<string>, verdict: Verdict, nova: Nova, host: string, limit: int)
    requires Distinct(queue)
    ensures RunPass(queue, verdict, nova, host, limit).queue
            == Except(VanishedOf(Trials(queue, nova, host, limit), nova), Rearranged(queue, nova, host, limit))
  {
    var s := Scanned(queue, verdict, nova, host, limit);
    ScannedShape(queue, verdict, nova, host, limit);
    ScannedQueue(queue, verdict, nova, host, limit);
    ScannedOnce(queue, verdict, nova, host, limit);
    StartMoves(s, nova, s.candidates, Clamp(limit));
  }

  /** A broken instance at the tail is deferred to where the next pass begins. */
  lemma DeferredFromTail(a: string, b: string, nova: Nova, host: string)
    requires a != b && a !in nova.flaky && a in nova.servers && Underway(nova.servers[a])
    requires b !in nova.flaky && b in nova.servers && nova.servers[b].status.ERROR?
    ensures RunPass([a, b], Unset, nova, host, 2).queue == [b, a]
  {
    var queue := [a, b];
    assert queue[1..] == [b] && [b][1..] == [];
    assert Inspected(queue, nova, host, 2) == queue by {
      assert Inspected([b], nova, host, 1) == [b];
    }
    assert Trials(queue, nova, host, 2) == [] by {
      assert HealthyOf([b], nova, host) == [] + HealthyOf([], nova, host) == [];
      assert HealthyOf(queue, nova, host) == [] + HealthyOf([b], nova, host) == [];
    }
    assert Rearranged(queue, nova, host, 2) == [b, a] by {
      assert AlarmsOf([b], nova, host) == [b] && AlarmsOf(queue, nova, host) == [b];
      assert Reversed([b]) == [b];
      assert StayersOf([b], nova, host) == [] + StayersOf([], nova, host) == [];
      assert StayersOf(queue, nova, host) == [a] + StayersOf([b], nova, host) == [a];
    }
    ExceptNobody([b, a]);
    QueueExactly(queue, Unset, nova, host, 2);
  }
}
