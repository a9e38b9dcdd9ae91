/**
 The closed form of a drain pass: which instances it inspects, for which of them it asks Nova
 for a migration, how many it starts, and exactly when it ends with a failure on record.
 */
module DrainShape {
  import opened Basics
  import opened Drain

  // ------------------------------------------------------------ closed form

  /** An instance that takes up a slot: it is being moved, waits for the confirmation of a resize
      elsewhere, or is being deleted. */
  predicate Occupies(nova: Nova, host: string, u: string) {
    && u !in nova.flaky && u in nova.servers
    && (|| Underway(nova.servers[u])
        || (Settled(nova, u) && !OnHost(nova.servers[u], host) && nova.servers[u].status.VERIFY_RESIZE?)
        || (Settled(nova, u) && OnHost(nova.servers[u], host) && nova.servers[u].taskState == "deleting"))
  }

  function Occupied(us: seq<string>, nova: Nova, host: string): nat {
    if us == [] then 0
    else (if Occupies(nova, host, us[0]) then 1 else 0) + Occupied(us[1..], nova, host)
  }

  /** The instances looked at until the free slots are taken. */
  function Inspected(us: seq<string>, nova: Nova, host: string, free: int): seq<string>
    decreases |us|
  {
    if us == [] || free <= 0 then []
    else [us[0]] + Inspected(us[1..], nova, host, if Occupies(nova, host, us[0]) then free - 1 else free)
  }

  function HealthyOf(us: seq<string>, nova: Nova, host: string): seq<string> {
    if us == [] then []
    else (if Movable(nova, host, us[0]) then [us[0]] else []) + HealthyOf(us[1..], nova, host)
  }

  /** The instances a migration is asked for until the free slots are taken. */
  function Attempted(us: seq<string>, nova: Nova, free: int): seq<string>
    decreases |us|
  {
    if us == [] || free <= 0 then []
    else [us[0]] + Attempted(us[1..], nova, if nova.Trigger(us[0]).Accepted? then free - 1 else free)
  }

  function AcceptedOf(us: seq<string>, nova: Nova): seq<string> {
    if us == [] then []
    else (if nova.Trigger(us[0]).Accepted? then [us[0]] else []) + AcceptedOf(us[1..], nova)
  }

  /** All instances one pass asks Nova to migrate. */
  function Trials(queue: seq<string>, nova: Nova, host: string, limit: int): seq<string> {
    var seen := Inspected(queue, nova, host, Clamp(limit));
    Attempted(HealthyOf(seen, nova, host), nova, Clamp(limit) - Occupied(seen, nova, host))
  }

  lemma {:induction false} InspectedPart(us: seq<string>, nova: Nova, host: string, free: int)
    ensures multiset(Inspected(us, nova, host, free)) <= multiset(us)
    decreases |us|
  {
    if us != [] && free > 0 {
      assert us == [us[0]] + us[1..];
      InspectedPart(us[1..], nova, host, if Occupies(nova, host, us[0]) then free - 1 else free);
    }
  }

  lemma {:induction false} HealthyPart(us: seq<string>, nova: Nova, host: string)
    ensures multiset(HealthyOf(us, nova, host)) <= multiset(us)
    ensures forall u :: u in HealthyOf(us, nova, host) ==> Movable(nova, host, u)
  {
    if us != [] {
      assert us == [us[0]] + us[1..];
      HealthyPart(us[1..], nova, host);
    }
  }

  lemma {:induction false} AttemptedPart(us: seq<string>, nova: Nova, free: int)
    ensures multiset(Attempted(us, nova, free)) <= multiset(us)
    decreases |us|
  {
    if us != [] && free > 0 {
      assert us == [us[0]] + us[1..];
      AttemptedPart(us[1..], nova, if nova.Trigger(us[0]).Accepted? then free - 1 else free);
    }
  }

  lemma {:induction false} AcceptedPart(us: seq<string>, nova: Nova)
    ensures multiset(AcceptedOf(us, nova)) <= multiset(us)
    ensures forall u :: u in AcceptedOf(us, nova) ==> nova.Trigger(u).Accepted?
  {
    if us != [] {
      assert us == [us[0]] + us[1..];
      AcceptedPart(us[1..], nova);
    }
  }

  lemma BagMember(a: seq<string>, b: seq<string>, u: string)
    requires multiset(a) <= multiset(b) && u in a
    ensures u in b
  {
    assert u in multiset(a) && u in multiset(b);
  }

  /** Trials are instances of the queue, no more often than there. */
  lemma TrialsPart(queue: seq<string>, nova: Nova, host: string, limit: int)
    ensures multiset(Trials(queue, nova, host, limit)) <= multiset(queue)
  {
    var seen := Inspected(queue, nova, host, Clamp(limit));
    AttemptedHealthyPart(seen, nova, host, Clamp(limit) - Occupied(seen, nova, host));
    assert multiset(seen) <= multiset(queue) by {
      InspectedPart(queue, nova, host, Clamp(limit));
    }
    BagWithin(Trials(queue, nova, host, limit), seen, queue);
  }

  lemma BagWithin(a: seq<string>, b: seq<string>, c: seq<string>)
    requires multiset(a) <= multiset(b) <= multiset(c)
    ensures multiset(a) <= multiset(c)
  {
  }

  lemma AttemptedHealthyPart(seen: seq<string>, nova: Nova, host: string, free: int)
    ensures multiset(Attempted(HealthyOf(seen, nova, host), nova, free)) <= multiset(seen)
  {
    HealthyPart(seen, nova, host);
    AttemptedPart(HealthyOf(seen, nova, host), nova, free);
  }

  lemma TrialHealthy(queue: seq<string>, nova: Nova, host: string, limit: int, u: string)
    requires u in Trials(queue, nova, host, limit)
    ensures u in queue && Movable(nova, host, u)
  {
    var seen := Inspected(queue, nova, host, Clamp(limit));
    var free := Clamp(limit) - Occupied(seen, nova, host);
    HealthyPart(seen, nova, host);
    AttemptedPart(HealthyOf(seen, nova, host), nova, free);
    BagMember(Attempted(HealthyOf(seen, nova, host), nova, free), HealthyOf(seen, nova, host), u);
    TrialsPart(queue, nova, host, limit);
    BagMember(Trials(queue, nova, host, limit), queue, u);
  }

  // ------------------------------------------------------- what is triggered

  lemma {:induction false} ScanOccupies(p: Pass, nova: Nova, host: string, us: seq<string>, limit: nat)
    ensures var r := Scan(p, nova, host, us, limit);
            && r.inFlight == p.inFlight + Occupied(Inspected(us, nova, host, limit - p.inFlight), nova, host)
            && r.started == p.started
    decreases |us|
  {
    if us != [] && p.inFlight < limit {
      var p' := ScanOne(p, nova, host, us[0]);
      ScanOccupies(p', nova, host, us[1..], limit);
      var rest := Inspected(us[1..], nova, host, limit - p'.inFlight);
      InspectedFirst(p, nova, host, us, limit);
      assert ([us[0]] + rest)[1..] == rest;
    }
  }

  lemma {:induction false} ScanCollects(p: Pass, nova: Nova, host: string, us: seq<string>, limit: nat)
    ensures Ids(Scan(p, nova, host, us, limit).candidates)
            == Ids(p.candidates) + HealthyOf(Inspected(us, nova, host, limit - p.inFlight), nova, host)
    decreases |us|
  {
    if us != [] && p.inFlight < limit {
      var u := us[0];
      var p' := ScanOne(p, nova, host, u);
      ScanCollects(p', nova, host, us[1..], limit);
      InspectedFirst(p, nova, host, us, limit);
      HealthyFirst(u, Inspected(us[1..], nova, host, limit - p'.inFlight), nova, host);
      ScanOneCollects(p, nova, host, u);
    }
  }

  lemma InspectedFirst(p: Pass, nova: Nova, host: string, us: seq<string>, limit: nat)
    requires us != [] && p.inFlight < limit
    ensures Inspected(us, nova, host, limit - p.inFlight)
            == [us[0]] + Inspected(us[1..], nova, host, limit - ScanOne(p, nova, host, us[0]).inFlight)
  {
  }

  function HealthyOne(u: string, nova: Nova, host: string): seq<string> {
    if Movable(nova, host, u) then [u] else []
  }

  lemma HealthyFirst(u: string, us: seq<string>, nova: Nova, host: string)
    ensures HealthyOf([u] + us, nova, host) == HealthyOne(u, nova, host) + HealthyOf(us, nova, host)
  {
    assert ([u] + us)[1..] == us;
  }

  lemma ScanOneCollects(p: Pass, nova: Nova, host: string, u: string)
    ensures Ids(ScanOne(p, nova, host, u).candidates) == Ids(p.candidates) + HealthyOne(u, nova, host)
  {
  }

  lemma {:induction false} StartShape(p: Pass, nova: Nova, cs: seq<Candidate>, limit: nat)
    ensures Ids(Start(p, nova, cs, limit).started)
            == Ids(p.started) + AcceptedOf(Attempted(Ids(cs), nova, limit - p.inFlight - |p.started|), nova)
    decreases |cs|
  {
    if cs != [] && p.inFlight + |p.started| < limit {
      var p' := StartOne(p, nova, cs[0]);
      StartShape(p', nova, cs[1..], limit);
      assert Ids(cs)[1..] == Ids(cs[1..]);
      var tried := Attempted(Ids(cs), nova, limit - p.inFlight - |p.started|);
      assert tried[0] == cs[0].id && tried[1..] == Attempted(Ids(cs[1..]), nova, limit - p'.inFlight - |p'.started|);
      assert Ids(p'.started) == Ids(p.started) + if nova.Trigger(cs[0].id).Accepted? then [cs[0].id] else [];
    }
  }

  lemma ScannedShape(queue: seq<string>, verdict: Verdict, nova: Nova, host: string, limit: int)
    ensures var s := Scanned(queue, verdict, nova, host, limit);
            var seen := Inspected(queue, nova, host, Clamp(limit));
            && s.inFlight == Occupied(seen, nova, host) && s.started == []
            && Ids(s.candidates) == HealthyOf(seen, nova, host)
  {
    var p := Pass(queue, verdict, 0, [], []);
    var seen := Inspected(queue, nova, host, Clamp(limit));
    ScanOccupies(p, nova, host, queue, Clamp(limit));
    ScanCollects(p, nova, host, queue, Clamp(limit));
    assert Ids(p.candidates) + HealthyOf(seen, nova, host) == HealthyOf(seen, nova, host);
  }

  /** A pass starts exactly those of its trials that Nova accepts, in this order. */
  lemma PassTriggers(queue: seq<string>, verdict: Verdict, nova: Nova, host: string, limit: int)
    ensures Ids(RunPass(queue, verdict, nova, host, limit).started)
            == AcceptedOf(Trials(queue, nova, host, limit), nova)
  {
    var s := Scanned(queue, verdict, nova, host, limit);
    ScannedShape(queue, verdict, nova, host, limit);
    StartShape(s, nova, s.candidates, Clamp(limit));
    var accepted := AcceptedOf(Trials(queue, nova, host, limit), nova);
    assert Ids(s.started) + accepted == accepted;
  }

  lemma {:induction false} InspectedFills(us: seq<string>, nova: Nova, host: string, free: nat)
    ensures var seen := Inspected(us, nova, host, free);
            if Occupied(us, nova, host) < free then seen == us else Occupied(seen, nova, host) == free
    decreases |us|
  {
    if us != [] && free > 0 {
      InspectedFills(us[1..], nova, host, if Occupies(nova, host, us[0]) then free - 1 else free);
    }
  }

  lemma {:induction false} AttemptsFill(us: seq<string>, nova: Nova, free: int)
    ensures |AcceptedOf(Attempted(us, nova, free), nova)| == Min(|AcceptedOf(us, nova)|, Max(0, free))
    decreases |us|
  {
    if us != [] && free > 0 {
      var tried := Attempted(us, nova, free);
      AttemptsFill(us[1..], nova, if nova.Trigger(us[0]).Accepted? then free - 1 else free);
      var left := if nova.Trigger(us[0]).Accepted? then free - 1 else free;
      assert tried[0] == us[0] && tried[1..] == Attempted(us[1..], nova, left);
    }
  }

  /** How many migrations a pass starts: as many as slots are free and instances can be moved. */
  lemma StartedExactly(queue: seq<string>, verdict: Verdict, nova: Nova, host: string, limit: int)
    ensures |RunPass(queue, verdict, nova, host, limit).started|
            == Min(|AcceptedOf(HealthyOf(queue, nova, host), nova)|, Max(0, Clamp(limit) - Occupied(queue, nova, host)))
  {
    PassTriggers(queue, verdict, nova, host, limit);
    InspectedFills(queue, nova, host, Clamp(limit));
    var seen := Inspected(queue, nova, host, Clamp(limit));
    AttemptsFill(HealthyOf(seen, nova, host), nova, Clamp(limit) - Occupied(seen, nova, host));
    assert |Ids(RunPass(queue, verdict, nova, host, limit).started)|
        == |AcceptedOf(Trials(queue, nova, host, limit), nova)|;
  }

  // ------------------------------------------------------------- what fails

  ghost predicate AnyAlarm(us: seq<string>, nova: Nova, host: string) {
    exists u :: u in us && Alarming(nova, host, u)
  }

  ghost predicate AnyDenial(us: seq<string>, nova: Nova) {
    exists u :: u in us && !nova.Trigger(u).Accepted?
  }

  lemma AlarmFirst(u: string, us: seq<string>, nova: Nova, host: string)
    ensures AnyAlarm([u] + us, nova, host) <==> Alarming(nova, host, u) || AnyAlarm(us, nova, host)
  {
    assert u in [u] + us;
    if x :| x in us && Alarming(nova, host, x) {
      assert x in [u] + us;
    }
  }

  lemma {:induction false} ScanFails(p: Pass, nova: Nova, host: string, us: seq<string>, limit: nat)
    ensures var r := Scan(p, nova, host, us, limit);
            var seen := Inspected(us, nova, host, limit - p.inFlight);
            && (r.queue != [] ==> p.queue != [])
            && (r.queue != [] ==> (r.verdict.Failed? <==> p.verdict.Failed? || AnyAlarm(seen, nova, host)))
    decreases |us|
  {
    if us != [] && p.inFlight < limit {
      var p' := ScanOne(p, nova, host, us[0]);
      ScanFails(p', nova, host, us[1..], limit);
      var rest := Inspected(us[1..], nova, host, limit - p'.inFlight);
      assert Inspected(us, nova, host, limit - p.inFlight) == [us[0]] + rest;
      AlarmFirst(us[0], rest, nova, host);
    }
  }

  lemma {:induction false} StartFails(p: Pass, nova: Nova, cs: seq<Candidate>, limit: nat)
    ensures var r := Start(p, nova, cs, limit);
            var tried := Attempted(Ids(cs), nova, limit - p.inFlight - |p.started|);
            && (r.queue != [] ==> p.queue != [])
            && (r.queue != [] ==> (r.verdict.Failed? <==> p.verdict.Failed? || AnyDenial(tried, nova)))
    decreases |cs|
  {
    if cs != [] && p.inFlight + |p.started| < limit {
      var p' := StartOne(p, nova, cs[0]);
      StartFails(p', nova, cs[1..], limit);
      assert Ids(cs)[1..] == Ids(cs[1..]);
      var rest := Attempted(Ids(cs[1..]), nova, limit - p'.inFlight - |p'.started|);
      assert Attempted(Ids(cs), nova, limit - p.inFlight - |p.started|) == [cs[0].id] + rest;
    }
  }

  /** What makes a pass record a failure. */
  ghost predicate Fails(queue: seq<string>, verdict: Verdict, nova: Nova, host: string, limit: int) {
    || verdict.Failed?
    || AnyAlarm(Inspected(queue, nova, host, Clamp(limit)), nova, host)
    || AnyDenial(Trials(queue, nova, host, limit), nova)
  }

  /** Not departed instances that are still to be handled are in the queue, and an empty queue
      means success. */
  ghost predicate Sane(p: Pass, nova: Nova, host: string, us: seq<string>) {
    && (forall u :: u in us && !Departed(nova, host, u) ==> u in p.queue)
    && (p.queue == [] ==> p.verdict.Succeeded?)
  }

  lemma KeptInQueue(before: seq<string>, after: seq<string>, nova: Nova, host: string)
    requires OnlyDeparted(before, after, nova, host)
    ensures forall u :: u in before && !Departed(nova, host, u) ==> u in after
  {
    forall u | u in before && !Departed(nova, host, u) ensures u in after {
      assert u in multiset(before) && multiset(after)[u] <= multiset(before)[u];
      assert u in multiset(after);
    }
  }

  lemma {:induction false} ScanStaysSane(p: Pass, nova: Nova, host: string, us: seq<string>, all: seq<string>,
                                         limit: nat)
    requires Sane(p, nova, host, all) && forall u :: u in us ==> u in all
    ensures Sane(Scan(p, nova, host, us, limit), nova, host, all)
    decreases |us|
  {
    if us != [] && p.inFlight < limit {
      var p' := ScanOne(p, nova, host, us[0]);
      ScanOneKeeps(p, nova, host, us[0]);
      KeptInQueue(p.queue, p'.queue, nova, host);
      ScanStaysSane(p', nova, host, us[1..], all, limit);
    }
  }

  lemma {:induction false} StartStaysSane(p: Pass, nova: Nova, host: string, cs: seq<Candidate>, all: seq<string>,
                                          limit: nat)
    requires Sane(p, nova, host, all) && Sound(cs, nova, host) && forall c :: c in cs ==> c.id in all
    ensures Sane(Start(p, nova, cs, limit), nova, host, all)
    decreases |cs|
  {
    if cs != [] && p.inFlight + |p.started| < limit {
      var c := cs[0];
      assert c in cs && Movable(nova, host, c.id);
      var p' := StartOne(p, nova, c);
      if nova.Trigger(c.id).NotFound? {
        DropKeeps(p.(verdict := Failed), nova, host, c.id);
        KeptInQueue(p.queue, p'.queue, nova, host);
      }
      StartStaysSane(p', nova, host, cs[1..], all, limit);
    }
  }

  lemma FailedWhileQueued(queue: seq<string>, verdict: Verdict, nova: Nova, host: string, limit: int)
    requires RunPass(queue, verdict, nova, host, limit).queue != []
    ensures RunPass(queue, verdict, nova, host, limit).verdict.Failed? <==> Fails(queue, verdict, nova, host, limit)
  {
    var s := Scanned(queue, verdict, nova, host, limit);
    ScannedShape(queue, verdict, nova, host, limit);
    ScanFails(Pass(queue, verdict, 0, [], []), nova, host, queue, Clamp(limit));
    StartFails(s, nova, s.candidates, Clamp(limit));
  }

  lemma EmptiedSucceeds(queue: seq<string>, verdict: Verdict, nova: Nova, host: string, limit: int)
    requires queue != [] && RunPass(queue, verdict, nova, host, limit).queue == []
    ensures RunPass(queue, verdict, nova, host, limit).verdict.Succeeded?
  {
    var p0 := Pass(queue, verdict, 0, [], []);
    var s := Scanned(queue, verdict, nova, host, limit);
    ScanStaysSane(p0, nova, host, queue, queue, Clamp(limit));
    ScanKeeps(p0, nova, host, queue, Clamp(limit));
    CandidatesQueued(queue, verdict, nova, host, limit);
    StartStaysSane(s, nova, host, s.candidates, queue, Clamp(limit));
  }

  /** Exactly when a pass ends with a failure on record: something remains outstanding, and there
      was a failure before, an inspected instance is broken or being deleted, or Nova does not
      accept one of the trials. A pass that empties the queue records success instead. */
  lemma FailedExactly(queue: seq<string>, verdict: Verdict, nova: Nova, host: string, limit: int)
    requires queue != []
    ensures var p := RunPass(queue, verdict, nova, host, limit);
            && (p.verdict.Failed? <==> p.queue != [] && Fails(queue, verdict, nova, host, limit))
            && (p.queue == [] ==> p.verdict.Succeeded?)
  {
    if RunPass(queue, verdict, nova, host, limit).queue == [] {
      EmptiedSucceeds(queue, verdict, nova, host, limit);
    } else {
      FailedWhileQueued(queue, verdict, nova, host, limit);
    }
  }

  lemma CandidatesQueued(queue: seq<string>, verdict: Verdict, nova: Nova, host: string, limit: int)
    ensures forall c :: c in Scanned(queue, verdict, nova, host, limit).candidates ==> c.id in queue
  {
    var cs := Scanned(queue, verdict, nova, host, limit).candidates;
    var seen := Inspected(queue, nova, host, Clamp(limit));
    ScannedShape(queue, verdict, nova, host, limit);
    InspectedPart(queue, nova, host, Clamp(limit));
    HealthyPart(seen, nova, host);
    forall c | c in cs ensures c.id in queue {
      var i :| 0 <= i < |cs| && cs[i] == c;
      assert Ids(cs)[i] == c.id;
      BagMember(Ids(cs), queue, c.id);
    }
  }

  // ------------------------------------------------------- late vanishing

  lemma StartOneCounts(p: Pass, nova: Nova, c: Candidate, u: string)
    ensures multiset(StartOne(p, nova, c).queue)[u] <= multiset(p.queue)[u]
    ensures c.id == u && nova.Trigger(u).NotFound? && multiset(p.queue)[u] <= 1
            ==> multiset(StartOne(p, nova, c).queue)[u] == 0
  {
    if nova.Trigger(c.id).NotFound? {
      WithoutCounts(p.queue, c.id);
      assert StartOne(p, nova, c).queue == Without(p.queue, c.id);
      assert multiset(Without(p.queue, c.id))[u] == (multiset(p.queue) - multiset{c.id})[u];
    } else {
      assert StartOne(p, nova, c).queue == p.queue;
    }
  }

  lemma AttemptedFirst(p: Pass, nova: Nova, cs: seq<Candidate>, limit: nat)
    requires cs != [] && p.inFlight + |p.started| < limit
    ensures var p' := StartOne(p, nova, cs[0]);
            Attempted(Ids(cs), nova, limit - p.inFlight - |p.started|)
            == [cs[0].id] + Attempted(Ids(cs[1..]), nova, limit - p'.inFlight - |p'.started|)
  {
    assert Ids(cs)[1..] == Ids(cs[1..]);
  }

  lemma {:induction false} StartDrops(p: Pass, nova: Nova, cs: seq<Candidate>, limit: nat, u: string)
    requires multiset(p.queue)[u] <= 1 && nova.Trigger(u).NotFound?
    ensures multiset(Start(p, nova, cs, limit).queue)[u] <= multiset(p.queue)[u]
    ensures u in Attempted(Ids(cs), nova, limit - p.inFlight - |p.started|)
            ==> multiset(Start(p, nova, cs, limit).queue)[u] == 0
    decreases |cs|
  {
    if cs != [] && p.inFlight + |p.started| < limit {
      AttemptedFirst(p, nova, cs, limit);
      StartOneCounts(p, nova, cs[0], u);
      StartDrops(StartOne(p, nova, cs[0]), nova, cs[1..], limit, u);
    }
  }

  lemma VanishedDropped(queue: seq<string>, verdict: Verdict, nova: Nova, host: string, limit: int, u: string)
    requires Distinct(queue) && u in Trials(queue, nova, host, limit) && nova.Trigger(u).NotFound?
    ensures u !in RunPass(queue, verdict, nova, host, limit).queue
  {
    var s := Scanned(queue, verdict, nova, host, limit);
    ScannedShape(queue, verdict, nova, host, limit);
    ScanKeeps(Pass(queue, verdict, 0, [], []), nova, host, queue, Clamp(limit));
    DistinctCounts(queue, u);
    assert multiset(s.queue)[u] <= multiset(queue)[u];
    StartDrops(s, nova, s.candidates, Clamp(limit), u);
    assert u !in multiset(RunPass(queue, verdict, nova, host, limit).queue);
  }

  /** An instance that vanishes between its lookup and the trigger is dropped from the queue, and
      the pass ends with a failure on record exactly if anything else is outstanding. */
  lemma VanishedCountsAsFailure(queue: seq<string>, verdict: Verdict, nova: Nova, host: string, limit: int, u: string)
    requires Distinct(queue) && u in Trials(queue, nova, host, limit) && nova.Trigger(u).NotFound?
    ensures var p := RunPass(queue, verdict, nova, host, limit);
            u !in p.queue && (p.verdict.Failed? <==> p.queue != [])
  {
    VanishedDropped(queue, verdict, nova, host, limit, u);
    TrialHealthy(queue, nova, host, limit, u);
    assert AnyDenial(Trials(queue, nova, host, limit), nova);
    FailedExactly(queue, verdict, nova, host, limit);
  }

  // ----------------------------------------------------- instance by instance

  /** An instance leaves the queue only on evidence, and comes into it never. */
  lemma StaysQueued(queue: seq<string>, verdict: Verdict, nova: Nova, host: string, limit: int, u: string)
    ensures u in RunPass(queue, verdict, nova, host, limit).queue ==> u in queue
    ensures u in queue && !Departed(nova, host, u) ==> u in RunPass(queue, verdict, nova, host, limit).queue
  {
    PassConserves(queue, verdict, nova, host, limit);
    var after := RunPass(queue, verdict, nova, host, limit).queue;
    assert multiset(after)[u] <= multiset(queue)[u];
    assert u in after <==> u in multiset(after);
    assert u in queue <==> u in multiset(queue);
  }

  /** In the terms of Nova's records: an instance stays outstanding if its lookup fails, if it is in
      error or being moved, if it is still on the host and not found gone by a trigger, or if it
      waits elsewhere for a confirmation that is not answered "not found". */
  lemma StaysOutstanding(queue: seq<string>, verdict: Verdict, nova: Nova, host: string, limit: int, u: string)
    requires u in queue
    requires || u in nova.flaky
             || (&& u in nova.servers
                 && var vm := nova.servers[u];
                    || vm.status.ERROR? || vm.status.MIGRATING? || vm.status.RESIZE?
                    || IsMigrationTaskState(vm.taskState)
                    || (ShortName(vm.hostname) == host && (vm.taskState == "deleting" || !nova.Trigger(u).NotFound?))
                    || (ShortName(vm.hostname) != host && vm.status.VERIFY_RESIZE? && !nova.Confirm(u).NotFound?))
    ensures u in RunPass(queue, verdict, nova, host, limit).queue
  {
    StaysQueued(queue, verdict, nova, host, limit, u);
  }

  lemma {:induction false} StartIsSound(p: Pass, nova: Nova, host: string, cs: seq<Candidate>, limit: nat)
    requires Sound(cs, nova, host) && Sound(p.started, nova, host)
    ensures Sound(Start(p, nova, cs, limit).started, nova, host)
    decreases |cs|
  {
    if cs != [] && p.inFlight + |p.started| < limit {
      assert cs[0] in cs;
      StartIsSound(StartOne(p, nova, cs[0]), nova, host, cs[1..], limit);
    }
  }

  /** Only instances of the queue that Nova reports on the host, settled and not being deleted are
      migrated: live if they are active or running, cold otherwise. */
  lemma StartedAreMovable(queue: seq<string>, verdict: Verdict, nova: Nova, host: string, limit: int)
    ensures forall c :: c in RunPass(queue, verdict, nova, host, limit).started ==>
              && c.id in queue && c.id !in nova.flaky && c.id in nova.servers && nova.Trigger(c.id).Accepted?
              && var vm := nova.servers[c.id];
                 && ShortName(vm.hostname) == host && vm.taskState != "deleting"
                 && vm.status !in {MIGRATING, RESIZE, ERROR} && !IsMigrationTaskState(vm.taskState)
                 && c.live == (vm.status.ACTIVE? || vm.powerState == 1)
  {
    var s := Scanned(queue, verdict, nova, host, limit);
    var started := RunPass(queue, verdict, nova, host, limit).started;
    ScannedShape(queue, verdict, nova, host, limit);
    ScanKeeps(Pass(queue, verdict, 0, [], []), nova, host, queue, Clamp(limit));
    StartIsSound(s, nova, host, s.candidates, Clamp(limit));
    PassTriggers(queue, verdict, nova, host, limit);
    forall c | c in started
      ensures c.id in queue && nova.Trigger(c.id).Accepted?
    {
      var i :| 0 <= i < |started| && started[i] == c;
      assert Ids(started)[i] == c.id;
      var trials := Trials(queue, nova, host, limit);
      AcceptedPart(trials, nova);
      BagMember(AcceptedOf(trials, nova), trials, c.id);
      TrialHealthy(queue, nova, host, limit, c.id);
    }
  }

  // -------------------------------------------------------------- successes

  ghost predicate AnyLeft(us: seq<string>, nova: Nova, host: string) {
    exists u :: u in us && ScanDeparted(nova, host, u)
  }

  lemma LeftFirst(u: string, us: seq<string>, nova: Nova, host: string)
    ensures AnyLeft([u] + us, nova, host) <==> ScanDeparted(nova, host, u) || AnyLeft(us, nova, host)
  {
    assert u in [u] + us;
    if x :| x in us && ScanDeparted(nova, host, x) {
      assert x in [u] + us;
    }
  }

  lemma {:induction false} ScanSucceeds(p: Pass, nova: Nova, host: string, us: seq<string>, limit: nat)
    requires !p.verdict.Failed? && !AnyAlarm(Inspected(us, nova, host, limit - p.inFlight), nova, host)
    ensures Scan(p, nova, host, us, limit).verdict
            == if AnyLeft(Inspected(us, nova, host, limit - p.inFlight), nova, host) then Succeeded else p.verdict
    decreases |us|
  {
    if us != [] && p.inFlight < limit {
      var p' := ScanOne(p, nova, host, us[0]);
      var rest := Inspected(us[1..], nova, host, limit - p'.inFlight);
      InspectedFirst(p, nova, host, us, limit);
      AlarmFirst(us[0], rest, nova, host);
      LeftFirst(us[0], rest, nova, host);
      ScanSucceeds(p', nova, host, us[1..], limit);
    }
  }

  lemma {:induction false} StartKeepsVerdict(p: Pass, nova: Nova, cs: seq<Candidate>, limit: nat)
    requires !AnyDenial(Attempted(Ids(cs), nova, limit - p.inFlight - |p.started|), nova)
    ensures Start(p, nova, cs, limit).verdict == p.verdict
    decreases |cs|
  {
    if cs != [] && p.inFlight + |p.started| < limit {
      var p' := StartOne(p, nova, cs[0]);
      var rest := Attempted(Ids(cs[1..]), nova, limit - p'.inFlight - |p'.started|);
      AttemptedFirst(p, nova, cs, limit);
      assert cs[0].id in [cs[0].id] + rest;
      assert forall u :: u in rest ==> u in [cs[0].id] + rest;
      StartKeepsVerdict(StartOne(p, nova, cs[0]), nova, cs[1..], limit);
    }
  }

  /** Without any failure a pass records success exactly if it saw that an instance had left;
      otherwise the record stays. */
  lemma SucceededExactly(queue: seq<string>, verdict: Verdict, nova: Nova, host: string, limit: int)
    requires !Fails(queue, verdict, nova, host, limit)
    ensures RunPass(queue, verdict, nova, host, limit).verdict
            == if AnyLeft(Inspected(queue, nova, host, Clamp(limit)), nova, host) then Succeeded else verdict
  {
    var s := Scanned(queue, verdict, nova, host, limit);
    ScannedShape(queue, verdict, nova, host, limit);
    ScanSucceeds(Pass(queue, verdict, 0, [], []), nova, host, queue, Clamp(limit));
    StartKeepsVerdict(s, nova, s.candidates, Clamp(limit));
  }

  // -------------------------------------------------------------- the words used

  /** A limit below 1 counts as 1. */
  lemma ClampedLimit(limit: int)
    ensures Clamp(limit) == Max(1, limit)
  {
  }

  /** The records that count as being moved. */
  lemma UnderwayExactly(vm: Server)
    ensures Underway(vm) <==> || vm.status.MIGRATING? || vm.status.RESIZE?
                              || (&& !vm.status.ERROR?
                                  && (Occurs("migrat", vm.taskState) || Occurs("resize", vm.taskState)))
  {
    ContainsExactly(vm.taskState, "migrat");
    ContainsExactly(vm.taskState, "resize");
  }
}
