/**
 The drain pass: one scan over the outstanding queue of an Eviction against
 what Nova reports, followed by the start of fresh migrations. This module is
 the specification; `DrainEngine` holds the loops that are proved against it.
 */
module Drain {
  import opened Basics

  // ---------------------------------------------------------------- Nova

  datatype VmStatus = MIGRATING | RESIZE | ERROR | VERIFY_RESIZE | ACTIVE | OtherStatus(name: string)

  datatype Server = Server(status: VmStatus, taskState: string, hostname: string, powerState: int)

  datatype Reply = Accepted | NotFound | Refused

  /** What Nova answers during one pass. `flaky` lists the instances whose lookup
      fails for a reason other than "not found" although they may well exist. */
  datatype Nova = Nova(servers: map<string, Server>,
                       flaky: set<string>,
                       confirmGone: set<string>, confirmRefused: set<string>,
                       triggerGone: set<string>, triggerRefused: set<string>)
  {
    function Confirm(u: string): Reply {
      if u in confirmGone then NotFound else if u in confirmRefused then Refused else Accepted
    }

    function Trigger(u: string): Reply {
      if u in triggerGone then NotFound else if u in triggerRefused then Refused else Accepted
    }
  }

  predicate IsMigrationTaskState(taskState: string) {
    ContainsText(taskState, "migrat") || ContainsText(taskState, "resize")
  }

  /** A server Nova reports as being moved. */
  predicate Underway(vm: Server) {
    || vm.status.MIGRATING?
    || vm.status.RESIZE?
    || (!vm.status.ERROR? && IsMigrationTaskState(vm.taskState))
  }

  // ------------------------------------------------------------- evidence

  // What Nova's answers mean, in terms of the server records alone. The classification below is
  // how the pass gets there.

  predicate OnHost(vm: Server, host: string) { ShortName(vm.hostname) == host }

  /** The lookup is answered and the record allows a verdict about where the instance is. */
  predicate Settled(nova: Nova, u: string) {
    && u !in nova.flaky && u in nova.servers
    && !Underway(nova.servers[u]) && !nova.servers[u].status.ERROR?
  }

  /** Ready to be migrated: settled, still on the host and not being deleted. */
  predicate Movable(nova: Nova, host: string, u: string) {
    Settled(nova, u) && OnHost(nova.servers[u], host) && nova.servers[u].taskState != "deleting"
  }

  /** Evidence of a lookup that an instance is no longer on the host: Nova does not know it, or it
      is elsewhere, and if a resize waits for confirmation there, that is answered "not found". */
  predicate ScanDeparted(nova: Nova, host: string, u: string) {
    && u !in nova.flaky
    && (u in nova.servers ==>
          && Settled(nova, u) && !OnHost(nova.servers[u], host)
          && (nova.servers[u].status.VERIFY_RESIZE? ==> nova.Confirm(u).NotFound?))
  }

  /** Evidence within one pass: of the lookup, or of the trigger. */
  predicate Departed(nova: Nova, host: string, u: string) {
    ScanDeparted(nova, host, u) || (Movable(nova, host, u) && nova.Trigger(u).NotFound?)
  }

  /** An instance whose record alone counts as a failure: in error, or being deleted on the host. */
  predicate Alarming(nova: Nova, host: string, u: string) {
    && u !in nova.flaky && u in nova.servers
    && (|| nova.servers[u].status.ERROR?
        || (Settled(nova, u) && OnHost(nova.servers[u], host) && nova.servers[u].taskState == "deleting"))
  }

  predicate Live(vm: Server) { vm.status.ACTIVE? || vm.powerState == 1 }

  // ------------------------------------------------------- classification

  /** What one lookup tells the pass about an instance. */
  datatype Sight =
    | Unclear | Gone | Moving | Broken | Confirming(reply: Reply) | Left | Terminating | Healthy(live: bool)

  function Look(nova: Nova, host: string, u: string): Sight {
    if u in nova.flaky then Unclear
    else if u !in nova.servers then Gone
    else
      var vm := nova.servers[u];
      if Underway(vm) then Moving
      else if vm.status.ERROR? then Broken
      else if ShortName(vm.hostname) != host then
        if vm.status.VERIFY_RESIZE? then Confirming(nova.Confirm(u)) else Left
      else if vm.taskState == "deleting" then Terminating
      else Healthy(vm.status.ACTIVE? || vm.powerState == 1)
  }

  // --------------------------------------------------------------- queues

  /** The queue without the first occurrence of `u`. */
  function Without(q: seq<string>, u: string): (r: seq<string>)
    ensures |r| <= |q|
  {
    if q == [] then []
    else if q[0] == u then q[1..]
    else [q[0]] + Without(q[1..], u)
  }

  /** The queue with the first occurrence of `u` moved to index 0. */
  function ToFront(q: seq<string>, u: string): seq<string> {
    if u in q then [u] + Without(q, u) else q
  }

  lemma {:induction false} WithoutCounts(q: seq<string>, u: string)
    ensures multiset(Without(q, u)) == multiset(q) - multiset{u}
    ensures u !in q ==> Without(q, u) == q
  {
    if q == [] {
    } else {
      assert q == [q[0]] + q[1..];
      if q[0] != u {
        WithoutCounts(q[1..], u);
      }
    }
  }

  lemma ToFrontCounts(q: seq<string>, u: string)
    ensures multiset(ToFront(q, u)) == multiset(q)
  {
    WithoutCounts(q, u);
    if u in q {
      assert multiset([u] + Without(q, u)) == multiset{u} + multiset(Without(q, u));
    }
  }

  // ----------------------------------------------------------- pass spec

  /** The MigratingInstance condition: absent, Failed or Succeeded. */
  datatype Verdict = Unset | Failed | Succeeded

  datatype Candidate = Candidate(id: string, live: bool)

  function Ids(cs: seq<Candidate>): (r: seq<string>)
    ensures |r| == |cs|
    ensures forall i :: 0 <= i < |cs| ==> r[i] == cs[i].id
  {
    seq(|cs|, i requires 0 <= i < |cs| => cs[i].id)
  }

  datatype Pass = Pass(queue: seq<string>, verdict: Verdict, inFlight: nat,
                       candidates: seq<Candidate>, started: seq<Candidate>)

  /** A completion is recorded unless it would hide an earlier failure while
      other instances are still outstanding. */
  function Completed(verdict: Verdict, queue: seq<string>): Verdict {
    if queue != [] && verdict.Failed? then Failed else Succeeded
  }

  function Drop(p: Pass, u: string): Pass {
    var rest := Without(p.queue, u);
    p.(queue := rest, verdict := Completed(p.verdict, rest))
  }

  function ScanOne(p: Pass, nova: Nova, host: string, u: string): Pass {
    match Look(nova, host, u)
    case Unclear => p
    case Gone => Drop(p, u)
    case Moving => p.(inFlight := p.inFlight + 1)
    case Broken => p.(queue := ToFront(p.queue, u), verdict := Failed)
    case Confirming(reply) =>
      var p' := if reply.NotFound? then Drop(p, u) else p;
      p'.(inFlight := p.inFlight + 1)
    case Left => Drop(p, u)
    case Terminating => p.(queue := ToFront(p.queue, u), verdict := Failed, inFlight := p.inFlight + 1)
    case Healthy(live) => p.(candidates := p.candidates + [Candidate(u, live)])
  }

  /** The scan stops as soon as the busy instances use up the limit. */
  function Scan(p: Pass, nova: Nova, host: string, us: seq<string>, limit: nat): Pass
    decreases |us|
  {
    if us == [] || p.inFlight >= limit then p
    else Scan(ScanOne(p, nova, host, us[0]), nova, host, us[1..], limit)
  }

  function StartOne(p: Pass, nova: Nova, c: Candidate): Pass {
    match nova.Trigger(c.id)
    case Accepted => p.(started := p.started + [c])
    case NotFound => Drop(p.(verdict := Failed), c.id)
    case Refused => p.(verdict := Failed)
  }

  function Start(p: Pass, nova: Nova, cs: seq<Candidate>, limit: nat): Pass
    decreases |cs|
  {
    if cs == [] || p.inFlight + |p.started| >= limit then p
    else Start(StartOne(p, nova, cs[0]), nova, cs[1..], limit)
  }

  function Clamp(limit: int): nat { if limit < 1 then 1 else limit }

  function Scanned(queue: seq<string>, verdict: Verdict, nova: Nova, host: string, limit: int): Pass {
    Scan(Pass(queue, verdict, 0, [], []), nova, host, queue, Clamp(limit))
  }

  function RunPass(queue: seq<string>, verdict: Verdict, nova: Nova, host: string, limit: int): Pass {
    var s := Scanned(queue, verdict, nova, host, limit);
    Start(s, nova, s.candidates, Clamp(limit))
  }

  // -------------------------------------------------------- conservation

  /** `after` is a permutation of `before` minus instances with departure evidence. */
  ghost predicate OnlyDeparted(before: seq<string>, after: seq<string>, nova: Nova, host: string) {
    forall u: string :: multiset(after)[u] <= multiset(before)[u]
      && (multiset(after)[u] < multiset(before)[u] ==> Departed(nova, host, u))
  }

  lemma DropKeeps(p: Pass, nova: Nova, host: string, u: string)
    requires Departed(nova, host, u)
    ensures OnlyDeparted(p.queue, Drop(p, u).queue, nova, host)
  {
    WithoutCounts(p.queue, u);
  }

  /** The queue after inspecting one instance: without it if it has left, with it in front if it is
      to be deferred. */
  function QueueAfter(q: seq<string>, nova: Nova, host: string, u: string): seq<string> {
    if ScanDeparted(nova, host, u) then Without(q, u) else if Alarming(nova, host, u) then ToFront(q, u) else q
  }

  lemma ScanOneQueue(p: Pass, nova: Nova, host: string, u: string)
    ensures ScanOne(p, nova, host, u).queue == QueueAfter(p.queue, nova, host, u)
  {
  }

  lemma QueueAfterKeeps(q: seq<string>, nova: Nova, host: string, u: string)
    ensures OnlyDeparted(q, QueueAfter(q, nova, host, u), nova, host)
  {
    ToFrontCounts(q, u);
    WithoutCounts(q, u);
  }

  lemma ScanOneKeeps(p: Pass, nova: Nova, host: string, u: string)
    ensures OnlyDeparted(p.queue, ScanOne(p, nova, host, u).queue, nova, host)
  {
    ScanOneQueue(p, nova, host, u);
    QueueAfterKeeps(p.queue, nova, host, u);
  }

  /** Candidates can be migrated, live exactly if they are active or running. */
  ghost predicate Sound(cs: seq<Candidate>, nova: Nova, host: string) {
    forall c :: c in cs ==> Movable(nova, host, c.id) && c.live == Live(nova.servers[c.id])
  }

  lemma {:induction false} ScanKeeps(p: Pass, nova: Nova, host: string, us: seq<string>, limit: nat)
    requires Sound(p.candidates, nova, host)
    ensures OnlyDeparted(p.queue, Scan(p, nova, host, us, limit).queue, nova, host)
    ensures Sound(Scan(p, nova, host, us, limit).candidates, nova, host)
    ensures Scan(p, nova, host, us, limit).started == p.started
    decreases |us|
  {
    if us == [] || p.inFlight >= limit {
    } else {
      ScanOneKeeps(p, nova, host, us[0]);
      ScanKeeps(ScanOne(p, nova, host, us[0]), nova, host, us[1..], limit);
    }
  }

  lemma {:induction false} StartKeeps(p: Pass, nova: Nova, host: string, cs: seq<Candidate>, limit: nat)
    requires Sound(cs, nova, host)
    ensures OnlyDeparted(p.queue, Start(p, nova, cs, limit).queue, nova, host)
    decreases |cs|
  {
    if cs == [] || p.inFlight + |p.started| >= limit {
    } else {
      var c := cs[0];
      assert Movable(nova, host, c.id);
      if nova.Trigger(c.id).NotFound? {
        DropKeeps(p.(verdict := Failed), nova, host, c.id);
      }
      StartKeeps(StartOne(p, nova, c), nova, host, cs[1..], limit);
    }
  }

  /** Conservation of one pass, for every queue, snapshot and limit. */
  lemma PassConserves(queue: seq<string>, verdict: Verdict, nova: Nova, host: string, limit: int)
    ensures OnlyDeparted(queue, RunPass(queue, verdict, nova, host, limit).queue, nova, host)
  {
    var p := Pass(queue, verdict, 0, [], []);
    var s := Scanned(queue, verdict, nova, host, limit);
    ScanKeeps(p, nova, host, queue, Clamp(limit));
    StartKeeps(s, nova, host, s.candidates, Clamp(limit));
  }

  function CountAfter(q: seq<string>, u: string, leaves: bool): int {
    if leaves && u in q then multiset(q)[u] - 1 else multiset(q)[u]
  }

  lemma ScanOneExact(p: Pass, nova: Nova, host: string, x: string, u: string)
    ensures multiset(ScanOne(p, nova, host, x).queue)[u]
            == CountAfter(p.queue, u, u == x && ScanDeparted(nova, host, x))
  {
    ScanOneQueue(p, nova, host, x);
    QueueAfterExact(p.queue, nova, host, x, u);
  }

  lemma QueueAfterExact(q: seq<string>, nova: Nova, host: string, x: string, u: string)
    ensures multiset(QueueAfter(q, nova, host, x))[u] == CountAfter(q, u, u == x && ScanDeparted(nova, host, x))
  {
    WithoutCounts(q, x);
    ToFrontCounts(q, x);
  }

  /** A scan that is not cut short removes exactly the scanned instances that have departed. */
  lemma {:induction false} ScanExact(p: Pass, nova: Nova, host: string, us: seq<string>, limit: nat, u: string)
    requires Distinct(us)
    requires Scan(p, nova, host, us, limit).inFlight < limit
    ensures multiset(Scan(p, nova, host, us, limit).queue)[u]
            == CountAfter(p.queue, u, u in us && ScanDeparted(nova, host, u))
    decreases |us|
  {
    if us == [] || p.inFlight >= limit {
    } else {
      var x, p' := us[0], ScanOne(p, nova, host, us[0]);
      ScanOneExact(p, nova, host, x, u);
      ScanExact(p', nova, host, us[1..], limit, u);
      assert u in us <==> u == x || u in us[1..];
      assert x !in us[1..];
      if u != x {
        assert u in p'.queue <==> u in multiset(p'.queue);
      }
    }
  }

  /** For a duplicate-free queue and a scan with slots to spare, an instance is still
      outstanding before the start phase exactly when nothing shows it has left. */
  lemma FullScanRemovesDeparted(queue: seq<string>, verdict: Verdict, nova: Nova, host: string, limit: int, u: string)
    requires Distinct(queue)
    requires Scanned(queue, verdict, nova, host, limit).inFlight < Clamp(limit)
    ensures u in Scanned(queue, verdict, nova, host, limit).queue <==> u in queue && !ScanDeparted(nova, host, u)
  {
    ScanExact(Pass(queue, verdict, 0, [], []), nova, host, queue, Clamp(limit), u);
    DistinctCounts(queue, u);
    assert u in Scanned(queue, verdict, nova, host, limit).queue
      <==> u in multiset(Scanned(queue, verdict, nova, host, limit).queue);
  }

  lemma {:induction false} DistinctCounts(q: seq<string>, u: string)
    requires Distinct(q)
    ensures multiset(q)[u] == if u in q then 1 else 0
  {
    if q == [] {
    } else {
      assert q == [q[0]] + q[1..];
      DistinctCounts(q[1..], u);
    }
  }

  // ------------------------------------------------------ sticky failure

  /** Failed, or nothing left to drain. */
  predicate Stuck(p: Pass) { p.verdict.Failed? || p.queue == [] }

  lemma {:induction false} ScanStaysStuck(p: Pass, nova: Nova, host: string, us: seq<string>, limit: nat)
    requires Stuck(p)
    ensures Stuck(Scan(p, nova, host, us, limit))
    decreases |us|
  {
    if us == [] || p.inFlight >= limit {
    } else {
      ScanStaysStuck(ScanOne(p, nova, host, us[0]), nova, host, us[1..], limit);
    }
  }

  lemma {:induction false} StartStaysStuck(p: Pass, nova: Nova, cs: seq<Candidate>, limit: nat)
    requires Stuck(p)
    ensures Stuck(Start(p, nova, cs, limit))
    decreases |cs|
  {
    if cs == [] || p.inFlight + |p.started| >= limit {
    } else {
      StartStaysStuck(StartOne(p, nova, cs[0]), nova, cs[1..], limit);
    }
  }

  /** A recorded failure survives the pass unless the pass empties the queue. */
  lemma PassKeepsFailure(queue: seq<string>, nova: Nova, host: string, limit: int)
    ensures var p := RunPass(queue, Failed, nova, host, limit);
            p.verdict.Failed? || p.queue == []
  {
    var s := Scanned(queue, Failed, nova, host, limit);
    ScanStaysStuck(Pass(queue, Failed, 0, [], []), nova, host, queue, Clamp(limit));
    StartStaysStuck(s, nova, s.candidates, Clamp(limit));
  }

  lemma {:induction false} ScanKeepsVerdictSet(p: Pass, nova: Nova, host: string, us: seq<string>, limit: nat)
    ensures Scan(p, nova, host, us, limit).verdict.Unset? ==> p.verdict.Unset?
    decreases |us|
  {
    if us != [] && p.inFlight < limit {
      ScanKeepsVerdictSet(ScanOne(p, nova, host, us[0]), nova, host, us[1..], limit);
    }
  }

  lemma {:induction false} StartKeepsVerdictSet(p: Pass, nova: Nova, cs: seq<Candidate>, limit: nat)
    ensures Start(p, nova, cs, limit).verdict.Unset? ==> p.verdict.Unset?
    decreases |cs|
  {
    if cs != [] && p.inFlight + |p.started| < limit {
      StartKeepsVerdictSet(StartOne(p, nova, cs[0]), nova, cs[1..], limit);
    }
  }

  /** No pass takes the MigratingInstance condition away. */
  lemma PassKeepsVerdictSet(queue: seq<string>, verdict: Verdict, nova: Nova, host: string, limit: int)
    ensures RunPass(queue, verdict, nova, host, limit).verdict.Unset? ==> verdict.Unset?
  {
    var s := Scanned(queue, verdict, nova, host, limit);
    ScanKeepsVerdictSet(Pass(queue, verdict, 0, [], []), nova, host, queue, Clamp(limit));
    StartKeepsVerdictSet(s, nova, s.candidates, Clamp(limit));
  }
}
