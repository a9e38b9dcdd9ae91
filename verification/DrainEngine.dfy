/**
 The Eviction controller as it runs: an object whose queue is an array that is
 reordered in place or replaced by a shortened copy, and loops that scan a
 snapshot of it. Every method is proved against `Drain` and `Evictions`.
 */
module DrainEngine {
  import opened Basics
  import opened Drain
  import opened Evictions

  lemma {:induction false} WithoutAt(q: seq<string>, i: nat)
    requires i < |q| && q[i] !in q[..i]
    ensures Without(q, q[i]) == q[..i] + q[i + 1..]
  {
    if i > 0 {
      assert q[0] == q[..i][0];
      assert q[i] == q[1..][i - 1] && q[1..][..i - 1] == q[..i][1..];
      WithoutAt(q[1..], i - 1);
      assert q[..i] == [q[0]] + q[1..][..i - 1];
      assert q[1..][i..] == q[i + 1..];
    }
  }

  /** Removes by copying; the argument array is never written. */
  method RemoveInstance(instances: array<string>, uuid: string) returns (r: array<string>)
    ensures r[..] == Without(instances[..], uuid)
    ensures uuid !in instances[..] ==> r == instances
    ensures uuid in instances[..] ==> fresh(r)
  {
    var n := instances.Length;
    var i := 0;
    while i < n
      invariant 0 <= i <= n
      invariant uuid !in instances[..i]
    {
      if instances[i] == uuid {
        ghost var q := instances[..];
        assert q[..i] == instances[..i];
        WithoutAt(q, i);
        r := new string[n - 1](k requires 0 <= k < n - 1 reads instances =>
               if k < i then instances[k] else instances[k + 1]);
        assert r[..] == q[..i] + q[i + 1..];
        return;
      }
      i := i + 1;
    }
    assert instances[..i] == instances[..];
    WithoutCounts(instances[..], uuid);
    r := instances;
  }

  /** Moves the instance to index 0 by shifting the elements before it, in place. */
  method Deprioritize(instances: array<string>, uuid: string)
    modifies instances
    ensures instances[..] == ToFront(old(instances[..]), uuid)
  {
    ghost var q := instances[..];
    var idx := 0;
    while idx < instances.Length && instances[idx] != uuid
      invariant 0 <= idx <= instances.Length
      invariant uuid !in q[..idx]
    {
      idx := idx + 1;
    }
    if idx == instances.Length {
      assert q[..idx] == q;
      return;
    }
    WithoutAt(q, idx);
    var k := idx;
    while k > 0
      invariant 0 <= k <= idx < instances.Length
      invariant forall j :: 0 <= j <= k ==> instances[j] == q[j]
      invariant forall j :: k < j <= idx ==> instances[j] == q[j - 1]
      invariant forall j :: idx < j < instances.Length ==> instances[j] == q[j]
    {
      instances[k] := instances[k - 1];
      k := k - 1;
    }
    instances[0] := uuid;
    assert instances[..] == [uuid] + (q[..idx] + q[idx + 1..]);
  }

  class EvictionObject {
    const host: string
    var progress: Progress
    var preflight: Preflight
    var verdict: Verdict
    var outstanding: array<string>

    constructor (host: string)
      ensures this.host == host && fresh(outstanding)
      ensures Status() == BLANK
    {
      this.host := host;
      progress, preflight, verdict := New, NotChecked, Unset;
      outstanding := new string[0];
    }

    function Status(): EvictionStatus
      reads this, outstanding
    {
      EvictionStatus(progress, preflight, verdict, outstanding[..])
    }

    function Current(inFlight: nat, candidates: seq<Candidate>, started: seq<Candidate>): Pass
      reads this, outstanding
    {
      Pass(outstanding[..], verdict, inFlight, candidates, started)
    }

    method SetMigrationSucceeded()
      modifies `verdict
      ensures verdict == Completed(old(verdict), outstanding[..])
    {
      var stickyFailure := outstanding.Length > 0 && verdict.Failed?;
      if stickyFailure {
        return;
      }
      verdict := Succeeded;
    }

    /** Drops the instance when the reply says it is gone. */
    method RemoveGone(uuid: string, reply: Reply) returns (handled: bool)
      modifies `outstanding, `verdict
      ensures handled == reply.NotFound?
      ensures outstanding == old(outstanding) || fresh(outstanding)
      ensures handled ==> outstanding[..] == Without(old(outstanding[..]), uuid)
      ensures handled ==> verdict == Completed(old(verdict), outstanding[..])
      ensures !handled ==> outstanding == old(outstanding) && verdict == old(verdict)
    {
      if !reply.NotFound? {
        return false;
      }
      outstanding := RemoveInstance(outstanding, uuid);
      SetMigrationSucceeded();
      return true;
    }

    /** Inspects one instance of the snapshot. */
    method Inspect(nova: Nova, uuid: string, busy: nat, eligible: seq<Candidate>)
        returns (inFlight: nat, candidates: seq<Candidate>)
      modifies `outstanding, `verdict, outstanding
      ensures outstanding == old(outstanding) || fresh(outstanding)
      ensures Current(inFlight, candidates, []) == ScanOne(old(Current(busy, eligible, [])), nova, host, uuid)
    {
      inFlight, candidates := busy, eligible;
      if uuid in nova.flaky {
        return;
      }
      if uuid !in nova.servers {
        var _ := RemoveGone(uuid, NotFound);
        return;
      }
      var vm := nova.servers[uuid];
      match vm.status {
        case MIGRATING | RESIZE =>
          inFlight := inFlight + 1;
          return;
        case ERROR =>
          Deprioritize(outstanding, uuid);
          verdict := Failed;
          return;
        case _ =>
      }
      if IsMigrationTaskState(vm.taskState) {
        inFlight := inFlight + 1;
        return;
      }
      if ShortName(vm.hostname) != host {
        if vm.status.VERIFY_RESIZE? {
          var _ := RemoveGone(uuid, nova.Confirm(uuid));
          inFlight := inFlight + 1;
          return;
        }
        outstanding := RemoveInstance(outstanding, uuid);
        SetMigrationSucceeded();
        return;
      }
      if vm.taskState == "deleting" {
        Deprioritize(outstanding, uuid);
        verdict := Failed;
        inFlight := inFlight + 1;
        return;
      }
      candidates := candidates + [Candidate(uuid, vm.status.ACTIVE? || vm.powerState == 1)];
    }

    /** Triggers one migration; a failing trigger records the failure first. */
    method Trigger(nova: Nova, c: Candidate, ghost inFlight: nat, ghost candidates: seq<Candidate>,
                   begun: seq<Candidate>)
        returns (started: seq<Candidate>)
      modifies `outstanding, `verdict
      ensures outstanding == old(outstanding) || fresh(outstanding)
      ensures Current(inFlight, candidates, started) == StartOne(old(Current(inFlight, candidates, begun)), nova, c)
    {
      started := begun;
      var reply := nova.Trigger(c.id);
      if !reply.Accepted? {
        verdict := Failed;
        var _ := RemoveGone(c.id, reply);
        return;
      }
      started := started + [c];
    }

    /** One pass over the queue. `quick` asks for the short retry interval. */
    method EvictNext(nova: Nova, requested: int) returns (started: seq<Candidate>, quick: bool)
      modifies `outstanding, `verdict, outstanding
      ensures outstanding == old(outstanding) || fresh(outstanding)
      ensures var p := RunPass(old(outstanding[..]), old(verdict), nova, host, requested);
              && outstanding[..] == p.queue && verdict == p.verdict && started == p.started
              && quick == (p.inFlight + |p.started| == 0 && p.queue != [])
    {
      var limit := requested;
      if limit < 1 {
        limit := 1;
      }
      var snapshot := outstanding[..];
      ghost var goal := Scanned(snapshot, verdict, nova, host, requested);
      var inFlight, candidates := 0, [];
      var i := 0;
      while i < |snapshot|
        invariant 0 <= i <= |snapshot| && inFlight >= 0
        invariant outstanding == old(outstanding) || fresh(outstanding)
        invariant goal == Scan(Current(inFlight, candidates, []), nova, host, snapshot[i..], limit)
      {
        if inFlight >= limit {
          break;
        }
        assert snapshot[i..][1..] == snapshot[i + 1..];
        inFlight, candidates := Inspect(nova, snapshot[i], inFlight, candidates);
        i := i + 1;
      }
      assert goal == Current(inFlight, candidates, []);

      started := [];
      var j := 0;
      ghost var result := Start(goal, nova, candidates, limit);
      while j < |candidates|
        invariant 0 <= j <= |candidates|
        invariant outstanding == old(outstanding) || fresh(outstanding)
        invariant result == Start(Current(inFlight, candidates, started), nova, candidates[j..], limit)
      {
        if inFlight + |started| >= limit {
          break;
        }
        assert candidates[j..][1..] == candidates[j + 1..];
        started := Trigger(nova, candidates[j], inFlight, candidates, started);
        j := j + 1;
      }
      quick := inFlight + |started| == 0 && outstanding.Length > 0;
    }

    method HandlePreflight(o: Observation) returns (update: bool)
      modifies `progress, `preflight, `outstanding
      ensures outstanding == old(outstanding) || fresh(outstanding)
      ensures var w := CheckPreflight(old(Status()), o);
              if w.Some? then update && Status() == w.value else !update && Status() == old(Status())
    {
      if o.registered && !o.disabled {
        update := !preflight.Blocked?;
        preflight := Blocked;
        return;
      }
      match o.reply {
        case HostError =>
          return false;
        case HostMissing =>
          progress := Finished(!o.registered);
          return true;
        case HostFound(servers) =>
          if servers.Some? {
            outstanding := new string[|servers.value|](i requires 0 <= i < |servers.value| => servers.value[i]);
            assert outstanding[..] == servers.value;
          }
          preflight := Passed;
          return true;
      }
    }

    /** One reconcile; `update` says whether a status update is sent. */
    method ReconcileOnce(o: Observation) returns (update: bool, started: seq<Candidate>)
      modifies `progress, `preflight, `verdict, `outstanding, outstanding
      ensures outstanding == old(outstanding) || fresh(outstanding)
      ensures var r := Reconcile(old(Status()), host, o);
              && started == r.started
              && if r.write.Some? then update && Status() == r.write.value
                 else !update && Status() == old(Status())
    {
      started := [];
      match progress {
        case New =>
          progress := Running;
          return true, [];
        case Finished(_) =>
          return false, [];
        case Running =>
          if !preflight.Passed? {
            update := HandlePreflight(o);
            return update, [];
          }
          if outstanding.Length > 0 {
            var quick;
            started, quick := EvictNext(o.nova, o.limit);
            return true, started;
          }
          progress := Finished(true);
          return true, [];
      }
    }
  }
}
