/** What the maintenance controller guarantees about Evicting and Evicted in every run. */
module DrainSafety {
  import opened Basics
  import opened Conditions
  import opened Hypervisors
  import opened Protocol
  import Migrations
  import Evictions

  /** Evicting has one of two forms, and Evicting=False comes with Evicted and settled migrations. */
  predicate Consistent(evicted: bool, evicting: Option<Condition>, settled: Option<Condition>) {
    && (evicting.Some? ==> evicting.value == EVICTING || evicting.value == EVICTED)
    && (IsFalse(evicting) ==> evicted && settled == Some(SETTLED))
  }

  predicate DrainInvariant(w: World) {
    && Consistent(w.hv.evicted, w.hv.evicting, w.hv.settled)
    && (w.pending.maint.Some? ==>
          var m := w.pending.maint.value;
          Consistent(m.evicted, m.evicting, m.settled))
  }

  lemma PlanStaysConsistent(hv: HvStatus, spec: Spec, eviction: Option<Evictions.EvictionStatus>, host: string,
                            rs: MaintReplies)
    requires Consistent(hv.evicted, hv.evicting, hv.settled)
    ensures var m := PlanMaintenance(hv, spec, eviction, host, rs).write;
            m.Some? ==> Consistent(m.value.evicted, m.value.evicting, m.value.settled)
  {
  }

  lemma InvariantStep(w: World, a: Action)
    requires DrainInvariant(w)
    ensures DrainInvariant(Next(w, a))
  {
    MaintenanceOwns(w, a);
    if a.ReadMaintenance? {
      PlanStaysConsistent(w.hv, w.spec, w.eviction, w.host, a.maint);
    }
  }

  lemma {:induction false} InvariantHolds(ws: seq<World>, acts: seq<Action>, i: nat)
    requires IsRun(ws, acts) && i < |ws|
    ensures DrainInvariant(ws[i])
  {
    if i > 0 {
      InvariantHolds(ws, acts, i - 1);
      InvariantStep(ws[i - 1], acts[i - 1]);
      assert ws[i - 1 + 1] == Next(ws[i - 1], acts[i - 1]);
    }
  }

  /** In every state of every run, Evicting=False means that the host is marked evicted and
      that no migration towards it is in flight as far as the controller knows. */
  lemma EvictedImpliesSettled(ws: seq<World>, acts: seq<Action>, i: nat)
    requires IsRun(ws, acts) && i < |ws| && IsFalse(ws[i].hv.evicting)
    ensures ws[i].hv.evicted && ReportsSettled(ws[i].hv)
  {
    InvariantHolds(ws, acts, i);
  }

  /** The maintenance reconcile gets as far as asking for incoming migrations. */
  predicate ReachesSettling(w: World) {
    && Draining(w.spec.maintenance) && !IsTrue(w.hv.onboarding)
    && !(ReportsEvicted(w.hv) && w.hv.numInstances > 0)
    && !(ReportsEvicted(w.hv) && w.hv.evicted && ReportsSettled(w.hv))
  }

  /** So a reconcile that has settled the migrations never finds the eviction already
      recorded as succeeded: that branch is dead on a host that started fresh. */
  lemma CompletedBranchIsDead(ws: seq<World>, acts: seq<Action>, i: nat)
    requires IsRun(ws, acts) && i < |ws| && ReachesSettling(ws[i])
    ensures !HasReason(ws[i].hv.evicting, Succeeded)
  {
    InvariantHolds(ws, acts, i);
  }

  // ------------------------------------------------------- becoming evicted

  /** A reading from which the host may be declared evicted. */
  ghost predicate Cleared(w: World, rs: MaintReplies) {
    && Draining(w.spec.maintenance) && w.hv.numInstances == 0
    && rs.migrations.listing.Some?
    && (forall m :: m in rs.migrations.listing.value ==> !Migrations.Incoming(m, w.host))
    && w.eviction.Some? && w.eviction.value.progress.Finished?
    && (w.hv.serviceId != "" ==> RecordsDisabled(w, rs) && (IsTrue(w.hv.disabled) || rs.serviceOk))
  }

  /** The update of the same reconcile records the compute service as disabled. */
  predicate RecordsDisabled(w: World, rs: MaintReplies) {
    var m := PlanMaintenance(w.hv, w.spec, w.eviction, w.host, rs).write;
    m.Some? && IsTrue(m.value.disabled)
  }

  predicate AboutToRise(w: World) {
    w.pending.maint.Some? && w.pending.maint.value.evicted && !w.hv.evicted
  }

  predicate CarriesEvicted(w: World) {
    IsFalse(w.hv.evicting) || (w.pending.maint.Some? && IsFalse(w.pending.maint.value.evicting))
  }

  lemma RiseNeedsClearance(w: World, rs: MaintReplies)
    requires var m := PlanMaintenance(w.hv, w.spec, w.eviction, w.host, rs).write;
             m.Some? && ((m.value.evicted && !w.hv.evicted) || (IsFalse(m.value.evicting) && !IsFalse(w.hv.evicting)))
    ensures Cleared(w, rs)
  {
    var s := Migrations.Settle(rs.migrations, w.host);
    assert Migrations.IsSettled(s);
    Migrations.SettlePartitions(rs.migrations, w.host);
  }

  /** A reading that takes effect and from which the host may be declared evicted. */
  ghost predicate Clears(w: World, a: Action) {
    a.ReadMaintenance? && w.pending.maint.None? && Cleared(w, a.maint)
  }

  lemma RiseStep(w: World, a: Action)
    requires !AboutToRise(w) && AboutToRise(Next(w, a))
    ensures Clears(w, a) && !w.hv.evicted
  {
    MaintenanceOwns(w, a);
    if a.ReadMaintenance? {
      RiseNeedsClearance(w, a.maint);
    }
  }

  lemma RiseCommit(w: World, a: Action)
    requires !w.hv.evicted && Next(w, a).hv.evicted
    ensures AboutToRise(w) && a == CommitMaintenance(true)
  {
    MaintenanceOwns(w, a);
  }

  lemma EvictedStep(w: World, a: Action)
    requires !CarriesEvicted(w) && CarriesEvicted(Next(w, a))
    ensures Clears(w, a)
  {
    MaintenanceOwns(w, a);
    if a.ReadMaintenance? {
      RiseNeedsClearance(w, a.maint);
    }
  }

  /** The update under way is the one of reading j, and Evicted has not been set meanwhile. */
  ghost predicate AwaitsCommit(ws: seq<World>, j: nat, i: nat)
    requires i < |ws|
  {
    forall k :: j < k <= i ==> ws[k].pending.maint == ws[i].pending.maint && !ws[k].hv.evicted
  }

  lemma {:induction false} RiseOrigin(ws: seq<World>, acts: seq<Action>, i: nat) returns (j: nat)
    requires IsRun(ws, acts) && i < |ws| && AboutToRise(ws[i])
    ensures j < i && Clears(ws[j], acts[j]) && AwaitsCommit(ws, j, i)
  {
    var w, a := ws[i - 1], acts[i - 1];
    assert ws[i - 1 + 1] == Next(w, a);
    if AboutToRise(w) {
      j := RiseOrigin(ws, acts, i - 1);
      MaintenanceOwns(w, a);
    } else {
      RiseStep(w, a);
      j := i - 1;
    }
  }

  /** Evicted rises only when the update of a reconcile is committed that found no migration in
      flight towards the host, a finished Eviction and no instances, and that records a
      registered service as disabled. */
  lemma EvictedRisesCleared(ws: seq<World>, acts: seq<Action>, i: nat)
    requires IsRun(ws, acts) && i < |acts|
    requires !ws[i].hv.evicted && ws[i + 1].hv.evicted
    ensures acts[i] == CommitMaintenance(true)
    ensures exists j :: 0 <= j < i && Clears(ws[j], acts[j]) && AwaitsCommit(ws, j, i)
  {
    RiseCommit(ws[i], acts[i]);
    var j := RiseOrigin(ws, acts, i);
  }

  /** The same for Evicting=False, which has been on record or under way ever since. */
  lemma {:induction false} EvictedOrigin(ws: seq<World>, acts: seq<Action>, i: nat) returns (j: nat)
    requires IsRun(ws, acts) && i < |ws| && CarriesEvicted(ws[i])
    ensures j < i && Clears(ws[j], acts[j])
    ensures forall k :: j < k <= i ==> CarriesEvicted(ws[k])
  {
    var w, a := ws[i - 1], acts[i - 1];
    assert ws[i - 1 + 1] == Next(w, a);
    if CarriesEvicted(w) {
      j := EvictedOrigin(ws, acts, i - 1);
    } else {
      EvictedStep(w, a);
      j := i - 1;
    }
  }

  // ------------------------------------------------------ re-entering a drain

  /** Every request of the reconcile succeeds. */
  predicate ErrorFree(w: World, rs: MaintReplies) {
    && rs.serviceOk && rs.deleteOk && rs.applyOk && rs.getOk
    && Migrations.Settle(rs.migrations, w.host).Settlement?
  }

  /** While instances remain, an error-free reconcile in a draining mode always withdraws the
      claim that the host is evicted. */
  lemma InstancesWithdrawEvicted(ws: seq<World>, acts: seq<Action>, i: nat, rs: MaintReplies)
    requires IsRun(ws, acts) && i < |ws|
    requires Draining(ws[i].spec.maintenance) && ws[i].hv.numInstances > 0 && !IsTrue(ws[i].hv.onboarding)
    requires ErrorFree(ws[i], rs)
    ensures var m := PlanMaintenance(ws[i].hv, ws[i].spec, ws[i].eviction, ws[i].host, rs).write;
            m.Some? && !m.value.evicted && !IsFalse(m.value.evicting)
  {
    InvariantHolds(ws, acts, i);
  }
}
