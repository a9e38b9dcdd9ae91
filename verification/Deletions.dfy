/** When the compute service is deleted, and when that can happen without Evicting=False. */
module Deletions {
  import opened Basics
  import opened Hypervisors
  import opened Protocol
  import opened DrainSafety
  import opened Offboarding
  import Onboarding

  // ------------------------------------------------- withdrawing Evicting=False

  /** Maintenance was called off or has moved on to `ha`, or there are instances on the host. */
  predicate NoLongerEvicted(w: World) {
    w.spec.maintenance.Ha? || w.spec.maintenance.NoMaintenance? || w.hv.numInstances > 0
  }

  /** In a consistent state a reconcile that gets past the compute service withdraws
      Evicting=False exactly for these reasons. */
  lemma WithdrawnExactly(w: World, rs: MaintReplies)
    requires DrainInvariant(w) && IsFalse(w.hv.evicting) && !IsTrue(w.hv.onboarding)
    ensures var m := PlanMaintenance(w.hv, w.spec, w.eviction, w.host, rs).write;
            && m.Some?
            && (!IsFalse(m.value.evicting)
                <==> NoLongerEvicted(w) && PlanService(w.hv, w.spec.maintenance, rs.serviceOk).ok)
  {
  }

  /** Reading r, committed at step d, withdraws Evicting=False. */
  ghost predicate Withdraws(ws: seq<World>, acts: seq<Action>, r: nat, d: nat)
    requires |ws| == |acts| + 1
  {
    && r < d < |acts| && acts[r].ReadMaintenance? && ws[r].pending.maint.None? && NoLongerEvicted(ws[r])
    && acts[d] == CommitMaintenance(true)
    && (forall k :: r < k <= d ==> ws[k].pending.maint == ws[d].pending.maint)
    && (forall k :: r <= k <= d ==> IsFalse(ws[k].hv.evicting)) && !IsFalse(ws[d + 1].hv.evicting)
  }

  /** The update under way was worked out at reading j, and nothing it covers has changed since. */
  lemma {:induction false} MaintenanceOrigin(ws: seq<World>, acts: seq<Action>, i: nat) returns (j: nat)
    requires IsRun(ws, acts) && i < |ws| && ws[i].pending.maint.Some?
    ensures j < i && acts[j].ReadMaintenance? && ws[j].pending.maint.None?
    ensures PlanMaintenance(ws[j].hv, ws[j].spec, ws[j].eviction, ws[j].host, acts[j].maint).write
            == ws[i].pending.maint
    ensures forall k :: j < k <= i ==> ws[k].pending.maint == ws[i].pending.maint
    ensures forall k :: j <= k <= i ==> ws[k].hv.evicting == ws[i].hv.evicting
  {
    var w, a := ws[i - 1], acts[i - 1];
    assert ws[i - 1 + 1] == Next(w, a);
    MaintenanceOwns(w, a);
    if w.pending.maint.Some? {
      j := MaintenanceOrigin(ws, acts, i - 1);
    } else {
      j := i - 1;
    }
  }

  lemma WithdrawStep(ws: seq<World>, acts: seq<Action>, d: nat) returns (r: nat)
    requires IsRun(ws, acts) && d < |acts| && IsFalse(ws[d].hv.evicting) && !IsFalse(ws[d + 1].hv.evicting)
    ensures Withdraws(ws, acts, r, d)
  {
    assert ws[d + 1] == Next(ws[d], acts[d]);
    MaintenanceOwns(ws[d], acts[d]);
    r := MaintenanceOrigin(ws, acts, d);
    InvariantHolds(ws, acts, r);
    WithdrawnExactly(ws[r], acts[r].maint);
  }

  /** Evicting=False at t is gone at i: at some point in between it was withdrawn for good. */
  lemma {:induction false} WithdrawOrigin(ws: seq<World>, acts: seq<Action>, t: nat, i: nat) returns (r: nat, d: nat)
    requires IsRun(ws, acts) && t <= i < |ws| && IsFalse(ws[t].hv.evicting) && !IsFalse(ws[i].hv.evicting)
    ensures t <= d < i && Withdraws(ws, acts, r, d)
    ensures forall k :: d < k <= i ==> !IsFalse(ws[k].hv.evicting)
    decreases i
  {
    if IsFalse(ws[i - 1].hv.evicting) {
      d := i - 1;
      r := WithdrawStep(ws, acts, d);
    } else {
      r, d := WithdrawOrigin(ws, acts, t, i - 1);
    }
  }

  // ----------------------------------------------------------------- deletions

  /** All gates of a deletion but the one about Evicting. */
  predicate DeletionGates(hv: HvStatus, spec: Spec, rs: OffReplies) {
    && spec.lifecycleEnabled && spec.maintenance.Termination?
    && hv.offboarded.Some? && !IsTrue(hv.offboarded) && !IsTrue(hv.onboarding)
    && IsTrue(hv.agentPods) && rs.host == HostIs(0, 0) && hv.aggregates == []
  }

  /** Exactly when a deletion of the compute service is sent. */
  lemma DeletesExactly(hv: HvStatus, spec: Spec, rs: OffReplies)
    ensures PlanOffboarding(hv, spec, rs).deletes
            <==> DeletionGates(hv, spec, rs) && (hv.serviceId == "" || IsFalse(hv.evicting))
  {
  }

  /** A deletion that is sent is a fact from then on, whatever becomes of the status update. */
  lemma DeletionIsFact(w: World, a: Action)
    ensures Next(w, a).serviceDeleted
            <==> || w.serviceDeleted
                 || (a.ReadOffboarding? && w.pending.off.None? && PlanOffboarding(w.hv, w.spec, a.off).deletes)
  {
  }

  /** How a host can pass the gates without Evicting=False: no agent pods were found while it was
      evicted (p), and then that was withdrawn (reading r, commit d) while AgentPodsEvicted stayed. */
  ghost predicate Outlived(ws: seq<World>, acts: seq<Action>, p: nat, r: nat, d: nat, i: nat)
    requires i < |ws| == |acts| + 1
  {
    && p <= d < i && FindsPodsGone(ws[p], acts[p]) && Withdraws(ws, acts, r, d)
    && (forall k :: d < k <= i ==> !IsFalse(ws[k].hv.evicting))
    && (forall k :: p < k <= i ==> CarriesPodsGone(ws[k]))
  }

  /** In every run, a deletion is sent without Evicting=False exactly on a host without service
      identifier that passes the other gates. Such a host has outlived an evicted state, and if
      Nova never reports empty identifiers its onboarding never began. */
  lemma UnevictedDeletionExactly(ws: seq<World>, acts: seq<Action>, i: nat, rs: OffReplies)
    requires IsRun(ws, acts) && i < |ws| && !IsFalse(ws[i].hv.evicting)
    ensures PlanOffboarding(ws[i].hv, ws[i].spec, rs).deletes
            <==> DeletionGates(ws[i].hv, ws[i].spec, rs) && ws[i].hv.serviceId == ""
    ensures PlanOffboarding(ws[i].hv, ws[i].spec, rs).deletes
            ==> exists p: nat, r: nat, d: nat :: Outlived(ws, acts, p, r, d, i)
    ensures PlanOffboarding(ws[i].hv, ws[i].spec, rs).deletes && Onboarding.NovaIdsGiven(acts)
            ==> ws[i].hv.onboarding.None?
  {
    DeletesExactly(ws[i].hv, ws[i].spec, rs);
    if PlanOffboarding(ws[i].hv, ws[i].spec, rs).deletes {
      var p := PodsOrigin(ws, acts, i);
      var r, d := WithdrawOrigin(ws, acts, p, i);
      assert Outlived(ws, acts, p, r, d, i);
      if Onboarding.NovaIdsGiven(acts) {
        Onboarding.OnbHolds(ws, acts, i);
      }
    }
  }

  // --------------------------------------------------------- offboarding, release

  /** Nova does not know the host, or the deletion and the cleanup in Placement went through. */
  predicate TornDown(hv: HvStatus, rs: OffReplies) {
    || rs.host.HostUnknown?
    || (rs.host == HostIs(0, 0) && hv.aggregates == [] && rs.deleted && rs.providerOk && rs.cleanupOk)
  }

  predicate OffboardingGates(hv: HvStatus, spec: Spec, rs: OffReplies) {
    && spec.lifecycleEnabled && spec.maintenance.Termination?
    && hv.offboarded.Some? && !IsTrue(hv.offboarded) && !IsTrue(hv.onboarding)
    && IsTrue(hv.agentPods) && TornDown(hv, rs)
  }

  /** Exactly when Offboarded is decided on. */
  lemma OffboardsExactly(hv: HvStatus, spec: Spec, rs: OffReplies)
    ensures IsTrue(PlanOffboarding(hv, spec, rs).write)
            <==> OffboardingGates(hv, spec, rs) && (hv.serviceId == "" || IsFalse(hv.evicting))
  {
  }

  /** In every run, Offboarded is decided on without Evicting=False exactly on hosts without
      service identifier that pass the other gates, and these have outlived an evicted state. */
  lemma UnevictedOffboardingExactly(ws: seq<World>, acts: seq<Action>, i: nat, rs: OffReplies)
    requires IsRun(ws, acts) && i < |ws| && !IsFalse(ws[i].hv.evicting)
    ensures IsTrue(PlanOffboarding(ws[i].hv, ws[i].spec, rs).write)
            <==> OffboardingGates(ws[i].hv, ws[i].spec, rs) && ws[i].hv.serviceId == ""
    ensures IsTrue(PlanOffboarding(ws[i].hv, ws[i].spec, rs).write)
            ==> exists p: nat, r: nat, d: nat :: Outlived(ws, acts, p, r, d, i)
  {
    OffboardsExactly(ws[i].hv, ws[i].spec, rs);
    if IsTrue(PlanOffboarding(ws[i].hv, ws[i].spec, rs).write) {
      var p := PodsOrigin(ws, acts, i);
      var r, d := WithdrawOrigin(ws, acts, p, i);
      assert Outlived(ws, acts, p, r, d, i);
    }
  }

  /** In every run, a reading of the node without Evicting=False releases it exactly when
      Offboarded is on record (and HA off on an onboarded node going away): Evicting is not
      looked at again. The reading behind Offboarded saw Evicting=False or no service identifier. */
  lemma UnevictedReleaseExactly(ws: seq<World>, acts: seq<Action>, i: nat)
    requires IsRun(ws, acts) && i < |ws| && !IsFalse(ws[i].hv.evicting)
    ensures var w := ws[i];
            PlanNode(w.hv, w.spec, w.taint, w.nodeTerminating) == Some(SetBudget(0))
            <==> w.spec.lifecycleEnabled && MayRelease(w)
    ensures IsOffboarded(ws[i]) ==>
              exists o :: && 0 <= o < i && FindsHostFree(ws[o], acts[o])
                          && (IsFalse(ws[o].hv.evicting) || ws[o].hv.serviceId == "")
                          && forall k :: o < k <= i ==> CarriesOffboarded(ws[k])
  {
    if IsOffboarded(ws[i]) {
      var o := OffboardedOrigin(ws, acts, i);
    }
  }
}
