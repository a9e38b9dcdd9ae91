/**
 What one reconcile of each lifecycle controller decides, law by law, in the terms of what it reads
 and of the answers it gets.
 */
module LifecycleLaws {
  import opened Basics
  import opened Conditions
  import opened Hypervisors
  import opened Protocol
  import opened Onboarding
  import Aggregates
  import Traits

  // ------------------------------------------------------------ onboarding

  /** Why onboarding is to be aborted: a disabled lifecycle comes first. */
  function AbortMessage(spec: Spec): Message {
    if !spec.lifecycleEnabled then LifecycleDisabled else MaintenanceTermination
  }

  /** Onboarding is aborted exactly if it has begun, has not succeeded and is not aborted for this
      reason already. The identifiers stay; the condition stays True if the cleanup fails. */
  lemma AbortsExactly(hv: HvStatus, spec: Spec, zone: string, rs: OnbReplies)
    requires !spec.lifecycleEnabled || spec.maintenance.Termination?
    ensures var p := PlanOnboarding(hv, spec, zone, rs);
            && (p.Some? <==> && hv.onboarding.Some? && !HasReason(hv.onboarding, Succeeded)
                             && hv.onboarding != Some(Condition(False, Aborted, AbortMessage(spec))))
            && (p.Some? ==> p.value.hypervisorId == hv.hypervisorId && p.value.serviceId == hv.serviceId)
            && (p.Some? && rs.cleanupOk ==> p.value.onboarding == Some(Condition(False, Aborted, AbortMessage(spec))))
            && (p.Some? && !rs.cleanupOk ==> p.value.onboarding == Some(Condition(True, Aborted, Detail(rs.text))))
  {
  }

  /** Missing identifiers are looked up first, and recorded as Nova gives them. */
  lemma LooksUpExactly(hv: HvStatus, spec: Spec, zone: string, rs: OnbReplies)
    requires spec.lifecycleEnabled && !spec.maintenance.Termination?
    requires hv.hypervisorId == "" || hv.serviceId == ""
    ensures PlanOnboarding(hv, spec, zone, rs)
            == if rs.lookup.LookupIds?
               then Some(OnbWrite(rs.lookup.hypervisorId, rs.lookup.serviceId, Some(Condition(True, Initial, Fixed))))
               else None
  {
  }

  /** The phase a decision leads to; the old one if nothing is written. */
  function NextPhase(hv: HvStatus, spec: Spec, zone: string, rs: OnbReplies): Phase {
    var p := PlanOnboarding(hv, spec, zone, rs);
    if p.Some? then PhaseOf(p.value.onboarding) else PhaseOf(hv.onboarding)
  }

  /** The smoke test is not required, or has passed in this reconcile. */
  predicate TestPassed(spec: Spec, rs: OnbReplies) { spec.skipTests || rs.smoke.Passed? }

  /** The whole phase machine of a registered host in a normal lifecycle: which phase follows, and
      on which conditions. */
  lemma PhaseMachine(hv: HvStatus, spec: Spec, zone: string, rs: OnbReplies)
    requires spec.lifecycleEnabled && !spec.maintenance.Termination? && Registered(hv)
    requires !PhaseOf(hv.onboarding).OutOfPlace?
    ensures var q := NextPhase(hv, spec, zone, rs);
            match PhaseOf(hv.onboarding)
            case NotStarted => q == InInitial
            case InInitial =>
              q == if && zone != "" && multiset(hv.aggregates) == multiset{zone, "tenant_filter_tests"}
                      && rs.serviceOk
                   then InTesting else InInitial
            case InTesting =>
              q == if !TestPassed(spec, rs) then InTesting else if rs.cleanupOk then InHandover else HasAborted
            case InHandover =>
              q == if && IsTrue(hv.aggregatesUpdated) && IsTrue(hv.traitsUpdated)
                      && (spec.highAvailability ==> IsTrue(hv.haEnabled))
                   then HasSucceeded else InHandover
            case _ => q == PhaseOf(hv.onboarding)
  {
    assert multiset([zone, TEST_AGGREGATE]) == multiset{zone, "tenant_filter_tests"};
  }

  /** Outside the abort paths a decision keeps the identifiers it has, and writes exactly when the
      phase moves or a failed test is to be put on record. */
  lemma WritesExactly(hv: HvStatus, spec: Spec, zone: string, rs: OnbReplies)
    requires spec.lifecycleEnabled && !spec.maintenance.Termination? && Registered(hv)
    requires !PhaseOf(hv.onboarding).OutOfPlace?
    ensures var p := PlanOnboarding(hv, spec, zone, rs);
            && (p.Some? ==> p.value.hypervisorId == hv.hypervisorId && p.value.serviceId == hv.serviceId)
            && (p.Some? <==> || NextPhase(hv, spec, zone, rs) != PhaseOf(hv.onboarding)
                             || (&& PhaseOf(hv.onboarding).InTesting? && !spec.skipTests
                                 && rs.smoke in {BuildError, NoConsole, TimedOut, CannotDelete}))
            && (p.Some? && NextPhase(hv, spec, zone, rs) == PhaseOf(hv.onboarding) ==>
                  p.value.onboarding == Some(Condition(True, Testing, Detail(rs.text))))
            && (p.Some? && NextPhase(hv, spec, zone, rs).HasAborted? ==>
                  p.value.onboarding == Some(Condition(True, Aborted, Detail(rs.text))))
  {
  }

  // ------------------------------------------------------------ aggregates

  /** What the aggregates of a host are to be, by phase, unless it is terminating: the zone and the
      test aggregate until the traits of a handed over host are applied, those of the spec
      otherwise. */
  lemma DesiredByPhase(hv: HvStatus, spec: Spec, zone: string)
    requires !PhaseOf(hv.onboarding).OutOfPlace? && !spec.maintenance.Termination?
    ensures var d := DesiredState(hv, spec, zone);
            match PhaseOf(hv.onboarding)
            case InInitial => d == Desired([zone, "tenant_filter_tests"], Condition(False, TestAggregates, Fixed))
            case InTesting => d == Desired([zone, "tenant_filter_tests"], Condition(False, TestAggregates, Fixed))
            case InHandover =>
              d == if IsTrue(hv.traitsUpdated) then Desired(spec.aggregates, Condition(True, Succeeded, Fixed))
                   else Desired([zone, "tenant_filter_tests"], Condition(False, WaitingForTraits, Fixed))
            case _ => d == Desired(spec.aggregates, Condition(True, Succeeded, Fixed))
  {
  }

  /** While terminating: none once evicted, and the present ones until then. */
  lemma DesiredWhileTerminating(hv: HvStatus, spec: Spec, zone: string)
    requires spec.maintenance.Termination?
    ensures var d := DesiredState(hv, spec, zone);
            && (IsFalse(hv.evicting) ==> d == Desired([], Condition(False, Terminating, Fixed)))
            && (!IsFalse(hv.evicting) ==> d == Desired(hv.aggregates, Condition(False, EvictionInProgress, Fixed)))
  {
  }

  /** A failure on the way is recorded, and leaves the recorded aggregates alone. */
  lemma AggregatesFailure(hv: HvStatus, spec: Spec, zone: string, member: set<string>, rs: AggReplies)
    requires Registered(hv) && multiset(DesiredState(hv, spec, zone).aggregates) != multiset(hv.aggregates)
    ensures var p := PlanAggregates(hv, spec, zone, member, rs);
            var ok := rs.listOk
                && Aggregates.Apply(rs.names, member, DesiredState(hv, spec, zone).aggregates, rs.calls).ok;
            && p.write.Some?
            && (!ok ==> p.write == Some(AggWrite(None, Condition(False, Failed, Fixed))))
            && (ok ==> p.write.value.aggregates == Some(DesiredState(hv, spec, zone).aggregates))
            && (!rs.listOk ==> p.calls == [] && p.member == member)
  {
  }

  /** A host in the right aggregates is left alone but for its condition, an unregistered one
      altogether. */
  lemma AggregatesQuiet(hv: HvStatus, spec: Spec, zone: string, member: set<string>, rs: AggReplies)
    requires !Registered(hv) || multiset(DesiredState(hv, spec, zone).aggregates) == multiset(hv.aggregates)
    ensures var p := PlanAggregates(hv, spec, zone, member, rs);
            && p.calls == [] && p.member == member
            && (p.write.Some? <==>
                  Registered(hv) && hv.aggregatesUpdated != Some(DesiredState(hv, spec, zone).condition))
            && (p.write.Some? ==> p.write.value == AggWrite(None, DesiredState(hv, spec, zone).condition))
  {
  }

  // ------------------------------------------------------------ traits

  /** Which hosts have their traits managed. */
  lemma ManagedByPhase(hv: HvStatus, spec: Spec)
    requires !PhaseOf(hv.onboarding).OutOfPlace?
    ensures TraitsManaged(hv, spec)
            <==> && spec.lifecycleEnabled && !spec.maintenance.Termination? && hv.hypervisorId != ""
                 && var p := PhaseOf(hv.onboarding);
                    p.InHandover? || p.HasSucceeded? || (p.HasAborted? && IsFalse(hv.onboarding))
  {
  }

  /** A reconcile of the traits out of sync: a failing listing or update is recorded, otherwise the
      record is the target. */
  lemma TraitsOutcome(hv: HvStatus, spec: Spec, rs: TraitReplies)
    requires TraitsManaged(hv, spec)
    requires multiset(spec.customTraits) != multiset(Traits.CustomTraitsOf(hv.traits))
    ensures var p := PlanTraits(hv, spec, rs);
            var fails := rs.current.None? || (Traits.NeedsUpdate(rs.current.value, spec.customTraits) && !rs.updateOk);
            && p.Some?
            && (fails ==> p.value == TraitWrite(hv.traits, Condition(False, Failed, Fixed)))
            && (!fails ==> p.value == TraitWrite(Traits.Target(rs.current.value, spec.customTraits),
                                                 Condition(True, Succeeded, Fixed)))
  {
  }

  lemma TraitsInSync(hv: HvStatus, spec: Spec, rs: TraitReplies)
    requires TraitsManaged(hv, spec)
    requires multiset(spec.customTraits) == multiset(Traits.CustomTraitsOf(hv.traits))
    ensures PlanTraits(hv, spec, rs)
            == if IsTrue(hv.traitsUpdated) then None else Some(TraitWrite(hv.traits, Condition(True, Succeeded, Fixed)))
  {
  }

  /** The traits recorded after an error-free reconcile: if they were out of sync, exactly the
      standard ones of Placement and those of the spec. */
  lemma TraitsConverge(w: World, rs: TraitReplies)
    requires TraitsManaged(w.hv, w.spec) && w.pending.traits.None? && TraitsErrorFree(w, rs)
    requires multiset(w.spec.customTraits) != multiset(Traits.CustomTraitsOf(w.hv.traits))
    ensures forall t :: t in TraitsReconciled(w, rs).hv.traits
              <==> t in w.spec.customTraits || (t in rs.current.value && !Traits.IsCustom(t))
  {
    TraitsOutcome(w.hv, w.spec, rs);
    Traits.TargetIsExact(rs.current.value, w.spec.customTraits);
  }

  // ------------------------------------------------------------ offboarding

  /** The controller has something to do on this host. */
  predicate Offboards(hv: HvStatus, spec: Spec) {
    && spec.lifecycleEnabled && spec.maintenance.Termination? && !IsTrue(hv.offboarded)
    && (hv.offboarded.Some? ==> !IsTrue(hv.onboarding) && (hv.serviceId == "" || IsFalse(hv.evicting)))
  }

  /** A host that is offboarding reports Offboarded=False until it is done; nothing is written
      otherwise, and the very first reconcile only announces it. */
  lemma OffboardingReports(hv: HvStatus, spec: Spec, rs: OffReplies)
    ensures var p := PlanOffboarding(hv, spec, rs);
            && (p.write.Some? <==> Offboards(hv, spec))
            && (p.write.Some? ==> p.write.value in {Condition(False, Offboarding, Fixed),
                                                    Condition(True, OffboardingDone, Fixed)})
            && (hv.offboarded.None? && Offboards(hv, spec) ==>
                  p == OffPlan(Some(Condition(False, Offboarding, Fixed)), false))
  {
  }

  // ------------------------------------------------------------ agent pods

  /** AgentPodsEvicted is worked out only on a tainted, evicted, terminating host, and is True
      exactly if no pod is in the way. It is written when it changes. */
  lemma PodsExactly(hv: HvStatus, spec: Spec, taint: bool, rs: PodReplies)
    ensures var p := PlanPods(hv, spec, taint, rs);
            var due := rs.syncOk && spec.maintenance.Termination? && IsFalse(hv.evicting) && taint && rs.blocking.Some?;
            && (p.Some? ==> due)
            && (p.Some? ==> (IsTrue(p) <==> rs.blocking == Some(0)) && (IsFalse(p) <==> rs.blocking != Some(0)))
            && (due ==> (if p.Some? then IsTrue(p) else IsTrue(hv.agentPods)) == (rs.blocking == Some(0)))
            && (due && p.None? ==> hv.agentPods.Some? && (IsFalse(hv.agentPods) <==> rs.blocking != Some(0)))
  {
  }

  // ------------------------------------------------------------ node

  /** What the node controller writes: the taint first, then a budget of 1, or 0 once the host is
      offboarded, unless an onboarded node that goes away still has high availability. */
  lemma NodeExactly(hv: HvStatus, spec: Spec, taint: bool, nodeTerminating: bool)
    ensures var p := PlanNode(hv, spec, taint, nodeTerminating);
            var marks := spec.maintenance.Termination? && IsFalse(hv.evicting) && !taint;
            var held := IsFalse(hv.onboarding) && nodeTerminating && !IsFalse(hv.haEnabled);
            && (p == Some(AddTaint) <==> spec.lifecycleEnabled && marks)
            && (p == Some(SetBudget(1)) <==> spec.lifecycleEnabled && !marks && !IsTrue(hv.offboarded))
            && (p == Some(SetBudget(0)) <==> spec.lifecycleEnabled && !marks && IsTrue(hv.offboarded) && !held)
            && (p.None? <==> !spec.lifecycleEnabled || (!marks && IsTrue(hv.offboarded) && held))
  {
  }

  /** No other budget is ever set. */
  predicate BudgetSane(w: World) {
    && (w.budget.Some? ==> w.budget.value <= 1)
    && (w.pending.node.Some? && w.pending.node.value.SetBudget? ==> w.pending.node.value.minAvailable <= 1)
  }

  lemma BudgetStep(w: World, a: Action)
    requires BudgetSane(w)
    ensures BudgetSane(Next(w, a))
  {
    NodeOwns(w, a);
  }

  lemma {:induction false} BudgetIsOneOrZero(ws: seq<World>, acts: seq<Action>, i: nat)
    requires IsRun(ws, acts) && i < |ws|
    ensures BudgetSane(ws[i])
  {
    if i > 0 {
      BudgetIsOneOrZero(ws, acts, i - 1);
      BudgetStep(ws[i - 1], acts[i - 1]);
      assert ws[i - 1 + 1] == Next(ws[i - 1], acts[i - 1]);
    }
  }
}
