/**
 The onboarding, offboarding, agent-pod and node controllers as they run, each
 proved to make the decision that the protocol assumes of it.
 */
module LifecycleControllers {
  import opened Basics
  import opened Slices
  import opened Conditions
  import opened Hypervisors
  import opened MaintenanceController
  import Placement
  import Aggregates
  import Traits

  // ------------------------------------------------------------ onboarding

  /** The payload carries exactly this update. */
  ghost predicate CarriesOnboarding(cfg: StatusConfig, w: OnbWrite)
    reads cfg
  {
    && OnePerType(cfg.entries)
    && cfg.hypervisorId == Some(w.hypervisorId) && cfg.serviceId == Some(w.serviceId)
    && View(cfg.entries, OnboardingType) == w.onboarding
    && forall t :: t != OnboardingType ==> Lookup(cfg.entries, t).None?
  }

  /** The payload holds what was stored, ready to be changed. */
  ghost predicate Seeded(cfg: StatusConfig, hv: HvStatus)
    reads cfg
  {
    CarriesOnboarding(cfg, OnbWrite(hv.hypervisorId, hv.serviceId, hv.onboarding))
  }

  /** Whether a decision and its payload agree: nothing is sent, or exactly the update. */
  ghost predicate Agrees(send: bool, cfg: StatusConfig, w: Option<OnbWrite>)
    reads cfg
  {
    send == w.Some? && (send ==> CarriesOnboarding(cfg, w.value))
  }

  method AbortOnboarding(hv: HvStatus, message: Message, rs: OnbReplies, cfg: StatusConfig, now: nat)
      returns (send: bool)
    requires Seeded(cfg, hv)
    modifies cfg`entries
    ensures Agrees(send, cfg, PlanAbort(hv, message, rs))
  {
    if hv.onboarding.None? {
      return false;
    }
    var status := hv.onboarding.value;
    if status.reason.Succeeded? {
      return false;
    }
    if status.status.False? && status.reason.Aborted? && status.message == message {
      return false;
    }
    if !rs.cleanupOk {
      Put(cfg, OnboardingType, Condition(True, Aborted, Detail(rs.text)), now);
      return true;
    }
    Put(cfg, OnboardingType, Condition(False, Aborted, message), now);
    return true;
  }

  method InitialOnboarding(hv: HvStatus, zone: string, rs: OnbReplies, cfg: StatusConfig, now: nat) returns (send: bool)
    requires Seeded(cfg, hv)
    modifies cfg`entries
    ensures Agrees(send, cfg, if TestAggregatesApplied(hv, zone) && rs.serviceOk
                              then OnbCondition(hv, Condition(True, Testing, Fixed)) else None)
  {
    if zone == "" {
      return false;
    }
    var applied := SlicesEqualUnordered(hv.aggregates, [zone, TEST_AGGREGATE]);
    if !applied {
      return false;
    }
    if !rs.serviceOk {
      return false;
    }
    Put(cfg, OnboardingType, Condition(True, Testing, Fixed), now);
    return true;
  }

  method CompleteOnboarding(hv: HvStatus, spec: Spec, rs: OnbReplies, cfg: StatusConfig, now: nat) returns (send: bool)
    requires Seeded(cfg, hv)
    modifies cfg`entries
    ensures Agrees(send, cfg, PlanComplete(hv, spec, rs))
  {
    if hv.onboarding.Some? && hv.onboarding.value.reason.Handover? {
      if !IsTrue(hv.aggregatesUpdated) {
        return false;
      }
      if !IsTrue(hv.traitsUpdated) {
        return false;
      }
      if spec.highAvailability && !IsTrue(hv.haEnabled) {
        return false;
      }
      Put(cfg, OnboardingType, Condition(False, Succeeded, Fixed), now);
      return true;
    }
    if !rs.cleanupOk {
      Put(cfg, OnboardingType, Condition(True, Aborted, Detail(rs.text)), now);
      return true;
    }
    Put(cfg, OnboardingType, Condition(True, Handover, Fixed), now);
    return true;
  }

  method SmokeTest(hv: HvStatus, spec: Spec, rs: OnbReplies, cfg: StatusConfig, now: nat) returns (send: bool)
    requires Seeded(cfg, hv)
    modifies cfg`entries
    ensures Agrees(send, cfg, PlanSmokeTest(hv, spec, rs))
  {
    match rs.smoke {
      case NoServer | Vanished | StillBooting | NotActive =>
        return false;
      case BuildError | NoConsole | TimedOut | CannotDelete =>
        Put(cfg, OnboardingType, Condition(True, Testing, Detail(rs.text)), now);
        return true;
      case Passed =>
        send := CompleteOnboarding(hv, spec, rs, cfg, now);
    }
  }

  /** One reconcile. The identifiers and the stored Onboarding condition seed the payload, so
      no update can prune them. */
  method ReconcileOnboarding(hv: HvStatus, stored: seq<Entry>, spec: Spec, zone: string, rs: OnbReplies, now: nat)
      returns (send: bool, cfg: StatusConfig)
    requires Represents(stored, hv) && View(stored, OnboardingType) == hv.onboarding
    ensures fresh(cfg) && Agrees(send, cfg, PlanOnboarding(hv, spec, zone, rs))
  {
    cfg := new StatusConfig();
    cfg.hypervisorId, cfg.serviceId := Some(hv.hypervisorId), Some(hv.serviceId);
    Keep(cfg, stored, hv, OnboardingType, now);
    if !spec.lifecycleEnabled {
      send := AbortOnboarding(hv, LifecycleDisabled, rs, cfg, now);
      return;
    }
    if spec.maintenance.Termination? {
      send := AbortOnboarding(hv, MaintenanceTermination, rs, cfg, now);
      return;
    }
    if hv.hypervisorId == "" || hv.serviceId == "" {
      if !rs.lookup.LookupIds? {
        return false, cfg;
      }
      cfg.hypervisorId, cfg.serviceId := Some(rs.lookup.hypervisorId), Some(rs.lookup.serviceId);
      Put(cfg, OnboardingType, Condition(True, Initial, Fixed), now);
      return true, cfg;
    }
    if hv.onboarding.None? {
      Put(cfg, OnboardingType, Condition(True, Initial, Fixed), now);
      return true, cfg;
    }
    match hv.onboarding.value.reason {
      case Initial =>
        send := InitialOnboarding(hv, zone, rs, cfg, now);
      case Testing =>
        if spec.skipTests {
          send := CompleteOnboarding(hv, spec, rs, cfg, now);
        } else {
          send := SmokeTest(hv, spec, rs, cfg, now);
        }
      case Handover =>
        send := CompleteOnboarding(hv, spec, rs, cfg, now);
      case _ =>
        send := false;
    }
  }

  // ------------------------------------------------- aggregates and traits

  /** One reconcile of the aggregates, which moves the host between Nova's aggregates. */
  method ReconcileAggregates(hv: HvStatus, spec: Spec, zone: string, host: string, listOk: bool,
                             nova: Aggregates.NovaClient)
      returns (write: Option<AggWrite>)
    requires nova.Valid() && nova.sent == []
    modifies nova`all, nova`sent
    ensures nova.Valid()
    ensures var p := PlanAggregates(hv, spec, zone, old(Aggregates.MemberOf(nova.all, host)),
                                    AggReplies(listOk, old(Aggregates.NamesOf(nova.all)), nova.replies));
            write == p.write && Aggregates.MemberOf(nova.all, host) == p.member && nova.sent == p.calls
  {
    if hv.hypervisorId == "" || hv.serviceId == "" {
      return None;
    }
    var d := DesiredState(hv, spec, zone);
    var changed := false;
    var same := SlicesEqualUnordered(d.aggregates, hv.aggregates);
    if !same {
      if !listOk {
        return Some(AggWrite(None, Condition(False, Failed, Fixed)));
      }
      var r := nova.ApplyAggregates(host, d.aggregates);
      if r.None? {
        return Some(AggWrite(None, Condition(False, Failed, Fixed)));
      }
      changed := true;
    }
    if !changed && hv.aggregatesUpdated == Some(d.condition) {
      return None;
    }
    return Some(AggWrite(if changed then Some(d.aggregates) else None, d.condition));
  }

  /** The traits are up for reconciliation, out of sync, and Placement holds something else. */
  predicate SendsTraits(hv: HvStatus, spec: Spec, rs: TraitReplies) {
    && TraitsManaged(hv, spec)
    && !SameElements(spec.customTraits, Traits.CustomTraitsOf(hv.traits))
    && rs.current.Some? && Traits.NeedsUpdate(rs.current.value, spec.customTraits)
  }

  /** When an update is sent: the custom traits of a managed host differ from those of the spec, and
      Placement lists a custom trait that is not wanted or lacks one that is. */
  lemma SendsExactly(hv: HvStatus, spec: Spec, rs: TraitReplies)
    ensures SendsTraits(hv, spec, rs)
            <==> && TraitsManaged(hv, spec)
                 && multiset(spec.customTraits) != multiset(Traits.CustomTraitsOf(hv.traits))
                 && rs.current.Some?
                 && (|| (exists t :: t in rs.current.value && Traits.IsCustom(t) && t !in spec.customTraits)
                     || (exists t :: t in spec.customTraits && t !in rs.current.value))
  {
    if rs.current.Some? {
      Traits.UpdateExactly(rs.current.value, spec.customTraits);
    }
  }

  /** One reconcile of the traits. `sent` is the update sent to Placement, if any. */
  method ReconcileTraits(hv: HvStatus, spec: Spec, rs: TraitReplies)
      returns (write: Option<TraitWrite>, sent: Option<seq<string>>)
    ensures write == PlanTraits(hv, spec, rs)
    ensures sent == if SendsTraits(hv, spec, rs) then Some(Traits.Target(rs.current.value, spec.customTraits)) else None
  {
    sent := None;
    if !spec.lifecycleEnabled {
      return None, None;
    }
    if hv.hypervisorId == "" {
      return None, None;
    }
    if spec.maintenance.Termination? {
      return None, None;
    }
    if hv.onboarding.None? {
      return None, None;
    }
    if IsTrue(hv.onboarding) && !hv.onboarding.value.reason.Handover? {
      return None, None;
    }
    var synced := SlicesEqualUnordered(spec.customTraits, Traits.CustomTraitsOf(hv.traits));
    if synced {
      if IsTrue(hv.traitsUpdated) {
        return None, None;
      }
      return Some(TraitWrite(hv.traits, Condition(True, Succeeded, Fixed))), None;
    }
    if rs.current.None? {
      return Some(TraitWrite(hv.traits, Condition(False, Failed, Fixed))), None;
    }
    var target, update := Traits.ComputeTarget(rs.current.value, spec.customTraits);
    if update {
      sent := Some(target);
      if !rs.updateOk {
        return Some(TraitWrite(hv.traits, Condition(False, Failed, Fixed))), sent;
      }
    }
    return Some(TraitWrite(target, Condition(True, Succeeded, Fixed))), sent;
  }

  // ----------------------------------------------------------- offboarding

  /** Nova's and Placement's answers to one offboarding reconcile. */
  datatype TeardownReplies = TeardownReplies(host: NovaHost, deleted: bool, providerOk: bool,
                                             providerKnown: bool, placement: Placement.Replies)

  /** The same answers as the protocol abstracts them. */
  function Summary(rs: TeardownReplies): OffReplies {
    OffReplies(rs.host, rs.deleted, rs.providerOk, !rs.providerKnown || Placement.Clean(rs.placement))
  }

  class OffboardingReconciler {
    const placement: Placement.PlacementClient
    var deletions: nat            // deletions of the compute service that were sent

    constructor (placement: Placement.PlacementClient)
      ensures this.placement == placement && deletions == 0
    {
      this.placement, deletions := placement, 0;
    }

    /** One reconcile. Placement is touched only after the service deletion went through, and
        the provider goes away only if none of its consumers holds an allocation. */
    method Reconcile(hv: HvStatus, spec: Spec, rs: TeardownReplies) returns (write: Option<Condition>)
      requires !placement.providerDeleted
      modifies `deletions, placement
      ensures write == PlanOffboarding(hv, spec, Summary(rs)).write
      ensures deletions == old(deletions) + if PlanOffboarding(hv, spec, Summary(rs)).deletes then 1 else 0
      ensures placement.providerDeleted ==> deletions > old(deletions) && rs.deleted && Placement.Clean(rs.placement)
      ensures IsTrue(write) ==>
                || rs.host.HostUnknown?
                || (rs.deleted && rs.providerOk && (rs.providerKnown ==> placement.providerDeleted))
      ensures deletions > old(deletions) ==>
                (IsTrue(write) <==> rs.deleted && rs.providerOk && (rs.providerKnown ==> Placement.Clean(rs.placement)))
      ensures deletions == old(deletions) ==> placement.cleared == old(placement.cleared)
    {
      if !spec.lifecycleEnabled || !spec.maintenance.Termination? {
        return None;
      }
      if hv.offboarded.None? {
        return Some(WAITING_OFFBOARD);
      }
      if hv.offboarded.value.status.True? {
        return None;
      }
      if IsTrue(hv.onboarding) {
        return None;
      }
      if hv.serviceId != "" && !IsFalse(hv.evicting) {
        return None;
      }
      if !IsTrue(hv.agentPods) {
        return Some(WAITING_OFFBOARD);
      }
      if rs.host.HostUnknown? {
        return Some(OFFBOARDED);
      }
      if rs.host.HostError? {
        return Some(WAITING_OFFBOARD);
      }
      if rs.host.runningVMs > 0 {
        return Some(WAITING_OFFBOARD);
      }
      if rs.host.servers > 0 {
        return Some(WAITING_OFFBOARD);
      }
      if |hv.aggregates| > 0 {
        return Some(WAITING_OFFBOARD);
      }
      deletions := deletions + 1;
      if !rs.deleted {
        return Some(WAITING_OFFBOARD);
      }
      if !rs.providerOk {
        return Some(WAITING_OFFBOARD);
      }
      var clean := placement.CleanupResourceProvider(rs.providerKnown, rs.placement);
      if !clean {
        return Some(WAITING_OFFBOARD);
      }
      return Some(OFFBOARDED);
    }
  }

  // ------------------------------------------------------------ agent pods

  /** `matches` is the verdict of the toleration on the offboarding taint. */
  datatype Toleration = Toleration(matches: bool, limited: bool)

  datatype Pod = Pod(name: string, ended: bool, tolerations: seq<Toleration>)

  /** One page of a listing, or its failure. */
  datatype Page = PageError | Page(pods: seq<Pod>)

  /** Some toleration without a time limit covers the taint. */
  predicate Tolerates(pod: Pod) {
    exists t :: t in pod.tolerations && !t.limited && t.matches
  }

  /** Still running and bound to be evicted by the taint. */
  predicate Blocks(pod: Pod) { !pod.ended && !Tolerates(pod) }

  method PodToleratesTaint(pod: Pod) returns (tolerates: bool)
    ensures tolerates <==> exists t :: t in pod.tolerations && !t.limited && t.matches
  {
    for i := 0 to |pod.tolerations|
      invariant forall t :: t in pod.tolerations[..i] ==> t.limited || !t.matches
    {
      var t := pod.tolerations[i];
      if t.limited {
        continue;
      }
      if t.matches {
        return true;
      }
    }
    return false;
  }

  predicate PageBlocks(page: Page) { page.Page? && exists p :: p in page.pods && Blocks(p) }

  /** A page holds something in the way exactly if a pod on it still runs and each of its tolerations
      is limited in time or does not match. */
  lemma BlocksExactly(page: Page)
    ensures PageBlocks(page)
            <==> && page.Page?
                 && exists p :: && p in page.pods && !p.ended
                                && forall t :: t in p.tolerations ==> t.limited || !t.matches
  {
    if page.Page? {
      forall p ensures Blocks(p) <==> !p.ended && forall t :: t in p.tolerations ==> t.limited || !t.matches {
      }
    }
  }

  /** The names on one page that block. */
  method BlockingOnPage(pods: seq<Pod>) returns (names: seq<string>)
    ensures names != [] <==> exists p :: p in pods && Blocks(p)
  {
    names := [];
    for j := 0 to |pods|
      invariant names != [] <==> exists p :: p in pods[..j] && Blocks(p)
    {
      TakeNext(pods, j);
      assert forall p :: p in pods[..j + 1] <==> p in pods[..j] || p == pods[j];
      if pods[j].ended {
        continue;
      }
      var tolerates := PodToleratesTaint(pods[j]);
      if tolerates {
        continue;
      }
      names := names + [pods[j].name];
      assert Blocks(pods[j]) && pods[j] in pods[..j + 1];
    }
    assert pods[..|pods|] == pods;
  }

  /** Lists every namespace page by page. No verdict when a listing fails; otherwise True
      exactly when no page of any namespace holds a blocking pod. */
  method ComputeAgentPods(namespaces: seq<seq<Page>>) returns (c: Option<Condition>)
    ensures c.None? <==> exists n :: n in namespaces && PageError in n
    ensures c.Some? ==> IsTrue(c) == (forall n :: n in namespaces ==> forall page :: page in n ==> !PageBlocks(page))
    ensures c.Some? ==> c.value == PodCondition(0) || c.value == PodCondition(1)
  {
    var names: seq<string> := [];
    for i := 0 to |namespaces|
      invariant forall n :: n in namespaces[..i] ==> PageError !in n
      invariant names == [] <==> forall n :: n in namespaces[..i] ==> forall page :: page in n ==> !PageBlocks(page)
    {
      var pages := namespaces[i];
      var found, failed := ListNamespace(pages);
      if failed {
        return None;
      }
      TakeNext(namespaces, i);
      assert forall n :: n in namespaces[..i + 1] <==> n in namespaces[..i] || n == pages;
      assert pages in namespaces[..i + 1];
      names := names + found;
    }
    assert namespaces[..|namespaces|] == namespaces;
    return Some(PodCondition(if |names| == 0 then 0 else 1));
  }

  method ListNamespace(pages: seq<Page>) returns (names: seq<string>, failed: bool)
    ensures failed <==> PageError in pages
    ensures !failed ==> (names == [] <==> forall page :: page in pages ==> !PageBlocks(page))
  {
    names := [];
    for i := 0 to |pages|
      invariant PageError !in pages[..i]
      invariant names == [] <==> forall page :: page in pages[..i] ==> !PageBlocks(page)
    {
      TakeNext(pages, i);
      assert forall page :: page in pages[..i + 1] <==> page in pages[..i] || page == pages[i];
      if pages[i].PageError? {
        assert pages[i] in pages;
        return names, true;
      }
      var more := BlockingOnPage(pages[i].pods);
      assert pages[i] in pages[..i + 1] && (more != [] <==> PageBlocks(pages[i]));
      assert names + more == [] <==> names == [] && more == [];
      names := names + more;
    }
    assert pages[..|pages|] == pages;
    return names, false;
  }

  // ------------------------------------------------------------------ node

  datatype Taint = Taint(key: string, noExecute: bool)

  const OFFBOARDING_TAINT := Taint("kvm.cloud.sap/offboarding", true)

  class NodeReconciler {
    var taints: seq<Taint>
    var budget: Option<nat>

    constructor (taints: seq<Taint>)
      ensures this.taints == taints && budget.None?
    {
      this.taints, budget := taints, None;
    }

    /** Adds the offboarding taint unless the node has it. */
    method EnsureOffboardingTaint(patchOk: bool) returns (patched: bool)
      modifies `taints
      ensures patched <==> OFFBOARDING_TAINT !in old(taints)
      ensures taints == if patched && patchOk then old(taints) + [OFFBOARDING_TAINT] else old(taints)
    {
      for i := 0 to |taints|
        invariant OFFBOARDING_TAINT !in taints[..i]
        invariant taints == old(taints)
      {
        var t := taints[i];
        if t.key == OFFBOARDING_TAINT.key && t.noExecute {
          assert t == OFFBOARDING_TAINT;
          return false;
        }
      }
      assert taints[..|taints|] == taints;
      if patchOk {
        taints := taints + [OFFBOARDING_TAINT];
      }
      return true;
    }

    /** One reconcile of the node, with the outcome of its one write. */
    method Reconcile(hv: HvStatus, spec: Spec, nodeTerminating: bool, writeOk: bool)
      modifies this
      ensures var w := PlanNode(hv, spec, OFFBOARDING_TAINT in old(taints), nodeTerminating);
              && (OFFBOARDING_TAINT in taints <==> OFFBOARDING_TAINT in old(taints) || (w == Some(AddTaint) && writeOk))
              && (forall t :: t in old(taints) ==> t in taints)
              && budget == if w.Some? && w.value.SetBudget? && writeOk then Some(w.value.minAvailable) else old(budget)
    {
      if !spec.lifecycleEnabled {
        return;
      }
      if spec.maintenance.Termination? && IsFalse(hv.evicting) {
        var patched := EnsureOffboardingTaint(writeOk);
        if patched {
          return;
        }
      }
      var minAvailable: nat := 1;
      if IsTrue(hv.offboarded) {
        minAvailable := 0;
        if IsFalse(hv.onboarding) && nodeTerminating {
          if !IsFalse(hv.haEnabled) {
            return;
          }
        }
      }
      if writeOk {
        budget := Some(minAvailable);
      }
    }
  }
}
