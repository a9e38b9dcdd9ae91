/**
 All controllers of one host running side by side. Every reconcile takes two
 steps that other steps may come between: a reading of the shared state, during
 which the external calls are made and the update is worked out, and the commit
 of that update to whatever the state has become (or its loss). A controller has
 at most one reconcile of the host under way. The remaining steps belong to the
 environment.
 */
module Protocol {
  import opened Basics
  import opened Conditions
  import opened Hypervisors
  import Aggregates
  import Concurrency
  import Drain
  import Evictions

  /** Updates that have been worked out but not yet committed. */
  datatype Pending = Pending(
    maint: Option<MaintWrite>, onb: Option<OnbWrite>, agg: Option<AggWrite>, traits: Option<TraitWrite>,
    off: Option<Condition>, pods: Option<Condition>, node: Option<NodeWrite>,
    eviction: Option<Evictions.EvictionStatus>)

  /** A membership call together with how Nova will answer it. */
  datatype PlannedCall = PlannedCall(call: Aggregates.Call, reply: Aggregates.CallReply)

  datatype World = World(
    host: string, spec: Spec, zone: string, hv: HvStatus,
    eviction: Option<Evictions.EvictionStatus>,
    taint: bool, nodeTerminating: bool, budget: Option<nat>,
    member: set<string>,              // aggregates Nova has the host in
    calls: seq<PlannedCall>,          // membership calls the aggregates reconcile under way has yet to send
    serviceDeleted: bool,             // a deletion of the compute service has been sent
    pending: Pending)

  datatype Action =
    // environment
    | EditSpec(spec: Spec)
    | Relabel(zone: string)
    | CountInstances(n: nat)
    | SetHa(ha: Option<Condition>)
    | SetNodeTerminating(terminating: bool)
    | RemoveTaint
    | MoveMember(member: set<string>)
    // controllers
    | ReadMaintenance(maint: MaintReplies) | CommitMaintenance(ok: bool)
    | ReadOnboarding(onb: OnbReplies) | CommitOnboarding(ok: bool)
    | ReadAggregates(agg: AggReplies) | SendCall | CommitAggregates(ok: bool)
    | ReadTraits(traits: TraitReplies) | CommitTraits(ok: bool)
    | ReadOffboarding(off: OffReplies) | CommitOffboarding(ok: bool)
    | ReadPods(pods: PodReplies) | CommitPods(ok: bool)
    | ReadNode | CommitNode(ok: bool)
    | ReadEviction(reply: Evictions.HostReply, nova: Drain.Nova, config: Concurrency.Config) | CommitEviction(ok: bool)

  // -------------------------------------------------------------- commits

  /** Server-side apply: own fields only, absent conditions are pruned. */
  function ApplyMaint(hv: HvStatus, w: MaintWrite): HvStatus {
    hv.(evicted := w.evicted, disabled := w.disabled, evicting := w.evicting, settled := w.settled)
  }

  function ApplyOnb(hv: HvStatus, w: OnbWrite): HvStatus {
    hv.(hypervisorId := w.hypervisorId, serviceId := w.serviceId, onboarding := w.onboarding)
  }

  function ApplyAgg(hv: HvStatus, w: AggWrite): HvStatus {
    hv.(aggregates := if w.aggregates.Some? then w.aggregates.value else hv.aggregates,
        aggregatesUpdated := Some(w.condition))
  }

  function ApplyTraits(hv: HvStatus, w: TraitWrite): HvStatus {
    hv.(traits := w.traits, traitsUpdated := Some(w.condition))
  }

  /** The Eviction is found by name, so the update lands on whatever object bears it now:
      conditions it carries replace those of the object, the queue always does. */
  function ApplyEviction(found: Evictions.EvictionStatus, w: Evictions.EvictionStatus): Evictions.EvictionStatus {
    Evictions.EvictionStatus(
      if w.progress.New? then found.progress else w.progress,
      if w.preflight.NotChecked? then found.preflight else w.preflight,
      if w.verdict.Unset? then found.verdict else w.verdict,
      w.queue)
  }

  // ---------------------------------------------------------------- steps

  function Observe(w: World, a: Action): Evictions.Observation
    requires a.ReadEviction?
  {
    Evictions.Observation(Registered(w.hv), IsTrue(w.hv.disabled), a.reply, a.nova,
                          Concurrency.Resolved(a.config, w.hv.traits))
  }

  function EditTo(w: World, spec: Spec): World {
    if EditAllowed(w.spec, spec) then w.(spec := spec) else w
  }

  function ReadMaint(w: World, rs: MaintReplies): World {
    if w.pending.maint.Some? then w
    else
      var p := PlanMaintenance(w.hv, w.spec, w.eviction, w.host, rs);
      w.(eviction := p.eviction, pending := w.pending.(maint := p.write))
  }

  function CommitMaint(w: World, ok: bool): World {
    if w.pending.maint.None? then w
    else w.(hv := if ok then ApplyMaint(w.hv, w.pending.maint.value) else w.hv, pending := w.pending.(maint := None))
  }

  function ReadOnb(w: World, rs: OnbReplies): World {
    if w.pending.onb.Some? then w
    else w.(pending := w.pending.(onb := PlanOnboarding(w.hv, w.spec, w.zone, rs)))
  }

  function CommitOnb(w: World, ok: bool): World {
    if w.pending.onb.None? then w
    else w.(hv := if ok then ApplyOnb(w.hv, w.pending.onb.value) else w.hv, pending := w.pending.(onb := None))
  }

  function Outcomes(calls: seq<Aggregates.Call>, replies: seq<Aggregates.CallReply>): seq<PlannedCall> {
    seq(|calls|, i requires 0 <= i < |calls| => PlannedCall(calls[i], Aggregates.ReplyAt(replies, i)))
  }

  /** Lists the aggregates and works out the calls; they are sent one by one. */
  function ReadAgg(w: World, rs: AggReplies): World {
    if w.pending.agg.Some? then w
    else
      var p := PlanAggregates(w.hv, w.spec, w.zone, w.member, rs);
      w.(calls := Outcomes(p.calls, rs.calls), pending := w.pending.(agg := p.write))
  }

  function SendNext(w: World): World {
    if w.calls == [] then w
    else w.(member := Aggregates.Effect(w.member, w.calls[0].call, w.calls[0].reply), calls := w.calls[1..])
  }

  /** The status is updated after the last call. A reconcile may be lost at any point before. */
  function CommitAgg(w: World, ok: bool): World {
    if w.pending.agg.None? || (ok && w.calls != []) then w
    else w.(hv := if ok then ApplyAgg(w.hv, w.pending.agg.value) else w.hv, calls := [],
            pending := w.pending.(agg := None))
  }

  function ReadTrait(w: World, rs: TraitReplies): World {
    if w.pending.traits.Some? then w
    else w.(pending := w.pending.(traits := PlanTraits(w.hv, w.spec, rs)))
  }

  function CommitTrait(w: World, ok: bool): World {
    if w.pending.traits.None? then w
    else w.(hv := if ok then ApplyTraits(w.hv, w.pending.traits.value) else w.hv, pending := w.pending.(traits := None))
  }

  function ReadOff(w: World, rs: OffReplies): World {
    if w.pending.off.Some? then w
    else
      var p := PlanOffboarding(w.hv, w.spec, rs);
      w.(serviceDeleted := w.serviceDeleted || p.deletes, pending := w.pending.(off := p.write))
  }

  function CommitOff(w: World, ok: bool): World {
    if w.pending.off.None? then w
    else w.(hv := if ok then w.hv.(offboarded := w.pending.off) else w.hv, pending := w.pending.(off := None))
  }

  function ReadPod(w: World, rs: PodReplies): World {
    if w.pending.pods.Some? then w
    else w.(pending := w.pending.(pods := PlanPods(w.hv, w.spec, w.taint, rs)))
  }

  function CommitPod(w: World, ok: bool): World {
    if w.pending.pods.None? then w
    else w.(hv := if ok then w.hv.(agentPods := w.pending.pods) else w.hv, pending := w.pending.(pods := None))
  }

  function ReadNodeState(w: World): World {
    if w.pending.node.Some? then w
    else w.(pending := w.pending.(node := PlanNode(w.hv, w.spec, w.taint, w.nodeTerminating)))
  }

  function CommitNodeState(w: World, ok: bool): World {
    var idle := w.pending.(node := None);
    if w.pending.node.None? then w
    else if !ok then w.(pending := idle)
    else match w.pending.node.value
         case AddTaint => w.(taint := true, pending := idle)
         case SetBudget(n) => w.(budget := Some(n), pending := idle)
  }

  function ReadEvict(w: World, a: Action): World
    requires a.ReadEviction?
  {
    if w.pending.eviction.Some? || w.eviction.None? then w
    else w.(pending := w.pending.(eviction := Evictions.Reconcile(w.eviction.value, w.host, Observe(w, a)).write))
  }

  function CommitEvict(w: World, ok: bool): World {
    var idle := w.pending.(eviction := None);
    if w.pending.eviction.None? then w
    else if !ok || w.eviction.None? then w.(pending := idle)
    else w.(eviction := Some(ApplyEviction(w.eviction.value, w.pending.eviction.value)), pending := idle)
  }

  function Next(w: World, a: Action): World {
    match a
    case EditSpec(spec) => EditTo(w, spec)
    case Relabel(zone) => w.(zone := zone)
    case CountInstances(n) => w.(hv := w.hv.(numInstances := n))
    case SetHa(ha) => w.(hv := w.hv.(haEnabled := ha))
    case SetNodeTerminating(terminating) => w.(nodeTerminating := terminating)
    case RemoveTaint => w.(taint := false)
    case MoveMember(member) => w.(member := member)
    case ReadMaintenance(rs) => ReadMaint(w, rs)
    case CommitMaintenance(ok) => CommitMaint(w, ok)
    case ReadOnboarding(rs) => ReadOnb(w, rs)
    case CommitOnboarding(ok) => CommitOnb(w, ok)
    case ReadAggregates(rs) => ReadAgg(w, rs)
    case SendCall => SendNext(w)
    case CommitAggregates(ok) => CommitAgg(w, ok)
    case ReadTraits(rs) => ReadTrait(w, rs)
    case CommitTraits(ok) => CommitTrait(w, ok)
    case ReadOffboarding(rs) => ReadOff(w, rs)
    case CommitOffboarding(ok) => CommitOff(w, ok)
    case ReadPods(rs) => ReadPod(w, rs)
    case CommitPods(ok) => CommitPod(w, ok)
    case ReadNode => ReadNodeState(w)
    case CommitNode(ok) => CommitNodeState(w, ok)
    case ReadEviction(_, _, _) => ReadEvict(w, a)
    case CommitEviction(ok) => CommitEvict(w, ok)
  }

  // ---------------------------------------------- who may change what

  lemma MaintenanceOwnsStatus(w: World, a: Action)
    ensures !a.CommitMaintenance? ==>
              var hv := Next(w, a).hv;
              hv.evicted == w.hv.evicted && hv.evicting == w.hv.evicting && hv.settled == w.hv.settled
  {
  }

  lemma MaintenanceOwnsPending(w: World, a: Action)
    ensures !a.CommitMaintenance? && !a.ReadMaintenance? ==> Next(w, a).pending.maint == w.pending.maint
  {
  }

  lemma MaintenanceOwns(w: World, a: Action)
    ensures !a.CommitMaintenance? ==>
              var hv := Next(w, a).hv;
              hv.evicted == w.hv.evicted && hv.evicting == w.hv.evicting && hv.settled == w.hv.settled
    ensures !a.CommitMaintenance? && !a.ReadMaintenance? ==> Next(w, a).pending.maint == w.pending.maint
  {
    MaintenanceOwnsStatus(w, a);
    MaintenanceOwnsPending(w, a);
  }

  lemma OnboardingOwnsStatus(w: World, a: Action)
    ensures !a.CommitOnboarding? ==>
              var hv := Next(w, a).hv;
              hv.onboarding == w.hv.onboarding && hv.hypervisorId == w.hv.hypervisorId && hv.serviceId == w.hv.serviceId
  {
  }

  lemma OnboardingOwnsPending(w: World, a: Action)
    ensures !a.CommitOnboarding? && !a.ReadOnboarding? ==> Next(w, a).pending.onb == w.pending.onb
  {
  }

  lemma OnboardingOwns(w: World, a: Action)
    ensures !a.CommitOnboarding? ==>
              var hv := Next(w, a).hv;
              hv.onboarding == w.hv.onboarding && hv.hypervisorId == w.hv.hypervisorId && hv.serviceId == w.hv.serviceId
    ensures !a.CommitOnboarding? && !a.ReadOnboarding? ==> Next(w, a).pending.onb == w.pending.onb
  {
    OnboardingOwnsStatus(w, a);
    OnboardingOwnsPending(w, a);
  }

  lemma AggregatesOwns(w: World, a: Action)
    ensures !a.CommitAggregates? ==> Next(w, a).hv.aggregatesUpdated == w.hv.aggregatesUpdated
  {
  }

  lemma AggregatesOwnsPending(w: World, a: Action)
    ensures !a.CommitAggregates? && !a.ReadAggregates? ==> Next(w, a).pending.agg == w.pending.agg
  {
  }

  lemma TraitsOwns(w: World, a: Action)
    ensures !a.CommitTraits? ==> Next(w, a).hv.traitsUpdated == w.hv.traitsUpdated
  {
  }

  lemma TraitsOwnsPending(w: World, a: Action)
    ensures !a.CommitTraits? && !a.ReadTraits? ==> Next(w, a).pending.traits == w.pending.traits
  {
  }

  lemma OffboardingOwns(w: World, a: Action)
    ensures !a.CommitOffboarding? ==> Next(w, a).hv.offboarded == w.hv.offboarded
  {
  }

  lemma PodsOwns(w: World, a: Action)
    ensures !a.CommitPods? ==> Next(w, a).hv.agentPods == w.hv.agentPods
  {
  }

  lemma NodeOwns(w: World, a: Action)
    ensures !a.CommitNode? ==> Next(w, a).budget == w.budget
    ensures !a.CommitNode? && !a.ReadNode? ==> Next(w, a).pending.node == w.pending.node
  {
  }

  // ----------------------------------------------------------------- runs

  const IDLE := Pending(None, None, None, None, None, None, None, None)

  /** A host no controller has touched yet. Spec, labels, instances and HaEnabled are arbitrary. */
  predicate Fresh(w: World) {
    && w.hv == HvStatus(false, w.hv.numInstances, "", "", [], [], None, None, None, None, None, None, None, None,
                        w.hv.haEnabled)
    && w.eviction.None? && !w.taint && w.budget.None? && !w.serviceDeleted && w.calls == [] && w.pending == IDLE
  }

  ghost predicate IsRun(ws: seq<World>, acts: seq<Action>) {
    && |ws| == |acts| + 1
    && Fresh(ws[0])
    && forall i :: 0 <= i < |acts| ==> ws[i + 1] == Next(ws[i], acts[i])
  }
}
