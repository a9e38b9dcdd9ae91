/**
 The Hypervisor object and what each controller decides from one reading of it.
 A decision is a function of what was read and of how the external services
 answered; its result is the status update the controller will send.
 */
module Hypervisors {
  import opened Basics
  import opened Slices
  import opened Conditions
  import Migrations
  import Evictions
  import Aggregates
  import Traits

  // ------------------------------------------------------------ the object

  datatype Mode = NoMaintenance | Manual | Auto | Ha | Termination

  datatype Spec = Spec(maintenance: Mode, lifecycleEnabled: bool, skipTests: bool, highAvailability: bool,
                       aggregates: seq<string>, customTraits: seq<string>)

  /** While terminating, the only accepted change moves on to `ha`. */
  predicate EditAllowed(before: Spec, after: Spec) {
    before.maintenance.Termination? ==> after.maintenance.Ha? || after == before
  }

  predicate Draining(m: Mode) { m.Manual? || m.Auto? || m.Termination? }

  datatype HvStatus = HvStatus(
    evicted: bool, numInstances: nat, hypervisorId: string, serviceId: string,
    traits: seq<string>, aggregates: seq<string>,
    disabled: Option<Condition>, evicting: Option<Condition>, settled: Option<Condition>,
    onboarding: Option<Condition>, offboarded: Option<Condition>,
    aggregatesUpdated: Option<Condition>, traitsUpdated: Option<Condition>,
    agentPods: Option<Condition>, haEnabled: Option<Condition>)

  predicate IsTrue(c: Option<Condition>) { c.Some? && c.value.status.True? }

  predicate IsFalse(c: Option<Condition>) { c.Some? && c.value.status.False? }

  predicate HasReason(c: Option<Condition>, r: Reason) { c.Some? && c.value.reason == r }

  predicate Registered(hv: HvStatus) { hv.hypervisorId != "" && hv.serviceId != "" }

  // ----------------------------------------------------------- maintenance

  /** How Nova and the API server answer during one maintenance reconcile. */
  datatype MaintReplies = MaintReplies(serviceOk: bool, migrations: Migrations.NovaMigrations,
                                       deleteOk: bool, applyOk: bool, getOk: bool)

  /** All fields the maintenance controller owns; an absent condition is pruned. */
  datatype MaintWrite = MaintWrite(evicted: bool, disabled: Option<Condition>, evicting: Option<Condition>,
                                   settled: Option<Condition>)

  datatype ServicePlan = ServicePlan(ok: bool, disabled: Option<Condition>)

  function PlanService(hv: HvStatus, mode: Mode, serviceOk: bool): ServicePlan {
    if hv.serviceId == "" || mode.Ha? then ServicePlan(true, hv.disabled)
    else
      var wanted := if mode.NoMaintenance? then False else True;
      var asWanted := hv.disabled.Some? && hv.disabled.value.status == wanted;
      if asWanted || serviceOk then ServicePlan(true, Some(Condition(wanted, Succeeded, Fixed)))
      else ServicePlan(false, Some(Condition(Unknown, Failed, Fixed)))
  }

  const EVICTING := Condition(True, Running, Fixed)
  const EVICTED := Condition(False, Succeeded, Fixed)
  const SETTLED := Condition(True, Settled, Fixed)

  datatype DrainPlan = DrainPlan(evicted: bool, evicting: Option<Condition>, settled: Option<Condition>,
                                 eviction: Option<Evictions.EvictionStatus>)

  predicate ReportsEvicted(hv: HvStatus) { IsFalse(hv.evicting) && HasReason(hv.evicting, Succeeded) }

  predicate ReportsSettled(hv: HvStatus) { IsTrue(hv.settled) && HasReason(hv.settled, Settled) }

  /** The condition a settle attempt leads to; only the last one lets the drain proceed. */
  function SettledCondition(s: Migrations.Settlement): Condition {
    if s.SettleError? then Condition(Unknown, Failed, Fixed)
    else if s.waiting != [] then Condition(False, Waiting, Fixed)
    else if s.aborted != [] then Condition(False, Aborting, Fixed)
    else SETTLED
  }

  function PlanDrain(hv: HvStatus, mode: Mode, eviction: Option<Evictions.EvictionStatus>, host: string,
                     rs: MaintReplies): DrainPlan {
    if mode.Ha? then DrainPlan(hv.evicted, None, None, eviction)
    else if mode.NoMaintenance? then
      if !hv.evicted && hv.evicting.None? && hv.settled.None? then DrainPlan(hv.evicted, None, None, eviction)
      else if !rs.deleteOk then DrainPlan(hv.evicted, None, None, eviction)
      else DrainPlan(false, None, None, None)
    else if ReportsEvicted(hv) && hv.numInstances > 0 then
      if !rs.deleteOk then DrainPlan(hv.evicted, None, None, eviction)
      else DrainPlan(false, Some(EVICTING), hv.settled, None)
    else if ReportsEvicted(hv) && hv.evicted && ReportsSettled(hv) then
      DrainPlan(hv.evicted, hv.evicting, hv.settled, eviction)
    else PlanSettle(hv, eviction, host, rs)
  }

  /** Incoming migrations are settled before the Eviction is looked at. */
  function PlanSettle(hv: HvStatus, eviction: Option<Evictions.EvictionStatus>, host: string,
                      rs: MaintReplies): DrainPlan {
    var s := Migrations.Settle(rs.migrations, host);
    if !Migrations.IsSettled(s) then DrainPlan(false, hv.evicting, Some(SettledCondition(s)), eviction)
    else if HasReason(hv.evicting, Succeeded) then DrainPlan(hv.evicted, hv.evicting, Some(SETTLED), eviction)
    else PlanEviction(hv, eviction, rs)
  }

  /** The host is settled: make sure there is an Eviction and mirror its progress. */
  function PlanEviction(hv: HvStatus, eviction: Option<Evictions.EvictionStatus>, rs: MaintReplies): DrainPlan {
    if !rs.applyOk then DrainPlan(hv.evicted, None, Some(SETTLED), eviction)
    else
      var ev := if eviction.Some? then eviction.value else Evictions.BLANK;
      if !rs.getOk then DrainPlan(hv.evicted, None, Some(SETTLED), Some(ev))
      else if !ev.progress.Finished? then DrainPlan(false, Some(EVICTING), Some(SETTLED), Some(ev))
      else if hv.numInstances == 0 then DrainPlan(true, Some(EVICTED), Some(SETTLED), Some(ev))
      else if !rs.deleteOk then DrainPlan(hv.evicted, None, Some(SETTLED), Some(ev))
      else DrainPlan(false, Some(EVICTING), Some(SETTLED), None)
  }

  datatype MaintPlan = MaintPlan(write: Option<MaintWrite>, eviction: Option<Evictions.EvictionStatus>)

  function PlanMaintenance(hv: HvStatus, spec: Spec, eviction: Option<Evictions.EvictionStatus>, host: string,
                           rs: MaintReplies): MaintPlan {
    if IsTrue(hv.onboarding) then MaintPlan(None, eviction)
    else
      var sv := PlanService(hv, spec.maintenance, rs.serviceOk);
      if !sv.ok then MaintPlan(Some(MaintWrite(hv.evicted, sv.disabled, hv.evicting, hv.settled)), eviction)
      else
        var d := PlanDrain(hv, spec.maintenance, eviction, host, rs);
        MaintPlan(Some(MaintWrite(d.evicted, sv.disabled, d.evicting, d.settled)), d.eviction)
  }

  // ------------------------------------------------------------ onboarding

  const TEST_AGGREGATE := "tenant_filter_tests"

  datatype LookupReply = LookupRetry | LookupError | LookupIds(hypervisorId: string, serviceId: string)

  /** How the smoke test of one reconcile ends. */
  datatype Smoke =
    | NoServer | Vanished | BuildError | NoConsole | StillBooting | TimedOut | CannotDelete | NotActive | Passed

  datatype OnbReplies = OnbReplies(lookup: LookupReply, cleanupOk: bool, serviceOk: bool, smoke: Smoke, text: string)

  datatype OnbWrite = OnbWrite(hypervisorId: string, serviceId: string, onboarding: Option<Condition>)

  function OnbCondition(hv: HvStatus, c: Condition): Option<OnbWrite> {
    Some(OnbWrite(hv.hypervisorId, hv.serviceId, Some(c)))
  }

  function PlanAbort(hv: HvStatus, message: Message, rs: OnbReplies): Option<OnbWrite> {
    if hv.onboarding.None? || HasReason(hv.onboarding, Succeeded) then None
    else if hv.onboarding == Some(Condition(False, Aborted, message)) then None
    else if !rs.cleanupOk then OnbCondition(hv, Condition(True, Aborted, Detail(rs.text)))
    else OnbCondition(hv, Condition(False, Aborted, message))
  }

  /** The aggregates controller has put the host into exactly the zone and the test aggregate. */
  predicate TestAggregatesApplied(hv: HvStatus, zone: string) {
    zone != "" && SameElements(hv.aggregates, [zone, TEST_AGGREGATE])
  }

  function PlanComplete(hv: HvStatus, spec: Spec, rs: OnbReplies): Option<OnbWrite> {
    if HasReason(hv.onboarding, Handover) then
      if ReadyToSucceed(hv, spec) then OnbCondition(hv, Condition(False, Succeeded, Fixed)) else None
    else if !rs.cleanupOk then OnbCondition(hv, Condition(True, Aborted, Detail(rs.text)))
    else OnbCondition(hv, Condition(True, Handover, Fixed))
  }

  predicate ReadyToSucceed(hv: HvStatus, spec: Spec) {
    && IsTrue(hv.aggregatesUpdated)
    && IsTrue(hv.traitsUpdated)
    && (spec.highAvailability ==> IsTrue(hv.haEnabled))
  }

  function PlanSmokeTest(hv: HvStatus, spec: Spec, rs: OnbReplies): Option<OnbWrite> {
    match rs.smoke
    case BuildError | NoConsole | TimedOut | CannotDelete => OnbCondition(hv, Condition(True, Testing, Detail(rs.text)))
    case Passed => PlanComplete(hv, spec, rs)
    case _ => None
  }

  function PlanOnboarding(hv: HvStatus, spec: Spec, zone: string, rs: OnbReplies): Option<OnbWrite> {
    if !spec.lifecycleEnabled then PlanAbort(hv, LifecycleDisabled, rs)
    else if spec.maintenance.Termination? then PlanAbort(hv, MaintenanceTermination, rs)
    else if !Registered(hv) then
      match rs.lookup
      case LookupIds(h, s) => Some(OnbWrite(h, s, Some(Condition(True, Initial, Fixed))))
      case _ => None
    else if hv.onboarding.None? then OnbCondition(hv, Condition(True, Initial, Fixed))
    else
      match hv.onboarding.value.reason
      case Initial =>
        if !TestAggregatesApplied(hv, zone) || !rs.serviceOk then None
        else OnbCondition(hv, Condition(True, Testing, Fixed))
      case Testing => if spec.skipTests then PlanComplete(hv, spec, rs) else PlanSmokeTest(hv, spec, rs)
      case Handover => PlanComplete(hv, spec, rs)
      case _ => None
  }

  // ------------------------------------------------------------ aggregates

  datatype AggReplies = AggReplies(listOk: bool, names: seq<string>, calls: seq<Aggregates.CallReply>)

  datatype AggWrite = AggWrite(aggregates: Option<seq<string>>, condition: Condition)

  datatype AggPlan = AggPlan(write: Option<AggWrite>, member: set<string>, calls: seq<Aggregates.Call>)

  datatype Desired = Desired(aggregates: seq<string>, condition: Condition)

  function DesiredState(hv: HvStatus, spec: Spec, zone: string): Desired {
    if spec.maintenance.Termination? then
      if IsFalse(hv.evicting) then Desired([], Condition(False, Terminating, Fixed))
      else Desired(hv.aggregates, Condition(False, EvictionInProgress, Fixed))
    else if IsTrue(hv.onboarding) && (hv.onboarding.value.reason.Initial? || hv.onboarding.value.reason.Testing?) then
      Desired([zone, TEST_AGGREGATE], Condition(False, TestAggregates, Fixed))
    else if IsTrue(hv.onboarding) && hv.onboarding.value.reason.Handover? && !IsTrue(hv.traitsUpdated) then
      Desired([zone, TEST_AGGREGATE], Condition(False, WaitingForTraits, Fixed))
    else Desired(spec.aggregates, Condition(True, Succeeded, Fixed))
  }

  function PlanAggregates(hv: HvStatus, spec: Spec, zone: string, member: set<string>, rs: AggReplies): AggPlan {
    if !Registered(hv) then AggPlan(None, member, [])
    else
      var d := DesiredState(hv, spec, zone);
      if SameElements(d.aggregates, hv.aggregates) then
        if hv.aggregatesUpdated == Some(d.condition) then AggPlan(None, member, [])
        else AggPlan(Some(AggWrite(None, d.condition)), member, [])
      else if !rs.listOk then AggPlan(Some(AggWrite(None, Condition(False, Failed, Fixed))), member, [])
      else
        var r := Aggregates.Apply(rs.names, member, d.aggregates, rs.calls);
        var calls := Aggregates.PlannedCalls(rs.names, member, d.aggregates);
        if r.ok then AggPlan(Some(AggWrite(Some(d.aggregates), d.condition)), r.member, calls)
        else AggPlan(Some(AggWrite(None, Condition(False, Failed, Fixed))), r.member, calls)
  }

  // ---------------------------------------------------------------- traits

  datatype TraitReplies = TraitReplies(current: Option<seq<string>>, updateOk: bool)

  datatype TraitWrite = TraitWrite(traits: seq<string>, condition: Condition)

  /** The host is one whose traits are managed: handed over or past onboarding. */
  predicate TraitsManaged(hv: HvStatus, spec: Spec) {
    && spec.lifecycleEnabled && hv.hypervisorId != "" && !spec.maintenance.Termination?
    && hv.onboarding.Some? && (IsTrue(hv.onboarding) ==> HasReason(hv.onboarding, Handover))
  }

  function PlanTraits(hv: HvStatus, spec: Spec, rs: TraitReplies): Option<TraitWrite> {
    var applied := Condition(True, Succeeded, Fixed);
    var failed := Condition(False, Failed, Fixed);
    if !TraitsManaged(hv, spec) then None
    else if SameElements(spec.customTraits, Traits.CustomTraitsOf(hv.traits)) then
      if IsTrue(hv.traitsUpdated) then None else Some(TraitWrite(hv.traits, applied))
    else if rs.current.None? then Some(TraitWrite(hv.traits, failed))
    else if Traits.NeedsUpdate(rs.current.value, spec.customTraits) && !rs.updateOk then
      Some(TraitWrite(hv.traits, failed))
    else Some(TraitWrite(Traits.Target(rs.current.value, spec.customTraits), applied))
  }

  // ----------------------------------------------------------- offboarding

  datatype NovaHost = HostUnknown | HostError | HostIs(runningVMs: nat, servers: nat)

  /** `deleted`: the service deletion was accepted or answered "not found". */
  datatype OffReplies = OffReplies(host: NovaHost, deleted: bool, providerOk: bool, cleanupOk: bool)

  /** The Offboarded condition to record, and whether a service deletion was sent. */
  datatype OffPlan = OffPlan(write: Option<Condition>, deletes: bool)

  const WAITING_OFFBOARD := Condition(False, Offboarding, Fixed)
  const OFFBOARDED := Condition(True, OffboardingDone, Fixed)

  function PlanOffboarding(hv: HvStatus, spec: Spec, rs: OffReplies): OffPlan {
    if !spec.lifecycleEnabled || !spec.maintenance.Termination? then OffPlan(None, false)
    else if hv.offboarded.None? then OffPlan(Some(WAITING_OFFBOARD), false)
    else if IsTrue(hv.offboarded) || IsTrue(hv.onboarding) then OffPlan(None, false)
    else if hv.serviceId != "" && !IsFalse(hv.evicting) then OffPlan(None, false)
    else if !IsTrue(hv.agentPods) then OffPlan(Some(WAITING_OFFBOARD), false)
    else
      match rs.host
      case HostUnknown => OffPlan(Some(OFFBOARDED), false)
      case HostError => OffPlan(Some(WAITING_OFFBOARD), false)
      case HostIs(runningVMs, servers) =>
        if runningVMs > 0 || servers > 0 || hv.aggregates != [] then OffPlan(Some(WAITING_OFFBOARD), false)
        else if rs.deleted && rs.providerOk && rs.cleanupOk then OffPlan(Some(OFFBOARDED), true)
        else OffPlan(Some(WAITING_OFFBOARD), true)
  }

  // ------------------------------------------------------ agent pods, budget

  /** `blocking`: how many running pods do not tolerate the offboarding taint. */
  datatype PodReplies = PodReplies(syncOk: bool, blocking: Option<nat>)

  function PodCondition(blocking: nat): Condition {
    if blocking == 0 then Condition(True, NoAgentPods, Fixed) else Condition(False, AgentPodsRunning, Fixed)
  }

  function PlanPods(hv: HvStatus, spec: Spec, taint: bool, rs: PodReplies): Option<Condition> {
    if !rs.syncOk || !spec.maintenance.Termination? || !IsFalse(hv.evicting) || !taint || rs.blocking.None? then None
    else if hv.agentPods == Some(PodCondition(rs.blocking.value)) then None
    else Some(PodCondition(rs.blocking.value))
  }

  datatype NodeWrite = AddTaint | SetBudget(minAvailable: nat)

  function PlanNode(hv: HvStatus, spec: Spec, taint: bool, nodeTerminating: bool): Option<NodeWrite> {
    if !spec.lifecycleEnabled then None
    else if spec.maintenance.Termination? && IsFalse(hv.evicting) && !taint then Some(AddTaint)
    else if !IsTrue(hv.offboarded) then Some(SetBudget(1))
    else if IsFalse(hv.onboarding) && nodeTerminating && !IsFalse(hv.haEnabled) then None
    else Some(SetBudget(0))
  }
}
