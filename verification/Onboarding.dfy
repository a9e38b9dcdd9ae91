/** The phases of onboarding and the handover to the other controllers. */
module Onboarding {
  import opened Basics
  import opened Conditions
  import opened Hypervisors
  import opened Protocol
  import Aggregates
  import Traits

  datatype Phase = NotStarted | InInitial | InTesting | InHandover | HasSucceeded | HasAborted | OutOfPlace

  /** The phase a recorded Onboarding condition stands for. */
  function PhaseOf(c: Option<Condition>): Phase {
    if c.None? then NotStarted
    else
      match (c.value.reason, c.value.status)
      case (Initial, True) => InInitial
      case (Testing, True) => InTesting
      case (Handover, True) => InHandover
      case (Succeeded, False) => HasSucceeded
      case (Aborted, True) => HasAborted
      case (Aborted, False) => HasAborted
      case _ => OutOfPlace
  }

  function Rank(p: Phase): nat {
    match p
    case NotStarted => 0
    case InInitial => 1
    case InTesting => 2
    case InHandover => 3
    case HasSucceeded => 4
    case _ => 5
  }

  /** Onwards through the phases, or into Aborted from any of them but Succeeded. */
  predicate Forward(p: Phase, q: Phase) {
    p == q || (q.HasAborted? && !p.HasSucceeded? && !p.OutOfPlace?) || Rank(p) < Rank(q) <= 4
  }

  function PhaseAt(w: World): Phase { PhaseOf(w.hv.onboarding) }

  /** A single decision moves forward exactly when it is not the lookup of missing identifiers
      on a host that is already past the first phase. */
  lemma ForwardExactly(hv: HvStatus, spec: Spec, zone: string, rs: OnbReplies)
    requires !PhaseOf(hv.onboarding).OutOfPlace?
    requires PlanOnboarding(hv, spec, zone, rs).Some?
    ensures Forward(PhaseOf(hv.onboarding), PhaseOf(PlanOnboarding(hv, spec, zone, rs).value.onboarding))
            <==> !(&& spec.lifecycleEnabled && !spec.maintenance.Termination? && !Registered(hv)
                   && PhaseOf(hv.onboarding) !in {NotStarted, InInitial})
  {
  }

  // ------------------------------------------------------------- invariant

  /** Nova never reports an empty identifier. */
  ghost predicate NovaIdsGiven(acts: seq<Action>) {
    forall i :: 0 <= i < |acts| ==> IdsGiven(acts[i])
  }

  predicate IdsGiven(a: Action) {
    a.ReadOnboarding? && a.onb.lookup.LookupIds? ==> a.onb.lookup.hypervisorId != "" && a.onb.lookup.serviceId != ""
  }

  /** The recorded phase is a real one, and it is recorded together with the identifiers. */
  predicate WellFormed(hv: HvStatus) {
    && !PhaseOf(hv.onboarding).OutOfPlace?
    && if hv.onboarding.None? then hv.hypervisorId == "" && hv.serviceId == "" else Registered(hv)
  }

  /** An update that keeps identifiers and moves the phase forward. */
  predicate Advances(hv: HvStatus, p: OnbWrite) {
    && p.onboarding.Some? && p.hypervisorId != "" && p.serviceId != ""
    && (Registered(hv) ==> p.hypervisorId == hv.hypervisorId && p.serviceId == hv.serviceId)
    && !PhaseOf(p.onboarding).OutOfPlace?
    && Forward(PhaseOf(hv.onboarding), PhaseOf(p.onboarding))
  }

  predicate OnbInvariant(w: World) {
    WellFormed(w.hv) && (w.pending.onb.Some? ==> Advances(w.hv, w.pending.onb.value))
  }

  /** Identifiers that are set stay as they are. */
  predicate KeepsIds(w: World, w': World) {
    Registered(w.hv) ==> w'.hv.hypervisorId == w.hv.hypervisorId && w'.hv.serviceId == w.hv.serviceId
  }

  lemma PlanAdvances(hv: HvStatus, spec: Spec, zone: string, rs: OnbReplies)
    requires WellFormed(hv)
    requires rs.lookup.LookupIds? ==> rs.lookup.hypervisorId != "" && rs.lookup.serviceId != ""
    ensures PlanOnboarding(hv, spec, zone, rs).Some? ==> Advances(hv, PlanOnboarding(hv, spec, zone, rs).value)
  {
  }

  lemma OnbStep(w: World, a: Action)
    requires OnbInvariant(w) && IdsGiven(a)
    ensures OnbInvariant(Next(w, a)) && Forward(PhaseAt(w), PhaseAt(Next(w, a))) && KeepsIds(w, Next(w, a))
  {
    OnboardingOwns(w, a);
    if a.ReadOnboarding? {
      PlanAdvances(w.hv, w.spec, w.zone, a.onb);
    }
  }

  lemma {:induction false} OnbHolds(ws: seq<World>, acts: seq<Action>, i: nat)
    requires IsRun(ws, acts) && NovaIdsGiven(acts) && i < |ws|
    ensures OnbInvariant(ws[i])
  {
    if i > 0 {
      OnbHolds(ws, acts, i - 1);
      assert IdsGiven(acts[i - 1]);
      OnbStep(ws[i - 1], acts[i - 1]);
      assert ws[i - 1 + 1] == Next(ws[i - 1], acts[i - 1]);
    }
  }

  lemma ForwardTransitive(p: Phase, q: Phase, r: Phase)
    requires Forward(p, q) && Forward(q, r)
    ensures Forward(p, r)
  {
  }

  /** Over every run the phase only moves forward and recorded identifiers are never lost. In
      particular Succeeded and Aborted are final and exclude each other. */
  lemma {:induction false} PhasesMoveForward(ws: seq<World>, acts: seq<Action>, i: nat, j: nat)
    requires IsRun(ws, acts) && NovaIdsGiven(acts) && i <= j < |ws|
    ensures Forward(PhaseAt(ws[i]), PhaseAt(ws[j]))
    ensures KeepsIds(ws[i], ws[j])
    ensures PhaseAt(ws[i]).HasSucceeded? ==> PhaseAt(ws[j]).HasSucceeded?
    ensures PhaseAt(ws[i]).HasAborted? ==> PhaseAt(ws[j]).HasAborted?
    decreases j
  {
    if i == j {
    } else {
      PhasesMoveForward(ws, acts, i, j - 1);
      OnbHolds(ws, acts, i);
      OnbHolds(ws, acts, j - 1);
      assert IdsGiven(acts[j - 1]);
      OnbStep(ws[j - 1], acts[j - 1]);
      assert ws[j - 1 + 1] == Next(ws[j - 1], acts[j - 1]);
      ForwardTransitive(PhaseAt(ws[i]), PhaseAt(ws[j - 1]), PhaseAt(ws[j]));
    }
  }

  // -------------------------------------------------------------- handover

  predicate CarriesAggregates(w: World) {
    IsTrue(w.hv.aggregatesUpdated) || (w.pending.agg.Some? && w.pending.agg.value.condition.status.True?)
  }

  predicate CarriesTraits(w: World) {
    IsTrue(w.hv.traitsUpdated) || (w.pending.traits.Some? && w.pending.traits.value.condition.status.True?)
  }

  predicate Late(p: Phase) { p.InHandover? || p.HasSucceeded? || p.HasAborted? }

  /** Neither traits nor aggregates of the spec are reported before handover, on a host that was
      not aborted. */
  predicate NothingEarly(w: World) {
    CarriesAggregates(w) || CarriesTraits(w) ==> Late(PhaseAt(w))
  }

  lemma SpecAggregatesAreLate(hv: HvStatus, spec: Spec, zone: string, member: set<string>, rs: AggReplies)
    requires WellFormed(hv)
    requires var p := PlanAggregates(hv, spec, zone, member, rs).write; p.Some? && p.value.condition.status.True?
    ensures Late(PhaseOf(hv.onboarding))
    ensures PhaseOf(hv.onboarding).InHandover? ==> IsTrue(hv.traitsUpdated)
  {
    assert DesiredState(hv, spec, zone).condition.status.True?;
  }

  lemma ManagedIsLate(hv: HvStatus, spec: Spec)
    requires WellFormed(hv) && TraitsManaged(hv, spec)
    ensures Late(PhaseOf(hv.onboarding))
  {
  }

  lemma SpecTraitsAreLate(hv: HvStatus, spec: Spec, rs: TraitReplies)
    requires WellFormed(hv) && PlanTraits(hv, spec, rs).Some?
    ensures Late(PhaseOf(hv.onboarding))
  {
    assert TraitsManaged(hv, spec);
    ManagedIsLate(hv, spec);
  }

  lemma NothingEarlyStep(w: World, a: Action)
    requires OnbInvariant(w) && NothingEarly(w) && IdsGiven(a)
    ensures NothingEarly(Next(w, a))
  {
    OnbStep(w, a);
    var w' := Next(w, a);
    if CarriesAggregates(w') && !CarriesAggregates(w) {
      AggregatesStep(w, a);
    }
    if CarriesTraits(w') && !CarriesTraits(w) {
      TraitsStep(w, a);
    }
  }

  lemma TraitsStep(w: World, a: Action)
    requires OnbInvariant(w) && !CarriesTraits(w) && CarriesTraits(Next(w, a))
    ensures AppliesTraits(w, a) && Late(PhaseAt(w))
  {
    if !a.ReadTraits? && !a.CommitTraits? {
      TraitsOwns(w, a);
      TraitsOwnsPending(w, a);
    }
    SpecTraitsAreLate(w.hv, w.spec, a.traits);
  }

  lemma AggregatesStep(w: World, a: Action)
    requires OnbInvariant(w) && !CarriesAggregates(w) && CarriesAggregates(Next(w, a))
    ensures SwitchesAggregates(w, a) && Late(PhaseAt(w))
    ensures PhaseAt(w).InHandover? ==> IsTrue(w.hv.traitsUpdated)
  {
    if !a.ReadAggregates? && !a.CommitAggregates? {
      AggregatesOwns(w, a);
      AggregatesOwnsPending(w, a);
    }
    SpecAggregatesAreLate(w.hv, w.spec, w.zone, w.member, a.agg);
    TrueMeansApplied(w, a.agg);
  }

  /** A reading that takes effect and reports the traits of the spec as applied. They are on record
      already, or Placement holds the target or has accepted it. */
  predicate AppliesTraits(w: World, a: Action) {
    && a.ReadTraits? && w.pending.traits.None?
    && var p := PlanTraits(w.hv, w.spec, a.traits);
       && p.Some? && p.value.condition.status.True?
       && (|| multiset(w.spec.customTraits) == multiset(Traits.CustomTraitsOf(w.hv.traits))
           || (&& a.traits.current.Some? && p.value.traits == Traits.Target(a.traits.current.value, w.spec.customTraits)
               && (Traits.NeedsUpdate(a.traits.current.value, w.spec.customTraits) ==> a.traits.updateOk)))
  }

  /** A reading that takes effect and reports the aggregates of the spec as applied. They are on
      record already, or its calls, none of which is reported as failed, leave the host in exactly
      these aggregates. */
  ghost predicate SwitchesAggregates(w: World, a: Action) {
    && a.ReadAggregates? && w.pending.agg.None?
    && var p := PlanAggregates(w.hv, w.spec, w.zone, w.member, a.agg);
       && p.write.Some? && p.write.value.condition.status.True?
       && (AllListed(w, a.agg) ==>
             || multiset(w.spec.aggregates) == multiset(w.hv.aggregates)
             || (p.write.value.aggregates == Some(w.spec.aggregates) && p.member == Elements(w.spec.aggregates)))
  }

  /** Nova's listing shows every aggregate the host is in. */
  ghost predicate AllListed(w: World, rs: AggReplies) { forall n :: n in w.member ==> n in rs.names }

  /** Recorded aggregates are true: what a reconcile records, whatever its condition, is what its
      calls leave the host in. */
  lemma RecordedAggregates(w: World, rs: AggReplies)
    requires AllListed(w, rs)
    ensures var p := PlanAggregates(w.hv, w.spec, w.zone, w.member, rs);
            p.write.Some? && p.write.value.aggregates.Some? ==> p.member == Elements(p.write.value.aggregates.value)
  {
    var d := DesiredState(w.hv, w.spec, w.zone);
    if Aggregates.Apply(rs.names, w.member, d.aggregates, rs.calls).ok {
      Aggregates.SuccessIsExact(rs.names, w.member, d.aggregates, rs.calls);
    }
  }

  /** A True condition means the aggregates of the spec, on record or just reached. */
  lemma TrueMeansApplied(w: World, rs: AggReplies)
    requires var p := PlanAggregates(w.hv, w.spec, w.zone, w.member, rs).write;
             p.Some? && p.value.condition.status.True?
    ensures var p := PlanAggregates(w.hv, w.spec, w.zone, w.member, rs);
            || multiset(w.spec.aggregates) == multiset(w.hv.aggregates)
            || (&& p.write.value.aggregates == Some(w.spec.aggregates)
                && (AllListed(w, rs) ==> p.member == Elements(w.spec.aggregates)))
  {
    var d := DesiredState(w.hv, w.spec, w.zone);
    assert d.aggregates == w.spec.aggregates;
    if AllListed(w, rs) {
      RecordedAggregates(w, rs);
    }
  }

  lemma {:induction false} NothingEarlyHolds(ws: seq<World>, acts: seq<Action>, i: nat)
    requires IsRun(ws, acts) && NovaIdsGiven(acts) && i < |ws|
    ensures NothingEarly(ws[i])
  {
    if i > 0 {
      NothingEarlyHolds(ws, acts, i - 1);
      OnbHolds(ws, acts, i - 1);
      assert IdsGiven(acts[i - 1]);
      NothingEarlyStep(ws[i - 1], acts[i - 1]);
      assert ws[i - 1 + 1] == Next(ws[i - 1], acts[i - 1]);
    }
  }

  predicate PastTesting(p: Phase) { p.InTesting? || p.InHandover? || p.HasSucceeded? }

  predicate CarriesPast(w: World) {
    PastTesting(PhaseAt(w)) || (w.pending.onb.Some? && PastTesting(PhaseOf(w.pending.onb.value.onboarding)))
  }

  /** The reading that lets a host into Testing, after the compute service has been enabled. */
  predicate TestsMayStart(w: World, a: Action) {
    && a.ReadOnboarding? && w.pending.onb.None? && PhaseAt(w).InInitial?
    && w.zone != "" && multiset(w.hv.aggregates) == multiset{w.zone, "tenant_filter_tests"} && a.onb.serviceOk
  }

  lemma PastStep(w: World, a: Action)
    requires OnbInvariant(w) && !CarriesPast(w) && CarriesPast(Next(w, a))
    ensures TestsMayStart(w, a)
  {
    PastGate(w, a);
    assert multiset([w.zone, TEST_AGGREGATE]) == multiset{w.zone, "tenant_filter_tests"};
  }

  lemma PastGate(w: World, a: Action)
    requires OnbInvariant(w) && !CarriesPast(w) && CarriesPast(Next(w, a))
    ensures a.ReadOnboarding? && w.pending.onb.None? && PhaseAt(w).InInitial?
    ensures TestAggregatesApplied(w.hv, w.zone) && a.onb.serviceOk
  {
    OnboardingOwns(w, a);
  }

  lemma {:induction false} TestingOrigin(ws: seq<World>, acts: seq<Action>, i: nat) returns (z: nat)
    requires IsRun(ws, acts) && NovaIdsGiven(acts) && i < |ws| && CarriesPast(ws[i])
    ensures z < i && TestsMayStart(ws[z], acts[z])
    ensures forall k :: z < k <= i ==> CarriesPast(ws[k])
  {
    assert ws[i - 1 + 1] == Next(ws[i - 1], acts[i - 1]);
    if CarriesPast(ws[i - 1]) {
      z := TestingOrigin(ws, acts, i - 1);
    } else {
      OnbHolds(ws, acts, i - 1);
      PastStep(ws[i - 1], acts[i - 1]);
      z := i - 1;
    }
  }

  predicate HandedOver(p: Phase) { p.InHandover? || p.HasSucceeded? }

  predicate CarriesHandover(w: World) {
    HandedOver(PhaseAt(w)) || (w.pending.onb.Some? && HandedOver(PhaseOf(w.pending.onb.value.onboarding)))
  }

  /** The reading that hands a host over: the smoke test is not required or has passed, and what it
      left behind is cleaned up. */
  predicate HandsOver(w: World, a: Action) {
    && a.ReadOnboarding? && w.pending.onb.None? && PhaseAt(w).InTesting?
    && (w.spec.skipTests || a.onb.smoke.Passed?) && a.onb.cleanupOk
  }

  lemma HandoverStep(w: World, a: Action)
    requires OnbInvariant(w) && !CarriesHandover(w) && CarriesHandover(Next(w, a))
    ensures HandsOver(w, a)
  {
    OnboardingOwns(w, a);
  }

  lemma {:induction false} HandoverOrigin(ws: seq<World>, acts: seq<Action>, i: nat) returns (s: nat)
    requires IsRun(ws, acts) && NovaIdsGiven(acts) && i < |ws| && CarriesHandover(ws[i])
    ensures s < i && HandsOver(ws[s], acts[s])
    ensures forall k :: s < k <= i ==> CarriesHandover(ws[k])
  {
    assert ws[i - 1 + 1] == Next(ws[i - 1], acts[i - 1]);
    if CarriesHandover(ws[i - 1]) {
      s := HandoverOrigin(ws, acts, i - 1);
    } else {
      OnbHolds(ws, acts, i - 1);
      HandoverStep(ws[i - 1], acts[i - 1]);
      s := i - 1;
    }
  }

  predicate CarriesSuccess(w: World) {
    PhaseAt(w).HasSucceeded? || (w.pending.onb.Some? && PhaseOf(w.pending.onb.value.onboarding).HasSucceeded?)
  }

  /** The reading that completes onboarding. */
  predicate MayComplete(w: World, a: Action) {
    && a.ReadOnboarding? && w.pending.onb.None? && PhaseAt(w).InHandover?
    && IsTrue(w.hv.aggregatesUpdated) && IsTrue(w.hv.traitsUpdated)
    && (w.spec.highAvailability ==> IsTrue(w.hv.haEnabled))
  }

  lemma SuccessStep(w: World, a: Action)
    requires OnbInvariant(w) && !CarriesSuccess(w) && CarriesSuccess(Next(w, a))
    ensures MayComplete(w, a)
  {
    OnboardingOwns(w, a);
  }

  lemma {:induction false} SuccessOrigin(ws: seq<World>, acts: seq<Action>, i: nat) returns (f: nat)
    requires IsRun(ws, acts) && NovaIdsGiven(acts) && i < |ws| && CarriesSuccess(ws[i])
    ensures f < i && MayComplete(ws[f], acts[f])
    ensures forall k :: f < k <= i ==> CarriesSuccess(ws[k])
  {
    assert ws[i - 1 + 1] == Next(ws[i - 1], acts[i - 1]);
    if CarriesSuccess(ws[i - 1]) {
      f := SuccessOrigin(ws, acts, i - 1);
    } else {
      OnbHolds(ws, acts, i - 1);
      SuccessStep(ws[i - 1], acts[i - 1]);
      f := i - 1;
    }
  }

  lemma {:induction false} AggregatesOrigin(ws: seq<World>, acts: seq<Action>, i: nat) returns (g: nat)
    requires IsRun(ws, acts) && NovaIdsGiven(acts) && i < |ws|
    requires CarriesAggregates(ws[i]) && PhaseAt(ws[i]).InHandover?
    ensures g < i && SwitchesAggregates(ws[g], acts[g]) && PhaseAt(ws[g]).InHandover? && IsTrue(ws[g].hv.traitsUpdated)
    ensures forall k :: g < k <= i ==> CarriesAggregates(ws[k])
  {
    assert ws[i - 1 + 1] == Next(ws[i - 1], acts[i - 1]);
    if CarriesAggregates(ws[i - 1]) {
      NothingEarlyHolds(ws, acts, i - 1);
      PhasesMoveForward(ws, acts, i - 1, i);
      g := AggregatesOrigin(ws, acts, i - 1);
    } else {
      OnbHolds(ws, acts, i - 1);
      AggregatesStep(ws[i - 1], acts[i - 1]);
      OnboardingOwns(ws[i - 1], acts[i - 1]);
      g := i - 1;
    }
  }

  lemma {:induction false} TraitsOrigin(ws: seq<World>, acts: seq<Action>, i: nat) returns (t: nat)
    requires IsRun(ws, acts) && NovaIdsGiven(acts) && i < |ws|
    requires CarriesTraits(ws[i]) && PhaseAt(ws[i]).InHandover?
    ensures t < i && AppliesTraits(ws[t], acts[t]) && PhaseAt(ws[t]).InHandover?
    ensures forall k :: t < k <= i ==> CarriesTraits(ws[k])
  {
    assert ws[i - 1 + 1] == Next(ws[i - 1], acts[i - 1]);
    if CarriesTraits(ws[i - 1]) {
      NothingEarlyHolds(ws, acts, i - 1);
      PhasesMoveForward(ws, acts, i - 1, i);
      t := TraitsOrigin(ws, acts, i - 1);
    } else {
      OnbHolds(ws, acts, i - 1);
      TraitsStep(ws[i - 1], acts[i - 1]);
      OnboardingOwns(ws[i - 1], acts[i - 1]);
      t := i - 1;
    }
  }

  /** Handover begins at h: no earlier state is in handover or reports traits or aggregates of
      the spec as applied. */
  ghost predicate HandoverBegins(ws: seq<World>, h: nat)
    requires h < |ws|
  {
    && PhaseAt(ws[h]).InHandover?
    && forall k :: 0 <= k < h ==>
          !Late(PhaseAt(ws[k])) && !IsTrue(ws[k].hv.traitsUpdated) && !IsTrue(ws[k].hv.aggregatesUpdated)
  }

  lemma {:induction false} FirstHandover(ws: seq<World>, acts: seq<Action>, i: nat) returns (h: nat)
    requires IsRun(ws, acts) && NovaIdsGiven(acts) && i < |ws| && PhaseAt(ws[i]).InHandover?
    ensures h <= i && HandoverBegins(ws, h)
  {
    if j :| 0 <= j < i && PhaseAt(ws[j]).InHandover? {
      h := FirstHandover(ws, acts, j);
    } else {
      h := i;
      forall k | 0 <= k < i
        ensures !Late(PhaseAt(ws[k])) && !IsTrue(ws[k].hv.traitsUpdated) && !IsTrue(ws[k].hv.aggregatesUpdated)
      {
        PhasesMoveForward(ws, acts, k, i);
        NothingEarlyHolds(ws, acts, k);
      }
    }
  }

  /** The readings of a successful onboarding, each with effect: tests may start with exactly the
      zone and the test aggregate applied (z), the tests have passed (s), handover begins (h), the
      traits are applied (t), the aggregates are switched over on a state that reports the traits
      (g), onboarding completes (f). What each of them established held until the next one. */
  ghost predicate HandedOverInOrder(ws: seq<World>, acts: seq<Action>, z: nat, s: nat, h: nat, t: nat, g: nat, f: nat)
    requires |ws| == |acts| + 1
  {
    && z < s < h <= t < g < f < |acts|
    && TestsMayStart(ws[z], acts[z])
    && HandsOver(ws[s], acts[s])
    && HandoverBegins(ws, h)
    && AppliesTraits(ws[t], acts[t])
    && SwitchesAggregates(ws[g], acts[g]) && IsTrue(ws[g].hv.traitsUpdated)
    && MayComplete(ws[f], acts[f])
    && (forall k :: z < k <= s ==> CarriesPast(ws[k]))
    && (forall k :: s < k <= h ==> CarriesHandover(ws[k]))
    && (forall k :: t < k <= g ==> CarriesTraits(ws[k]))
    && (forall k :: g < k <= f ==> CarriesAggregates(ws[k]))
    && (forall k :: h <= k <= f ==> PhaseAt(ws[k]).InHandover?)
  }

  lemma {:induction false} StaysInHandover(ws: seq<World>, acts: seq<Action>, h: nat, f: nat)
    requires IsRun(ws, acts) && NovaIdsGiven(acts) && h <= f < |ws|
    requires PhaseAt(ws[h]).InHandover? && PhaseAt(ws[f]).InHandover?
    ensures forall k :: h <= k <= f ==> PhaseAt(ws[k]).InHandover?
  {
    forall k | h <= k <= f ensures PhaseAt(ws[k]).InHandover? {
      PhasesMoveForward(ws, acts, h, k);
      PhasesMoveForward(ws, acts, k, f);
    }
  }

  /** Onboarding succeeds only after all of them, in that order, in every interleaving. */
  lemma SucceededInOrder(ws: seq<World>, acts: seq<Action>, i: nat)
    requires IsRun(ws, acts) && NovaIdsGiven(acts) && i < |ws| && PhaseAt(ws[i]).HasSucceeded?
    ensures exists z: nat, s: nat, h: nat, t: nat, g: nat, f: nat ::
              f < i && HandedOverInOrder(ws, acts, z, s, h, t, g, f) && forall k :: f < k <= i ==> CarriesSuccess(ws[k])
  {
    var f := SuccessOrigin(ws, acts, i);
    var g := AggregatesOrigin(ws, acts, f);
    var t := TraitsOrigin(ws, acts, g);
    var h := FirstHandover(ws, acts, t);
    var s := HandoverOrigin(ws, acts, h);
    var z := TestingOrigin(ws, acts, s);
    StaysInHandover(ws, acts, h, f);
    assert HandedOverInOrder(ws, acts, z, s, h, t, g, f);
  }

  // ----------------------------------- when the two conditions become True

  /** All outstanding membership calls are sent. */
  function AllSent(w: World): (r: World)
    ensures r == w.(calls := [], member := r.member)
    decreases |w.calls|
  {
    if w.calls == [] then w else AllSent(SendNext(w))
  }

  /** One reconcile of the aggregates with all its calls and its update committed. */
  function AggregatesReconciled(w: World, rs: AggReplies): World {
    CommitAgg(AllSent(ReadAgg(w, rs)), true)
  }

  /** Nova answers the listing and every membership comes out as wanted. */
  predicate AggregatesErrorFree(w: World, rs: AggReplies) {
    rs.listOk && Aggregates.Apply(rs.names, w.member, DesiredState(w.hv, w.spec, w.zone).aggregates, rs.calls).ok
  }

  /** In every reachable state, an error-free reconcile of a registered host that is not
      terminating ends with AggregatesUpdated=True exactly when the host has succeeded, was
      aborted (without any handover), or is in handover with its traits applied. */
  lemma AggregatesTrueExactly(ws: seq<World>, acts: seq<Action>, i: nat, rs: AggReplies)
    requires IsRun(ws, acts) && NovaIdsGiven(acts) && i < |ws|
    requires ws[i].hv.onboarding.Some? && !ws[i].spec.maintenance.Termination?
    requires ws[i].pending.agg.None? && AggregatesErrorFree(ws[i], rs)
    ensures IsTrue(AggregatesReconciled(ws[i], rs).hv.aggregatesUpdated)
            <==> var p := PhaseAt(ws[i]);
                 p.HasSucceeded? || p.HasAborted? || (p.InHandover? && IsTrue(ws[i].hv.traitsUpdated))
  {
    OnbHolds(ws, acts, i);
    DesiredTrueExactly(ws[i].hv, ws[i].spec, ws[i].zone);
    AggregatesOutcome(ws[i], rs);
  }

  lemma AggregatesOutcome(w: World, rs: AggReplies)
    requires Registered(w.hv) && w.pending.agg.None? && AggregatesErrorFree(w, rs)
    ensures IsTrue(AggregatesReconciled(w, rs).hv.aggregatesUpdated)
            <==> DesiredState(w.hv, w.spec, w.zone).condition.status.True?
  {
    var d := DesiredState(w.hv, w.spec, w.zone).condition;
    var p := PlanAggregates(w.hv, w.spec, w.zone, w.member, rs).write;
    assert if p.Some? then p.value.condition == d else w.hv.aggregatesUpdated == Some(d);
  }

  lemma DesiredTrueExactly(hv: HvStatus, spec: Spec, zone: string)
    requires WellFormed(hv) && hv.onboarding.Some? && !spec.maintenance.Termination?
    ensures DesiredState(hv, spec, zone).condition.status.True?
            <==> var p := PhaseOf(hv.onboarding);
                 p.HasSucceeded? || p.HasAborted? || (p.InHandover? && IsTrue(hv.traitsUpdated))
  {
  }

  /** One reconcile of the traits with its update committed. */
  function TraitsReconciled(w: World, rs: TraitReplies): World {
    CommitTrait(ReadTrait(w, rs), true)
  }

  predicate TraitsErrorFree(w: World, rs: TraitReplies) { rs.current.Some? && rs.updateOk }

  /** Likewise for TraitsUpdated, if it was not True before: the lifecycle must be enabled, and
      an aborted host counts only if its cleanup went through. */
  lemma TraitsTrueExactly(ws: seq<World>, acts: seq<Action>, i: nat, rs: TraitReplies)
    requires IsRun(ws, acts) && NovaIdsGiven(acts) && i < |ws|
    requires ws[i].hv.onboarding.Some? && !ws[i].spec.maintenance.Termination?
    requires ws[i].pending.traits.None? && !IsTrue(ws[i].hv.traitsUpdated) && TraitsErrorFree(ws[i], rs)
    ensures IsTrue(TraitsReconciled(ws[i], rs).hv.traitsUpdated)
            <==> var p := PhaseAt(ws[i]);
                 && ws[i].spec.lifecycleEnabled
                 && (p.InHandover? || p.HasSucceeded? || (p.HasAborted? && IsFalse(ws[i].hv.onboarding)))
  {
    OnbHolds(ws, acts, i);
    ManagedExactly(ws[i].hv, ws[i].spec);
  }

  lemma ManagedExactly(hv: HvStatus, spec: Spec)
    requires WellFormed(hv) && hv.onboarding.Some? && !spec.maintenance.Termination?
    ensures TraitsManaged(hv, spec)
            <==> var p := PhaseOf(hv.onboarding);
                 && spec.lifecycleEnabled
                 && (p.InHandover? || p.HasSucceeded? || (p.HasAborted? && IsFalse(hv.onboarding)))
  {
  }
}
