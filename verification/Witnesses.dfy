/**
 Runs that show that the premises of the main results are met: a host whose onboarding succeeds,
 and a drain that sees instances leave before its Eviction is finished.
 */
module Witnesses {
  import opened Basics
  import opened Conditions
  import opened Hypervisors
  import opened Protocol
  import opened Scenarios
  import opened DrainHistory
  import Onboarding
  import Aggregates
  import Slices
  import Evictions
  import Drain
  import Concurrency

  /** Some run from a fresh host, made of such actions only, leads to this state. */
  ghost predicate ReachableBy(w: World, fine: Action -> bool) {
    exists ws: seq<World>, acts: seq<Action> :: Story(ws, acts, w) && forall a :: a in acts ==> fine(a)
  }

  lemma StartBy(spec: Spec, fine: Action -> bool)
    ensures ReachableBy(NEW_HOST.(spec := spec), fine)
  {
    var ws, acts := Begin(spec);
  }

  lemma StepBy(w: World, a: Action, w': World, fine: Action -> bool)
    requires ReachableBy(w, fine) && fine(a) && w' == Next(w, a)
    ensures ReachableBy(w', fine)
  {
    var ws, acts :| Story(ws, acts, w) && forall b :: b in acts ==> fine(b);
    var ws', acts' := GoOn(ws, acts, w, a);
    assert forall b :: b in acts' ==> b in acts || b == a;
  }

  // -------------------------------------------------------- onboarding succeeds

  const TEST_LIST := ["zone", TEST_AGGREGATE]
  const QUICK := PLAIN.(skipTests := true, aggregates := TEST_LIST)
  const GIVEN: Action -> bool := a => Onboarding.IdsGiven(a)
  const LISTED := AggReplies(true, TEST_LIST, [])

  function OnbState(c: Condition): World {
    NEW_HOST.(spec := QUICK, hv := NO_STATUS.(hypervisorId := "h", serviceId := "s", onboarding := Some(c)))
  }

  function OnbPending(c: Condition): Pending { IDLE.(onb := Some(OnbWrite("h", "s", Some(c)))) }

  const INITIAL := Condition(True, Initial, Fixed)

  lemma ReachInitial()
    ensures ReachableBy(OnbState(INITIAL), GIVEN)
  {
    StartBy(QUICK, GIVEN);
    var w0 := NEW_HOST.(spec := QUICK);
    var w1 := w0.(pending := OnbPending(INITIAL));
    StepBy(w0, ReadOnboarding(ONB), w1, GIVEN);
    StepBy(w1, CommitOnboarding(true), OnbState(INITIAL), GIVEN);
  }

  const TEST_CONDITION := Condition(False, TestAggregates, Fixed)

  lemma {:induction false} NoneCurrent(names: seq<string>)
    ensures Aggregates.Current(names, {}) == []
  {
    if names != [] {
      NoneCurrent(names[..|names| - 1]);
    }
  }

  /** A host in no aggregate that is to be in these two. */
  lemma TwoAdditions(a: string, b: string)
    ensures Aggregates.PlannedCalls([a, b], {}, [a, b]) == [Aggregates.AddTo(a), Aggregates.AddTo(b)]
    ensures !Aggregates.Missing([a, b], [a, b]) && !Slices.SameElements([a, b], [])
  {
    var both := [a, b];
    NoneCurrent(both);
    assert Slices.NotIn([], both) == both by {
      assert both[1..] == [b] && [b][1..] == [];
      assert Slices.NotIn([], [b]) == [b] + Slices.NotIn([], []) == [b];
    }
    assert Slices.NotIn(both, []) == [];
    assert Aggregates.CallsFor(both, []) == [Aggregates.AddTo(a), Aggregates.AddTo(b)];
    assert multiset(both)[a] >= 1;
  }

  /** The first reading of the aggregates, with both additions outstanding. */
  const FIRST: PlannedCall := PlannedCall(Aggregates.AddTo("zone"), Aggregates.Done)
  const SECOND: PlannedCall := PlannedCall(Aggregates.AddTo(TEST_AGGREGATE), Aggregates.Done)
  const PLACING := OnbState(INITIAL).(calls := [FIRST, SECOND],
                                      pending := IDLE.(agg := Some(AggWrite(Some(TEST_LIST), TEST_CONDITION))))

  lemma ReachPlacing()
    ensures ReachableBy(PLACING, GIVEN)
  {
    ReachInitial();
    TwoAdditions("zone", TEST_AGGREGATE);
    var w := OnbState(INITIAL);
    assert DesiredState(w.hv, QUICK, "zone") == Desired(TEST_LIST, TEST_CONDITION);
    var p := PlanAggregates(w.hv, QUICK, "zone", {}, LISTED);
    assert p.write == Some(AggWrite(Some(TEST_LIST), TEST_CONDITION));
    assert Outcomes(p.calls, []) == [FIRST, SECOND];
    assert ReadAgg(w, LISTED) == PLACING;
    StepBy(w, ReadAggregates(LISTED), PLACING, GIVEN);
  }

  /** In the test aggregates, with the given conditions. */
  function Placed(onboarding: Condition, traits: Option<Condition>, aggregates: Condition): World {
    var w := OnbState(onboarding);
    w.(member := {"zone"} + {TEST_AGGREGATE},
       hv := w.hv.(aggregates := TEST_LIST, aggregatesUpdated := Some(aggregates), traitsUpdated := traits))
  }

  /** An addition is sent and accepted. */
  lemma AdditionSent(w: World, name: string, rest: seq<PlannedCall>, fine: Action -> bool)
    requires ReachableBy(w, fine) && fine(SendCall)
    requires w.calls == [PlannedCall(Aggregates.AddTo(name), Aggregates.Done)] + rest
    ensures ReachableBy(w.(member := w.member + {name}, calls := rest), fine)
  {
    assert w.calls[1..] == rest;
    StepBy(w, SendCall, w.(member := w.member + {name}, calls := rest), fine);
  }

  lemma ReachPlaced()
    ensures ReachableBy(Placed(INITIAL, None, TEST_CONDITION), GIVEN)
  {
    ReachPlacing();
    assert [FIRST, SECOND] == [FIRST] + [SECOND] && [SECOND] == [SECOND] + [];
    AdditionSent(PLACING, "zone", [SECOND], GIVEN);
    var w4 := PLACING.(member := {} + {"zone"}, calls := [SECOND]);
    AdditionSent(w4, TEST_AGGREGATE, [], GIVEN);
    var w5 := PLACING.(member := ({} + {"zone"}) + {TEST_AGGREGATE}, calls := []);
    assert {} + {"zone"} == {"zone"};
    StepBy(w5, CommitAggregates(true), Placed(INITIAL, None, TEST_CONDITION), GIVEN);
  }

  const TESTING := Condition(True, Testing, Fixed)
  const HANDOVER := Condition(True, Handover, Fixed)
  const APPLIED := Condition(True, Succeeded, Fixed)
  const DONE := Condition(False, Succeeded, Fixed)

  /** One onboarding reconcile that moves from one condition to the next. */
  lemma OnbMoves(before: Condition, after: Condition, traits: Option<Condition>, aggregates: Condition)
    requires ReachableBy(Placed(before, traits, aggregates), GIVEN)
    requires PlanOnboarding(Placed(before, traits, aggregates).hv, QUICK, "zone", ONB)
             == Some(OnbWrite("h", "s", Some(after)))
    ensures ReachableBy(Placed(after, traits, aggregates), GIVEN)
  {
    var w := Placed(before, traits, aggregates);
    var w' := w.(pending := OnbPending(after));
    StepBy(w, ReadOnboarding(ONB), w', GIVEN);
    StepBy(w', CommitOnboarding(true), Placed(after, traits, aggregates), GIVEN);
  }

  lemma ReachHandover()
    ensures ReachableBy(Placed(HANDOVER, None, TEST_CONDITION), GIVEN)
  {
    ReachPlaced();
    OnbMoves(INITIAL, TESTING, None, TEST_CONDITION);
    OnbMoves(TESTING, HANDOVER, None, TEST_CONDITION);
  }

  lemma TraitsInSync(hv: HvStatus, rs: TraitReplies)
    requires hv == Placed(HANDOVER, None, TEST_CONDITION).hv
    ensures PlanTraits(hv, QUICK, rs) == Some(TraitWrite([], APPLIED))
  {
  }

  lemma ReachTraits()
    ensures ReachableBy(Placed(HANDOVER, Some(APPLIED), TEST_CONDITION), GIVEN)
  {
    ReachHandover();
    var w := Placed(HANDOVER, None, TEST_CONDITION);
    var rs := TraitReplies(Some([]), true);
    var w1 := w.(pending := IDLE.(traits := Some(TraitWrite([], APPLIED))));
    TraitsInSync(w.hv, rs);
    StepBy(w, ReadTraits(rs), w1, GIVEN);
    StepBy(w1, CommitTraits(true), Placed(HANDOVER, Some(APPLIED), TEST_CONDITION), GIVEN);
  }

  lemma ReachSwitched()
    ensures ReachableBy(Placed(HANDOVER, Some(APPLIED), APPLIED), GIVEN)
  {
    ReachTraits();
    var w := Placed(HANDOVER, Some(APPLIED), TEST_CONDITION);
    var w1 := w.(pending := IDLE.(agg := Some(AggWrite(None, APPLIED))));
    assert ReadAgg(w, LISTED) == w1;
    StepBy(w, ReadAggregates(LISTED), w1, GIVEN);
    StepBy(w1, CommitAggregates(true), Placed(HANDOVER, Some(APPLIED), APPLIED), GIVEN);
  }

  /** Onboarding succeeds in some run, with identifiers given by Nova throughout. */
  lemma OnboardingSucceeds()
    ensures exists ws: seq<World>, acts: seq<Action> ::
              IsRun(ws, acts) && Onboarding.NovaIdsGiven(acts) && Onboarding.PhaseAt(ws[|acts|]).HasSucceeded?
  {
    ReachSwitched();
    OnbMoves(HANDOVER, DONE, Some(APPLIED), APPLIED);
    var w := Placed(DONE, Some(APPLIED), APPLIED);
    var ws, acts :| Story(ws, acts, w) && forall a :: a in acts ==> GIVEN(a);
    forall i | 0 <= i < |acts| ensures Onboarding.IdsGiven(acts[i]) {
      assert GIVEN(acts[i]);
    }
  }

  // ------------------------------------------------------- a drain with instances

  const VMS := ["vm"]

  /** If Nova lists servers in this step, then these. */
  predicate ListsVms(a: Action) {
    a.ReadEviction? && a.reply.HostFound? ==> a.reply.servers == Some(VMS)
  }

  const LISTS: Action -> bool := a => ListsVms(a)
  const EMPTY := Drain.Nova(map[], {}, {}, {}, {}, {})
  const ONE := Concurrency.Config(1, map[])
  const LIST := ReadEviction(Evictions.HostFound(Some(VMS)), EMPTY, ONE)

  const QUEUED := RUNNING.(preflight := Evictions.Passed, queue := VMS)
  const EMPTIED := QUEUED.(queue := [], verdict := Drain.Succeeded)
  const DRAINED := EMPTIED.(progress := Evictions.Finished(true))

  function Evicts(st: Evictions.EvictionStatus): World { DrainBegun(MANUAL).(eviction := Some(st)) }

  /** One reconcile of the Eviction that moves from one status to the next. */
  lemma EvictionMoves(before: Evictions.EvictionStatus, after: Evictions.EvictionStatus, a: Action)
    requires ReachableBy(Evicts(before), LISTS) && a.ReadEviction? && LISTS(a)
    requires Evictions.Reconcile(before, "host", Observe(Evicts(before), a)).write == Some(after)
    requires ApplyEviction(before, after) == after
    ensures ReachableBy(Evicts(after), LISTS)
  {
    var w := Evicts(before);
    var w' := w.(pending := IDLE.(eviction := Some(after)));
    StepBy(w, a, w', LISTS);
    StepBy(w', CommitEviction(true), Evicts(after), LISTS);
  }

  lemma ReachDrain()
    ensures ReachableBy(Evicts(Evictions.BLANK), LISTS)
  {
    QuietIsSettled();
    StartBy(MANUAL, LISTS);
    var w0 := NEW_HOST.(spec := MANUAL);
    var w1 := w0.(eviction := Some(Evictions.BLANK),
                  pending := IDLE.(maint := Some(MaintWrite(false, None, Some(EVICTING), Some(SETTLED)))));
    StepBy(w0, ReadMaintenance(QUIET), w1, LISTS);
    StepBy(w1, CommitMaintenance(true), Evicts(Evictions.BLANK), LISTS);
  }

  /** The only instance is gone. */
  lemma PassEmpties(limit: int)
    ensures Drain.RunPass(VMS, Drain.Unset, EMPTY, "host", limit).queue == []
    ensures Drain.RunPass(VMS, Drain.Unset, EMPTY, "host", limit).verdict == Drain.Succeeded
  {
    var p := Drain.Pass(VMS, Drain.Unset, 0, [], []);
    var p' := Drain.Pass([], Drain.Succeeded, 0, [], []);
    assert VMS[1..] == [];
    assert Drain.Look(EMPTY, "host", "vm") == Drain.Gone;
    assert Drain.Without(VMS, "vm") == [];
    assert Drain.ScanOne(p, EMPTY, "host", "vm") == p';
    assert Drain.Scan(p', EMPTY, "host", [], Drain.Clamp(limit)) == p';
    assert Drain.Scanned(VMS, Drain.Unset, EMPTY, "host", limit) == p';
  }

  lemma ReachDrained()
    ensures ReachableBy(Evicts(DRAINED), LISTS)
  {
    ReachDrain();
    EvictionMoves(Evictions.BLANK, RUNNING, ASK);
    EvictionMoves(RUNNING, QUEUED, LIST);
    PassEmpties(Observe(Evicts(QUEUED), ASK).limit);
    EvictionMoves(QUEUED, EMPTIED, ASK);
    EvictionMoves(EMPTIED, DRAINED, ASK);
  }

  /** In some run an Eviction is finished after an instance of its preflight list was seen to leave. */
  lemma DrainSeesDeparture()
    ensures exists ws: seq<World>, acts: seq<Action>, p: nat, f: nat, m: nat ::
              && IsRun(ws, acts) && ws[|acts|].eviction == Some(DRAINED)
              && StandsSince(ws, acts, f, m, |acts|) && AccountsFor(ws, acts, p, f, VMS, [])
              && SeenLeaving(ws, acts, p, f, "vm")
  {
    ReachDrained();
    var ws, acts :| Story(ws, acts, Evicts(DRAINED)) && forall a :: a in acts ==> LISTS(a);
    FinishedIsEmptied(ws, acts, |acts|);
    var f: nat, m: nat :| StandsSince(ws, acts, f, m, |acts|) && Emptied(ws, acts, f, |acts|);
    var p: nat, listed :| AccountsFor(ws, acts, p, f, listed, []);
    assert acts[p] in acts && LISTS(acts[p]);
    assert listed == VMS && "vm" in listed;
  }
}
