/**
 Runs that show where a tempting guarantee does not hold. Each lemma exhibits a
 run from a fresh host.
 */
module Scenarios {
  import opened Basics
  import opened Conditions
  import opened Hypervisors
  import opened Protocol
  import Onboarding
  import Aggregates
  import Slices
  import Migrations
  import Evictions
  import Drain
  import Concurrency

  /** A run so far that ends in the given state. */
  ghost predicate Story(ws: seq<World>, acts: seq<Action>, end: World) {
    IsRun(ws, acts) && ws[|acts|] == end
  }

  lemma GoOn(ws: seq<World>, acts: seq<Action>, end: World, a: Action)
      returns (ws': seq<World>, acts': seq<Action>)
    requires Story(ws, acts, end)
    ensures ws' == ws + [Next(end, a)] && acts' == acts + [a] && Story(ws', acts', Next(end, a))
  {
    ws', acts' := ws + [Next(end, a)], acts + [a];
    forall i | 0 <= i < |acts'| ensures ws'[i + 1] == Next(ws'[i], acts'[i]) {
      if i < |acts| {
        assert ws[i + 1] == Next(ws[i], acts[i]);
      }
    }
  }

  const PLAIN := Spec(NoMaintenance, true, false, false, [], [])
  const NO_STATUS := HvStatus(false, 0, "", "", [], [], None, None, None, None, None, None, None, None, None)
  const NEW_HOST := World("host", PLAIN, "zone", NO_STATUS, None, false, false, None, {}, [], false, IDLE)

  lemma Begin(spec: Spec) returns (ws: seq<World>, acts: seq<Action>)
    ensures Story(ws, acts, NEW_HOST.(spec := spec)) && ws == [NEW_HOST.(spec := spec)] && acts == []
  {
    ws, acts := [NEW_HOST.(spec := spec)], [];
  }

  // ------------------------------------------- aggregates without handover

  ghost predicate NeverHandedOver(ws: seq<World>, acts: seq<Action>) {
    && Onboarding.NovaIdsGiven(acts)
    && forall k :: 0 <= k < |ws| ==> !Onboarding.PhaseAt(ws[k]).InHandover?
  }

  const ONB := OnbReplies(LookupIds("h", "s"), true, true, NotActive, "")

  lemma AbortEarly() returns (ws: seq<World>, acts: seq<Action>, end: World)
    ensures Story(ws, acts, end) && NeverHandedOver(ws, acts)
    ensures end == NEW_HOST.(spec := PLAIN.(lifecycleEnabled := false),
                             hv := NO_STATUS.(hypervisorId := "h", serviceId := "s",
                                              onboarding := Some(Condition(False, Aborted, LifecycleDisabled))))
  {
    var w0 := NEW_HOST;
    ws, acts := Begin(PLAIN);
    ws, acts := GoOn(ws, acts, w0, ReadOnboarding(ONB));
    var w1 := w0.(pending := IDLE.(onb := Some(OnbWrite("h", "s", Some(Condition(True, Initial, Fixed))))));
    assert Next(w0, ReadOnboarding(ONB)) == w1;
    ws, acts := GoOn(ws, acts, w1, CommitOnboarding(true));
    var w2 := w0.(hv := ApplyOnb(w0.hv, w1.pending.onb.value));
    assert Next(w1, CommitOnboarding(true)) == w2;
    var off := PLAIN.(lifecycleEnabled := false);
    ws, acts := GoOn(ws, acts, w2, EditSpec(off));
    var w3 := w2.(spec := off);
    ws, acts := GoOn(ws, acts, w3, ReadOnboarding(ONB));
    var w4 := w3.(pending := IDLE.(onb := Some(OnbWrite("h", "s",
                                                        Some(Condition(False, Aborted, LifecycleDisabled))))));
    assert Next(w3, ReadOnboarding(ONB)) == w4;
    ws, acts := GoOn(ws, acts, w4, CommitOnboarding(true));
    end := w3.(hv := ApplyOnb(w3.hv, w4.pending.onb.value));
    assert Next(w4, CommitOnboarding(true)) == end;
  }

  /** A host whose onboarding was aborted reports the aggregates of the spec as applied although
      it never reached handover. */
  lemma AbortedReportsAggregates()
    ensures exists ws: seq<World>, acts: seq<Action> ::
              IsRun(ws, acts) && NeverHandedOver(ws, acts) && IsTrue(ws[|acts|].hv.aggregatesUpdated)
  {
    var ws, acts, w5 := AbortEarly();
    ws, acts := GoOn(ws, acts, w5, EditSpec(PLAIN));
    var w6 := w5.(spec := PLAIN);
    var a := ReadAggregates(AggReplies(true, [], []));
    ws, acts := GoOn(ws, acts, w6, a);
    var w7 := w6.(pending := IDLE.(agg := Some(AggWrite(None, Condition(True, Succeeded, Fixed)))));
    assert Next(w6, a) == w7;
    ws, acts := GoOn(ws, acts, w7, CommitAggregates(true));
    assert IsTrue(ws[|acts|].hv.aggregatesUpdated);
  }

  /** The same for the traits. */
  lemma AbortedReportsTraits()
    ensures exists ws: seq<World>, acts: seq<Action> ::
              IsRun(ws, acts) && NeverHandedOver(ws, acts) && IsTrue(ws[|acts|].hv.traitsUpdated)
  {
    var ws, acts, w5 := AbortEarly();
    ws, acts := GoOn(ws, acts, w5, EditSpec(PLAIN));
    var w6 := w5.(spec := PLAIN);
    var a := ReadTraits(TraitReplies(Some([]), true));
    ws, acts := GoOn(ws, acts, w6, a);
    var w7 := w6.(pending := IDLE.(traits := Some(TraitWrite([], Condition(True, Succeeded, Fixed)))));
    assert Next(w6, a) == w7;
    ws, acts := GoOn(ws, acts, w7, CommitTraits(true));
    assert IsTrue(ws[|acts|].hv.traitsUpdated);
  }

  // --------------------------------------- a drain of a host Nova never saw

  const QUIET := MaintReplies(true, Migrations.NovaMigrations(Some([]), {}), true, true, true)
  const RUNNING := Evictions.BLANK.(progress := Evictions.Running)
  const FINISHED := Evictions.BLANK.(progress := Evictions.Finished(true))
  const ASK := ReadEviction(Evictions.HostMissing, Drain.Nova(map[], {}, {}, {}, {}, {}), Concurrency.Config(1, map[]))

  lemma QuietIsSettled()
    ensures Migrations.IsSettled(Migrations.Settle(QUIET.migrations, "host"))
  {
  }

  /** Some run from a fresh host leads to this state. */
  ghost predicate Reachable(w: World) {
    exists ws: seq<World>, acts: seq<Action> :: Story(ws, acts, w)
  }

  lemma ReachNext(w: World, a: Action, w': World)
    requires Reachable(w) && w' == Next(w, a)
    ensures Reachable(w')
  {
    var ws, acts :| Story(ws, acts, w);
    var ws', acts' := GoOn(ws, acts, w, a);
  }

  lemma ReachNew(spec: Spec)
    ensures Reachable(NEW_HOST.(spec := spec))
  {
    var ws, acts := Begin(spec);
  }

  /** The host is being drained and its Eviction exists. */
  function DrainBegun(spec: Spec): World {
    NEW_HOST.(spec := spec, eviction := Some(Evictions.BLANK),
              hv := NO_STATUS.(evicting := Some(EVICTING), settled := Some(SETTLED)))
  }

  lemma ReachDrainBegun(spec: Spec)
    requires Draining(spec.maintenance)
    ensures Reachable(DrainBegun(spec))
  {
    QuietIsSettled();
    ReachNew(spec);
    var w0 := NEW_HOST.(spec := spec);
    var w1 := w0.(eviction := Some(Evictions.BLANK),
                  pending := IDLE.(maint := Some(MaintWrite(false, None, Some(EVICTING), Some(SETTLED)))));
    ReachNext(w0, ReadMaintenance(QUIET), w1);
    ReachNext(w1, CommitMaintenance(true), DrainBegun(spec));
  }

  /** The final update of the Eviction is on its way. */
  function DrainEnding(spec: Spec): World {
    DrainBegun(spec).(eviction := Some(RUNNING), pending := IDLE.(eviction := Some(FINISHED)))
  }

  lemma ReachDrainEnding(spec: Spec)
    requires Draining(spec.maintenance)
    ensures Reachable(DrainEnding(spec))
  {
    ReachDrainBegun(spec);
    var w2 := DrainBegun(spec);
    var w3, w4 := w2.(pending := IDLE.(eviction := Some(RUNNING))), w2.(eviction := Some(RUNNING));
    ReachNext(w2, ASK, w3);
    ReachNext(w3, CommitEviction(true), w4);
    ReachNext(w4, ASK, DrainEnding(spec));
  }

  const MANUAL := PLAIN.(maintenance := Manual)

  /** Maintenance was called off meanwhile: everything is gone but that update. */
  const CALLED_OFF := NEW_HOST.(pending := IDLE.(eviction := Some(FINISHED)))

  lemma ReachCalledOff()
    ensures Reachable(CALLED_OFF)
  {
    ReachDrainEnding(MANUAL);
    var w5 := DrainEnding(MANUAL);
    var w6 := w5.(spec := PLAIN);
    ReachNext(w5, EditSpec(PLAIN), w6);
    var w7 := w6.(eviction := None, pending := w5.pending.(maint := Some(MaintWrite(false, None, None, None))));
    ReachNext(w6, ReadMaintenance(QUIET), w7);
    ReachNext(w7, CommitMaintenance(true), CALLED_OFF);
  }

  /** An update of an Eviction that is on its way while the object is deleted and created anew
      lands on the new object: an Eviction that was never looked at is finished in one step. */
  lemma LateUpdateFinishesNewEviction()
    ensures exists w :: && Reachable(w) && w.eviction == Some(Evictions.BLANK)
                        && Next(w, CommitEviction(true)).eviction == Some(FINISHED)
  {
    QuietIsSettled();
    ReachCalledOff();
    var w8 := CALLED_OFF;
    var w9 := w8.(spec := MANUAL);
    ReachNext(w8, EditSpec(MANUAL), w9);
    var w10 := w9.(eviction := Some(Evictions.BLANK),
                   pending := w8.pending.(maint := Some(MaintWrite(false, None, Some(EVICTING), Some(SETTLED)))));
    ReachNext(w9, ReadMaintenance(QUIET), w10);
    assert Next(w10, CommitEviction(true)).eviction == Some(FINISHED);
  }

  const TERMINATING := PLAIN.(maintenance := Termination)

  /** A terminating host that is evicted. */
  const EVICTED_HOST := DrainBegun(TERMINATING).(eviction := Some(FINISHED),
    hv := NO_STATUS.(evicted := true, evicting := Some(EVICTED), settled := Some(SETTLED)))

  lemma ReachEvictedHost()
    ensures Reachable(EVICTED_HOST)
  {
    QuietIsSettled();
    ReachDrainEnding(TERMINATING);
    var w5 := DrainEnding(TERMINATING);
    var w6 := w5.(eviction := Some(FINISHED), pending := IDLE);
    ReachNext(w5, CommitEviction(true), w6);
    var w7 := w6.(pending := IDLE.(maint := Some(MaintWrite(true, None, Some(EVICTED), Some(SETTLED)))));
    ReachNext(w6, ReadMaintenance(QUIET), w7);
    ReachNext(w7, CommitMaintenance(true), EVICTED_HOST);
  }

  /** The same host, tainted and without agent pods. */
  const CLEARED_HOST := EVICTED_HOST.(taint := true, hv := EVICTED_HOST.hv.(agentPods := Some(PodCondition(0))))

  lemma ReachTaintedHost()
    ensures Reachable(EVICTED_HOST.(taint := true))
  {
    ReachEvictedHost();
    var w8 := EVICTED_HOST;
    var w9 := w8.(pending := IDLE.(node := Some(AddTaint)));
    ReachNext(w8, ReadNode, w9);
    ReachNext(w9, CommitNode(true), w8.(taint := true));
  }

  lemma ReachClearedHost()
    ensures Reachable(CLEARED_HOST)
  {
    ReachTaintedHost();
    var w10 := EVICTED_HOST.(taint := true);
    var w11 := w10.(pending := IDLE.(pods := Some(PodCondition(0))));
    ReachNext(w10, ReadPods(PodReplies(true, Some(0))), w11);
    ReachNext(w11, CommitPods(true), CLEARED_HOST);
  }

  /** The same host terminating again after a detour through `ha`. */
  const RETURNED_HOST := CLEARED_HOST.(hv := ApplyMaint(CLEARED_HOST.hv, MaintWrite(true, None, None, None)))

  lemma ReachReturnedHost()
    ensures Reachable(RETURNED_HOST)
  {
    ReachClearedHost();
    var ha := PLAIN.(maintenance := Ha);
    var w12 := CLEARED_HOST;
    var w13 := w12.(spec := ha);
    ReachNext(w12, EditSpec(ha), w13);
    var w14 := w13.(pending := IDLE.(maint := Some(MaintWrite(true, None, None, None))));
    ReachNext(w13, ReadMaintenance(QUIET), w14);
    var w15 := RETURNED_HOST.(spec := ha);
    ReachNext(w14, CommitMaintenance(true), w15);
    ReachNext(w15, EditSpec(TERMINATING), RETURNED_HOST);
  }

  /** AgentPodsEvicted outlives a detour through `ha`. On a host without a service identifier a
      second termination can therefore delete the compute service while nothing says that the
      host is evicted. `Deletions.UnevictedDeletionExactly` says exactly when this happens. */
  lemma StalePodsAllowDeletion()
    ensures exists w, rs :: Reachable(w) && w.hv.evicting.None? && PlanOffboarding(w.hv, w.spec, rs).deletes
  {
    ReachReturnedHost();
    var w16 := RETURNED_HOST;
    var rs := OffReplies(HostIs(0, 0), true, true, true);
    var w17 := w16.(pending := IDLE.(off := Some(WAITING_OFFBOARD)));
    ReachNext(w16, ReadOffboarding(rs), w17);
    var w18 := w16.(hv := w16.hv.(offboarded := Some(WAITING_OFFBOARD)));
    ReachNext(w17, CommitOffboarding(true), w18);
    assert PlanOffboarding(w18.hv, w18.spec, rs).deletes;
  }

  /** The detour is not needed: it is enough that an instance shows up again. The finished
      Eviction is then deleted, Evicting becomes True, and AgentPodsEvicted stays. */
  lemma ReturningInstanceAllowsDeletion()
    ensures exists w, rs :: Reachable(w) && IsTrue(w.hv.evicting) && PlanOffboarding(w.hv, w.spec, rs).deletes
  {
    ReachRestartedHost();
    var w16 := RESTARTED_HOST;
    var rs := OffReplies(HostIs(0, 0), true, true, true);
    var w17 := w16.(pending := IDLE.(off := Some(WAITING_OFFBOARD)));
    ReachNext(w16, ReadOffboarding(rs), w17);
    var w18 := w16.(hv := w16.hv.(offboarded := Some(WAITING_OFFBOARD)));
    ReachNext(w17, CommitOffboarding(true), w18);
    assert PlanOffboarding(w18.hv, w18.spec, rs).deletes;
  }

  /** The same host, unknown to Nova by now, is offboarded and its node released while Evicting is
      True, Evicted is false and an instance is counted on it. */
  lemma ReleasedWhileEvicting()
    ensures exists w :: && Reachable(w) && w.budget == Some(0)
                        && IsTrue(w.hv.evicting) && !w.hv.evicted && w.hv.numInstances == 1
  {
    ReachOffboardedHost();
    var w20 := OFFBOARDED_HOST;
    var w21 := w20.(pending := IDLE.(node := Some(SetBudget(0))));
    ReachNext(w20, ReadNode, w21);
    ReachNext(w21, CommitNode(true), w20.(budget := Some(0)));
  }

  const OFFBOARDED_HOST: World := RESTARTED_HOST.(hv := RESTARTED_HOST.hv.(offboarded := Some(OFFBOARDED)))

  lemma ReachOffboardedHost()
    ensures Reachable(OFFBOARDED_HOST)
  {
    ReachRestartedHost();
    var w16 := RESTARTED_HOST;
    var rs := OffReplies(HostUnknown, true, true, true);
    var w17 := w16.(pending := IDLE.(off := Some(WAITING_OFFBOARD)));
    ReachNext(w16, ReadOffboarding(rs), w17);
    var w18 := w16.(hv := w16.hv.(offboarded := Some(WAITING_OFFBOARD)));
    ReachNext(w17, CommitOffboarding(true), w18);
    var w19 := w18.(pending := IDLE.(off := Some(OFFBOARDED)));
    ReachNext(w18, ReadOffboarding(rs), w19);
    ReachNext(w19, CommitOffboarding(true), OFFBOARDED_HOST);
  }

  const RESTARTED_HOST: World := CLEARED_HOST.(eviction := None,
    hv := ApplyMaint(CLEARED_HOST.hv, MaintWrite(false, None, Some(EVICTING), Some(SETTLED))).(numInstances := 1))

  lemma ReachRestartedHost()
    ensures Reachable(RESTARTED_HOST)
  {
    ReachClearedHost();
    var w12 := CLEARED_HOST;
    var w13 := w12.(hv := w12.hv.(numInstances := 1));
    ReachNext(w12, CountInstances(1), w13);
    var w14 := w13.(eviction := None,
                    pending := IDLE.(maint := Some(MaintWrite(false, None, Some(EVICTING), Some(SETTLED)))));
    ReachNext(w13, ReadMaintenance(QUIET), w14);
    ReachNext(w14, CommitMaintenance(true), RESTARTED_HOST);
  }

  // ---------------------------------------------------------- a late addition

  const WANTING := PLAIN.(aggregates := ["a"])

  lemma PlanWanting(hv: HvStatus)
    requires hv == NO_STATUS.(hypervisorId := "h", serviceId := "s",
                              onboarding := Some(Condition(False, Aborted, LifecycleDisabled)))
    ensures PlanAggregates(hv, WANTING, "zone", {}, AggReplies(true, ["a"], [])).calls == [Aggregates.AddTo("a")]
  {
    var names := ["a"];
    assert Aggregates.Current(names, {}) == [];
    assert Slices.NotIn([], names) == ["a"] && Slices.NotIn(names, []) == [];
    assert "a" in names && !Aggregates.Missing(names, names);
    assert !Slices.SameElements(names, []) by {
      assert multiset(names)["a"] == 1;
    }
  }

  /** Termination does not stop a reconcile of the aggregates that is under way: its addition
      takes effect on the terminating host. See `Membership.LateJoin`. */
  lemma LateCallJoins()
    ensures exists w, x :: && Reachable(w) && w.spec.maintenance.Termination?
                           && x !in w.member && x in Next(w, SendCall).member
  {
    var ws, acts, w5 := AbortEarly();
    assert Reachable(w5);
    var w6 := w5.(spec := WANTING);
    ReachNext(w5, EditSpec(WANTING), w6);
    var rs := AggReplies(true, ["a"], []);
    PlanWanting(w6.hv);
    var w7 := ReadAgg(w6, rs);
    ReachNext(w6, ReadAggregates(rs), w7);
    var last := WANTING.(maintenance := Termination);
    var w8 := w7.(spec := last);
    ReachNext(w7, EditSpec(last), w8);
    assert w8.calls[0] == PlannedCall(Aggregates.AddTo("a"), Aggregates.Done);
    assert "a" in Next(w8, SendCall).member;
  }

  // ------------------------------------------------------ a phase that falls back

  /** A host recorded with an empty hypervisor identifier, aborted. */
  const HALF_KNOWN := NEW_HOST.(hv := NO_STATUS.(serviceId := "s",
                                                 onboarding := Some(Condition(False, Aborted, LifecycleDisabled))))

  const HALF := ONB.(lookup := LookupIds("", "s"))

  lemma ReachHalfKnown()
    ensures Reachable(HALF_KNOWN)
  {
    ReachNew(PLAIN);
    var w0 := NEW_HOST;
    var initial := Some(Condition(True, Initial, Fixed));
    var w1 := w0.(pending := IDLE.(onb := Some(OnbWrite("", "s", initial))));
    ReachNext(w0, ReadOnboarding(HALF), w1);
    var w2 := w0.(hv := NO_STATUS.(serviceId := "s", onboarding := initial));
    ReachNext(w1, CommitOnboarding(true), w2);
    var off := PLAIN.(lifecycleEnabled := false);
    var w3 := w2.(spec := off);
    ReachNext(w2, EditSpec(off), w3);
    var w4 := w3.(pending := IDLE.(onb := Some(OnbWrite("", "s", Some(Condition(False, Aborted, LifecycleDisabled))))));
    ReachNext(w3, ReadOnboarding(HALF), w4);
    var w5 := HALF_KNOWN.(spec := off);
    ReachNext(w4, CommitOnboarding(true), w5);
    ReachNext(w5, EditSpec(PLAIN), HALF_KNOWN);
  }

  /** When Nova reports an empty identifier, an aborted host can fall back to the first phase. The
      exact condition is `Onboarding.ForwardExactly`. */
  lemma EmptyIdentifierFallsBack()
    ensures exists w, a :: Reachable(w) && Onboarding.PhaseAt(w).HasAborted?
              && Onboarding.PhaseAt(Next(Next(w, a), CommitOnboarding(true))).InInitial?
  {
    ReachHalfKnown();
    var w, a := HALF_KNOWN, ReadOnboarding(ONB);
    var w' := w.(pending := IDLE.(onb := Some(OnbWrite("h", "s", Some(Condition(True, Initial, Fixed))))));
    assert Next(w, a) == w';
    assert Onboarding.PhaseAt(Next(w', CommitOnboarding(true))).InInitial?;
  }
}
