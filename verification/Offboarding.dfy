/** The order in which a host is taken apart, across five controllers. */
module Offboarding {
  import opened Basics
  import opened Hypervisors
  import opened Protocol
  import opened DrainSafety

  // The stages, as properties of a state that some controller read.

  predicate Evicted(w: World) { w.spec.maintenance.Termination? && IsFalse(w.hv.evicting) }

  predicate TaintedAndEvicted(w: World) { Evicted(w) && w.taint }

  predicate PodsGone(w: World) { w.spec.maintenance.Termination? && IsTrue(w.hv.agentPods) }

  predicate IsOffboarded(w: World) { IsTrue(w.hv.offboarded) }

  /** Offboarded, and high availability is off if an onboarded node is going away. */
  predicate MayRelease(w: World) {
    IsOffboarded(w) && (IsFalse(w.hv.onboarding) && w.nodeTerminating ==> IsFalse(w.hv.haEnabled))
  }

  // What each stage leaves behind, committed or still pending.

  predicate CarriesTaint(w: World) { w.taint || w.pending.node == Some(AddTaint) }

  predicate CarriesPodsGone(w: World) { IsTrue(w.hv.agentPods) || IsTrue(w.pending.pods) }

  predicate CarriesOffboarded(w: World) { IsTrue(w.hv.offboarded) || IsTrue(w.pending.off) || w.serviceDeleted }

  predicate CarriesRelease(w: World) { w.budget == Some(0) || w.pending.node == Some(SetBudget(0)) }

  // The readings that begin a stage. Each of them takes effect: its controller has no other
  // update under way.

  predicate MarksNode(w: World, a: Action) { a.ReadNode? && w.pending.node.None? && Evicted(w) }

  predicate FindsPodsGone(w: World, a: Action) {
    a.ReadPods? && w.pending.pods.None? && a.pods.blocking == Some(0) && TaintedAndEvicted(w)
  }

  predicate FindsHostFree(w: World, a: Action) {
    && a.ReadOffboarding? && w.pending.off.None? && PodsGone(w)
    && var p := PlanOffboarding(w.hv, w.spec, a.off); p.deletes || IsTrue(p.write)
  }

  predicate Releases(w: World, a: Action) { a.ReadNode? && w.pending.node.None? && MayRelease(w) }

  lemma TaintStep(w: World, a: Action)
    requires !CarriesTaint(w) && CarriesTaint(Next(w, a))
    ensures MarksNode(w, a)
  {
    NodeOwns(w, a);
  }

  lemma PodsStep(w: World, a: Action)
    requires !CarriesPodsGone(w) && CarriesPodsGone(Next(w, a))
    ensures FindsPodsGone(w, a)
  {
    PodsOwns(w, a);
  }

  lemma OffboardedStep(w: World, a: Action)
    requires !CarriesOffboarded(w) && CarriesOffboarded(Next(w, a))
    ensures FindsHostFree(w, a)
  {
    OffboardingOwns(w, a);
  }

  lemma ReleaseStep(w: World, a: Action)
    requires !CarriesRelease(w) && CarriesRelease(Next(w, a))
    ensures Releases(w, a)
  {
    NodeOwns(w, a);
  }

  // What a stage leaves behind was there ever since the reading that began it.

  lemma {:induction false} TaintOrigin(ws: seq<World>, acts: seq<Action>, i: nat) returns (j: nat)
    requires IsRun(ws, acts) && i < |ws| && CarriesTaint(ws[i])
    ensures j < i && MarksNode(ws[j], acts[j])
    ensures forall k :: j < k <= i ==> CarriesTaint(ws[k])
  {
    assert ws[i - 1 + 1] == Next(ws[i - 1], acts[i - 1]);
    if CarriesTaint(ws[i - 1]) {
      j := TaintOrigin(ws, acts, i - 1);
    } else {
      TaintStep(ws[i - 1], acts[i - 1]);
      j := i - 1;
    }
  }

  lemma {:induction false} PodsOrigin(ws: seq<World>, acts: seq<Action>, i: nat) returns (j: nat)
    requires IsRun(ws, acts) && i < |ws| && CarriesPodsGone(ws[i])
    ensures j < i && FindsPodsGone(ws[j], acts[j])
    ensures forall k :: j < k <= i ==> CarriesPodsGone(ws[k])
  {
    assert ws[i - 1 + 1] == Next(ws[i - 1], acts[i - 1]);
    if CarriesPodsGone(ws[i - 1]) {
      j := PodsOrigin(ws, acts, i - 1);
    } else {
      PodsStep(ws[i - 1], acts[i - 1]);
      j := i - 1;
    }
  }

  lemma {:induction false} OffboardedOrigin(ws: seq<World>, acts: seq<Action>, i: nat) returns (j: nat)
    requires IsRun(ws, acts) && i < |ws| && CarriesOffboarded(ws[i])
    ensures j < i && FindsHostFree(ws[j], acts[j])
    ensures forall k :: j < k <= i ==> CarriesOffboarded(ws[k])
  {
    assert ws[i - 1 + 1] == Next(ws[i - 1], acts[i - 1]);
    if CarriesOffboarded(ws[i - 1]) {
      j := OffboardedOrigin(ws, acts, i - 1);
    } else {
      OffboardedStep(ws[i - 1], acts[i - 1]);
      j := i - 1;
    }
  }

  lemma {:induction false} ReleaseOrigin(ws: seq<World>, acts: seq<Action>, i: nat) returns (j: nat)
    requires IsRun(ws, acts) && i < |ws| && CarriesRelease(ws[i])
    ensures j < i && Releases(ws[j], acts[j])
    ensures forall k :: j < k <= i ==> CarriesRelease(ws[k])
  {
    assert ws[i - 1 + 1] == Next(ws[i - 1], acts[i - 1]);
    if CarriesRelease(ws[i - 1]) {
      j := ReleaseOrigin(ws, acts, i - 1);
    } else {
      ReleaseStep(ws[i - 1], acts[i - 1]);
      j := i - 1;
    }
  }

  /** The readings of an orderly teardown, in order: maintenance clears the host (c), the evicted
      node is marked (t), no agent pods are left on the marked node (p), the host is found free
      (o). What each of them established held until the next one. */
  ghost predicate TornDownInOrder(ws: seq<World>, acts: seq<Action>, c: nat, t: nat, p: nat, o: nat)
    requires |ws| == |acts| + 1
  {
    && c < t < p < o < |acts|
    && Clears(ws[c], acts[c]) && MarksNode(ws[t], acts[t])
    && FindsPodsGone(ws[p], acts[p]) && FindsHostFree(ws[o], acts[o])
    && (forall k :: c < k <= t ==> CarriesEvicted(ws[k]))
    && (forall k :: t < k <= p ==> CarriesTaint(ws[k]))
    && (forall k :: p < k <= o ==> CarriesPodsGone(ws[k]))
  }

  /** The compute service is deleted, or Offboarded recorded, only after all four of them. This
      includes hosts without a service identifier. */
  lemma OffboardedAfterTeardown(ws: seq<World>, acts: seq<Action>, i: nat) returns (c: nat, t: nat, p: nat, o: nat)
    requires IsRun(ws, acts) && i < |ws| && CarriesOffboarded(ws[i])
    ensures o < i && TornDownInOrder(ws, acts, c, t, p, o)
    ensures forall k :: o < k <= i ==> CarriesOffboarded(ws[k])
  {
    o := OffboardedOrigin(ws, acts, i);
    p := PodsOrigin(ws, acts, o);
    t := TaintOrigin(ws, acts, p);
    c := EvictedOrigin(ws, acts, t);
  }

  /** Offboarded is never taken back. */
  lemma {:induction false} OffboardedIsFinal(ws: seq<World>, acts: seq<Action>, i: nat, j: nat)
    requires IsRun(ws, acts) && i <= j < |ws| && IsOffboarded(ws[i])
    ensures IsOffboarded(ws[j])
    decreases j
  {
    if i < j {
      OffboardedIsFinal(ws, acts, i, j - 1);
      OffInvariant(ws, acts, j - 1);
      UndisputedStep(ws[j - 1], acts[j - 1]);
      assert ws[j - 1 + 1] == Next(ws[j - 1], acts[j - 1]);
    }
  }

  /** No update of Offboarded is under way once it is True. */
  predicate Undisputed(w: World) { IsOffboarded(w) ==> w.pending.off.None? }

  lemma UndisputedStep(w: World, a: Action)
    requires Undisputed(w)
    ensures Undisputed(Next(w, a))
    ensures IsOffboarded(w) ==> IsOffboarded(Next(w, a))
  {
  }

  lemma {:induction false} OffInvariant(ws: seq<World>, acts: seq<Action>, i: nat)
    requires IsRun(ws, acts) && i < |ws|
    ensures Undisputed(ws[i])
  {
    if i > 0 {
      OffInvariant(ws, acts, i - 1);
      UndisputedStep(ws[i - 1], acts[i - 1]);
      assert ws[i - 1 + 1] == Next(ws[i - 1], acts[i - 1]);
    }
  }

  /** Only an offboarded node is released, and no other budget is under way for a released one. */
  predicate ReleaseSettled(w: World) {
    && (CarriesRelease(w) ==> IsOffboarded(w))
    && (w.budget == Some(0) && w.pending.node.Some? ==> w.pending.node.value in {AddTaint, SetBudget(0)})
  }

  lemma ReleaseSettledStep(w: World, a: Action)
    requires Undisputed(w) && ReleaseSettled(w)
    ensures ReleaseSettled(Next(w, a))
    ensures w.budget == Some(0) ==> Next(w, a).budget == Some(0)
  {
    UndisputedStep(w, a);
    NodeOwns(w, a);
  }

  lemma {:induction false} ReleaseSettledHolds(ws: seq<World>, acts: seq<Action>, i: nat)
    requires IsRun(ws, acts) && i < |ws|
    ensures ReleaseSettled(ws[i])
  {
    if i > 0 {
      ReleaseSettledHolds(ws, acts, i - 1);
      OffInvariant(ws, acts, i - 1);
      ReleaseSettledStep(ws[i - 1], acts[i - 1]);
      assert ws[i - 1 + 1] == Next(ws[i - 1], acts[i - 1]);
    }
  }

  /** A released node stays released. */
  lemma {:induction false} ReleaseIsFinal(ws: seq<World>, acts: seq<Action>, i: nat, j: nat)
    requires IsRun(ws, acts) && i <= j < |ws| && ws[i].budget == Some(0)
    ensures ws[j].budget == Some(0)
    decreases j
  {
    if i < j {
      ReleaseIsFinal(ws, acts, i, j - 1);
      OffInvariant(ws, acts, j - 1);
      ReleaseSettledHolds(ws, acts, j - 1);
      ReleaseSettledStep(ws[j - 1], acts[j - 1]);
      assert ws[j - 1 + 1] == Next(ws[j - 1], acts[j - 1]);
    }
  }
}
