/** The host's aggregate memberships while it is being terminated. */
module Membership {
  import opened Hypervisors
  import opened Protocol
  import Aggregates
  import Onboarding

  /** Before Evicting=False a terminating host keeps its aggregates: the wanted list is the
      current one, so the comparison of the two finds nothing to do. */
  lemma NoCallsBeforeEvicted(hv: HvStatus, spec: Spec, zone: string, member: set<string>, rs: AggReplies)
    requires spec.maintenance.Termination? && !IsFalse(hv.evicting)
    ensures var p := PlanAggregates(hv, spec, zone, member, rs);
            p.calls == [] && p.member == member && (p.write.Some? ==> p.write.value.aggregates.None?)
  {
  }

  /** Afterwards only removals are sent. */
  lemma OnlyRemovalsAfterEvicted(hv: HvStatus, spec: Spec, zone: string, member: set<string>, rs: AggReplies)
    requires spec.maintenance.Termination? && IsFalse(hv.evicting)
    ensures var p := PlanAggregates(hv, spec, zone, member, rs);
            p.member <= member && forall k :: 0 <= k < |p.calls| ==> p.calls[k].RemoveFrom?
  {
    Aggregates.ClearingOnlyRemoves(rs.names, member, rs.calls);
  }

  // ------------------------------------------------------------- single steps

  lemma MemberStep(w: World, a: Action)
    requires !a.MoveMember? && !a.SendCall?
    ensures Next(w, a).member == w.member
  {
  }

  lemma CallsStep(w: World, a: Action)
    requires !a.ReadAggregates? && !a.SendCall? && !a.CommitAggregates?
    ensures Next(w, a).calls == w.calls && Next(w, a).pending.agg == w.pending.agg
  {
    AggregatesOwnsPending(w, a);
  }

  /** This call is outstanding and will take effect. */
  ghost predicate Outstanding(w: World, c: Aggregates.Call) {
    exists p :: p in w.calls && p.call == c && !p.reply.Rejected?
  }

  /** Exactly when a step makes the host join an aggregate, unless somebody else moves it: the
      next outstanding call adds it and takes effect. */
  lemma JoinsExactly(w: World, a: Action, x: string)
    requires !a.MoveMember? && x !in w.member
    ensures x in Next(w, a).member
            <==> a.SendCall? && w.calls != [] && w.calls[0].call == Aggregates.AddTo(x) && !w.calls[0].reply.Rejected?
  {
    if !a.SendCall? {
      MemberStep(w, a);
    }
  }

  /** What a reading of a terminating host plans: removals, and before Evicting=False nothing. */
  lemma TerminatingCalls(w: World, rs: AggReplies)
    requires w.spec.maintenance.Termination? && w.pending.agg.None?
    ensures forall p :: p in ReadAgg(w, rs).calls ==> p.call.RemoveFrom?
    ensures !IsFalse(w.hv.evicting) ==> ReadAgg(w, rs).calls == []
  {
    if IsFalse(w.hv.evicting) {
      OnlyRemovalsAfterEvicted(w.hv, w.spec, w.zone, w.member, rs);
    } else {
      NoCallsBeforeEvicted(w.hv, w.spec, w.zone, w.member, rs);
    }
  }

  // ----------------------------------------------------- stretches of termination

  /** No one outside this operator moves the host between aggregates from step i to step j. */
  ghost predicate LeftAlone(acts: seq<Action>, i: nat, j: nat)
    requires i <= j <= |acts|
  {
    forall k :: i <= k < j ==> !acts[k].MoveMember?
  }

  ghost predicate Terminating(ws: seq<World>, i: nat, j: nat)
    requires i <= j <= |ws|
  {
    forall k :: i <= k < j ==> ws[k].spec.maintenance.Termination?
  }

  ghost predicate NotEvicted(ws: seq<World>, i: nat, j: nat)
    requires i <= j <= |ws|
  {
    forall k :: i <= k < j ==> !IsFalse(ws[k].hv.evicting)
  }

  /** From w on: additions are those outstanding at w; if `all`, so are removals. */
  ghost predicate OnlyLeftovers(w: World, w': World, all: bool) {
    && (forall p :: p in w'.calls && (all || p.call.AddTo?) ==> p in w.calls)
    && (forall x :: x in w'.member && x !in w.member ==> Outstanding(w, Aggregates.AddTo(x)))
    && (all ==> forall x :: x in w.member && x !in w'.member ==> Outstanding(w, Aggregates.RemoveFrom(x)))
  }

  lemma LeftoversStep(w0: World, w: World, a: Action, all: bool)
    requires OnlyLeftovers(w0, w, all) && w.spec.maintenance.Termination? && !a.MoveMember?
    requires all ==> !IsFalse(w.hv.evicting)
    ensures OnlyLeftovers(w0, Next(w, a), all)
  {
    if a.SendCall? {
      LeftoversSend(w0, w, all);
    } else {
      MemberStep(w, a);
      if a.ReadAggregates? {
        if w.pending.agg.None? {
          TerminatingCalls(w, a.agg);
        }
      } else if !a.CommitAggregates? {
        CallsStep(w, a);
      }
    }
  }

  lemma LeftoversSend(w0: World, w: World, all: bool)
    requires OnlyLeftovers(w0, w, all)
    ensures OnlyLeftovers(w0, SendNext(w), all)
  {
    if w.calls != [] {
      var p := w.calls[0];
      assert p in w.calls;
      if !p.reply.Rejected? && (all || p.call.AddTo?) {
        assert Outstanding(w0, p.call);
      }
    }
  }

  lemma {:induction false} LeftoversOnly(ws: seq<World>, acts: seq<Action>, i: nat, j: nat, all: bool)
    requires IsRun(ws, acts) && i <= j <= |acts| && LeftAlone(acts, i, j) && Terminating(ws, i, j)
    requires all ==> NotEvicted(ws, i, j)
    ensures OnlyLeftovers(ws[i], ws[j], all)
    decreases j
  {
    if i < j {
      LeftoversOnly(ws, acts, i, j - 1, all);
      assert ws[j - 1 + 1] == Next(ws[j - 1], acts[j - 1]);
      LeftoversStep(ws[i], ws[j - 1], acts[j - 1], all);
    }
  }

  /** Over any stretch of termination the host joins only aggregates that a call outstanding at
      its beginning adds, and until Evicting=False it leaves only such that an outstanding call
      removes. With no reconcile under way at the beginning it joins none, and leaves none until
      Evicting=False. */
  lemma TerminationOnlyLeaves(ws: seq<World>, acts: seq<Action>, i: nat, j: nat)
    requires IsRun(ws, acts) && i <= j <= |acts| && LeftAlone(acts, i, j) && Terminating(ws, i, j)
    ensures forall x :: x in ws[j].member && x !in ws[i].member ==> Outstanding(ws[i], Aggregates.AddTo(x))
    ensures NotEvicted(ws, i, j) ==>
              forall x :: x in ws[i].member && x !in ws[j].member ==> Outstanding(ws[i], Aggregates.RemoveFrom(x))
    ensures ws[i].calls == [] ==> ws[j].member <= ws[i].member
    ensures ws[i].calls == [] && NotEvicted(ws, i, j) ==> ws[j].member == ws[i].member
  {
    LeftoversOnly(ws, acts, i, j, false);
    if NotEvicted(ws, i, j) {
      LeftoversOnly(ws, acts, i, j, true);
    }
  }

  // ------------------------------------------------------------- late additions

  /** Reading r of the aggregates takes effect, and from then on its update has been under way. */
  ghost predicate ReconcilesSince(ws: seq<World>, acts: seq<Action>, r: nat, i: nat)
    requires i < |ws| == |acts| + 1
  {
    && r < i && acts[r].ReadAggregates? && ws[r].pending.agg.None?
    && forall k :: r < k <= i ==> ws[k].pending.agg.Some?
  }

  predicate CallsPending(w: World) { w.calls != [] ==> w.pending.agg.Some? }

  lemma CallsPendingStep(w: World, a: Action)
    requires CallsPending(w)
    ensures CallsPending(Next(w, a))
  {
    if !a.ReadAggregates? && !a.SendCall? && !a.CommitAggregates? {
      CallsStep(w, a);
    }
  }

  lemma {:induction false} CallsPendingHolds(ws: seq<World>, acts: seq<Action>, i: nat)
    requires IsRun(ws, acts) && i < |ws|
    ensures CallsPending(ws[i])
  {
    if i > 0 {
      CallsPendingHolds(ws, acts, i - 1);
      CallsPendingStep(ws[i - 1], acts[i - 1]);
      assert ws[i - 1 + 1] == Next(ws[i - 1], acts[i - 1]);
    }
  }

  /** How the outstanding calls come about: an effective reading planned them, or they were
      outstanding before. */
  lemma CallsFrom(w: World, a: Action, p: PlannedCall)
    requires CallsPending(w) && p in Next(w, a).calls
    ensures Next(w, a).pending.agg.Some?
    ensures (p in w.calls && w.pending.agg.Some?)
            || (a.ReadAggregates? && w.pending.agg.None? && p in ReadAgg(w, a.agg).calls)
  {
    CallsPendingStep(w, a);
    if !a.ReadAggregates? && !a.SendCall? && !a.CommitAggregates? {
      CallsStep(w, a);
    }
  }

  lemma {:induction false} CallOrigin(ws: seq<World>, acts: seq<Action>, i: nat, p: PlannedCall) returns (r: nat)
    requires IsRun(ws, acts) && i < |ws| && p in ws[i].calls
    ensures ReconcilesSince(ws, acts, r, i) && p in ReadAgg(ws[r], acts[r].agg).calls
  {
    assert i > 0;
    var w, a := ws[i - 1], acts[i - 1];
    assert ws[i - 1 + 1] == Next(w, a);
    CallsPendingHolds(ws, acts, i - 1);
    CallsFrom(w, a, p);
    if p in w.calls && w.pending.agg.Some? {
      r := CallOrigin(ws, acts, i - 1, p);
    } else {
      r := i - 1;
    }
  }

  /** A terminating host joins an aggregate only by a call of a reconcile that read it before
      termination and has been under way since. */
  lemma LateJoin(ws: seq<World>, acts: seq<Action>, i: nat, x: string)
    requires IsRun(ws, acts) && i < |acts| && ws[i].spec.maintenance.Termination? && !acts[i].MoveMember?
    requires x !in ws[i].member && x in ws[i + 1].member
    ensures acts[i].SendCall?
    ensures exists r :: && 0 <= r < i && ReconcilesSince(ws, acts, r, i) && !ws[r].spec.maintenance.Termination?
                        && exists p :: p in ReadAgg(ws[r], acts[r].agg).calls && p.call == Aggregates.AddTo(x)
  {
    assert ws[i + 1] == Next(ws[i], acts[i]);
    JoinsExactly(ws[i], acts[i], x);
    var p := ws[i].calls[0];
    assert p in ws[i].calls;
    var r := CallOrigin(ws, acts, i, p);
    if ws[r].spec.maintenance.Termination? {
      TerminatingCalls(ws[r], acts[r].agg);
    }
  }

  // ------------------------------------------------------- what leftovers lead to

  /** When the calls outstanding at w have been sent, the host is in x exactly if it was, or if one
      of them adds it; with none that removes x. Likewise for leaving, with none that adds x. So a
      host does join, during termination too, whatever an outstanding addition is about. */
  lemma {:induction false} LeftoversExactly(w: World, x: string)
    ensures !Outstanding(w, Aggregates.RemoveFrom(x)) ==>
              (x in Onboarding.AllSent(w).member <==> x in w.member || Outstanding(w, Aggregates.AddTo(x)))
    ensures !Outstanding(w, Aggregates.AddTo(x)) ==>
              (x in Onboarding.AllSent(w).member <==> x in w.member && !Outstanding(w, Aggregates.RemoveFrom(x)))
    decreases |w.calls|
  {
    if w.calls != [] {
      LeftoversExactly(SendNext(w), x);
      OutstandingNext(w, Aggregates.AddTo(x));
      OutstandingNext(w, Aggregates.RemoveFrom(x));
    }
  }

  lemma OutstandingNext(w: World, c: Aggregates.Call)
    requires w.calls != []
    ensures Outstanding(w, c) <==> (w.calls[0].call == c && !w.calls[0].reply.Rejected?) || Outstanding(SendNext(w), c)
  {
    assert w.calls[0] in w.calls;
    assert forall p :: p in w.calls <==> p == w.calls[0] || p in w.calls[1..];
  }

  // ------------------------------------------------------- undisturbed reconciles

  lemma {:induction false} SentFrom(w: World, member: set<string>, calls: seq<Aggregates.Call>,
                                    replies: seq<Aggregates.CallReply>, k: nat)
    requires k <= |calls| && w.calls == Outcomes(calls, replies)[k..]
    requires w.member == Aggregates.MemberAfter(member, calls, replies, k)
    ensures Onboarding.AllSent(w).member == Aggregates.MemberAfter(member, calls, replies, |calls|)
    decreases |calls| - k
  {
    if k < |calls| {
      assert w.calls[1..] == Outcomes(calls, replies)[k + 1..];
      SentFrom(SendNext(w), member, calls, replies, k + 1);
    }
  }

  /** Sent one after the other with nothing in between, the calls have the planned effect. */
  lemma SentAsPlanned(w: World, rs: AggReplies)
    requires w.pending.agg.None?
    ensures Onboarding.AllSent(ReadAgg(w, rs)).member == PlanAggregates(w.hv, w.spec, w.zone, w.member, rs).member
  {
    var p := PlanAggregates(w.hv, w.spec, w.zone, w.member, rs);
    assert Outcomes(p.calls, rs.calls)[0..] == Outcomes(p.calls, rs.calls);
    SentFrom(ReadAgg(w, rs), w.member, p.calls, rs.calls, 0);
  }
}
