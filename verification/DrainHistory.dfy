/**
 The drain seen from the whole protocol: Eviction objects come and go, updates
 of them may be lost or land late, and still every instance of the list a drain
 started from has been seen to leave before the host counts as evicted.
 */
module DrainHistory {
  import opened Basics
  import opened Hypervisors
  import opened Protocol
  import opened Offboarding
  import Drain
  import Evictions

  // --------------------------------------------------- who may change what

  lemma EvictionOwns(w: World, a: Action)
    requires !a.ReadEviction? && !a.CommitEviction?
    ensures Next(w, a).pending.eviction == w.pending.eviction
  {
  }

  /** Maintenance deletes the Eviction when it is called off or when instances are (back) on the host. */
  predicate MayDelete(w: World, a: Action) {
    && a.ReadMaintenance? && w.pending.maint.None? && a.maint.deleteOk
    && (w.spec.maintenance.NoMaintenance? || (Draining(w.spec.maintenance) && w.hv.numInstances > 0))
  }

  /** Only maintenance creates and deletes the object; apart from the Eviction controller no one
      changes it. */
  lemma EvictionReplaced(w: World, a: Action)
    requires !a.ReadEviction? && !a.CommitEviction?
    ensures var e := Next(w, a).eviction;
            e == w.eviction || if w.eviction.Some? then e.None? && MayDelete(w, a) else e == Some(Evictions.BLANK)
  {
    if a.ReadMaintenance? {
      PlanReplaces(w, a);
    } else {
      EvictionKept(w, a);
    }
  }

  lemma EvictionKept(w: World, a: Action)
    requires !a.ReadEviction? && !a.CommitEviction? && !a.ReadMaintenance?
    ensures Next(w, a).eviction == w.eviction
  {
  }

  lemma PlanReplaces(w: World, a: Action)
    requires a.ReadMaintenance?
    ensures var e := ReadMaint(w, a.maint).eviction;
            e == w.eviction || if w.eviction.Some? then e.None? && MayDelete(w, a) else e == Some(Evictions.BLANK)
  {
  }

  // ------------------------------------------------- updates and their readings

  /** Reading j of the Eviction takes effect and leads to this update. */
  ghost predicate Decides(ws: seq<World>, acts: seq<Action>, j: nat, st: Evictions.EvictionStatus) {
    && j < |acts| && j < |ws| && acts[j].ReadEviction?
    && ws[j].pending.eviction.None? && ws[j].eviction.Some?
    && Evictions.Reconcile(ws[j].eviction.value, ws[j].host, Observe(ws[j], acts[j])).write == Some(st)
  }

  /** The update has been under way since reading j. */
  ghost predicate UnderWay(ws: seq<World>, j: nat, i: nat, st: Evictions.EvictionStatus)
    requires i < |ws|
  {
    forall k :: j < k <= i ==> ws[k].pending.eviction == Some(st)
  }

  lemma UpdateStep(w: World, a: Action)
    requires Next(w, a).pending.eviction.Some? && Next(w, a).pending.eviction != w.pending.eviction
    ensures a.ReadEviction? && w.pending.eviction.None? && w.eviction.Some?
    ensures Evictions.Reconcile(w.eviction.value, w.host, Observe(w, a)).write == Next(w, a).pending.eviction
  {
    if !a.ReadEviction? && !a.CommitEviction? {
      EvictionOwns(w, a);
    }
  }

  lemma {:induction false} UpdateOrigin(ws: seq<World>, acts: seq<Action>, i: nat) returns (j: nat)
    requires IsRun(ws, acts) && i < |ws| && ws[i].pending.eviction.Some?
    ensures j < i && Decides(ws, acts, j, ws[i].pending.eviction.value)
            && UnderWay(ws, j, i, ws[i].pending.eviction.value)
  {
    var w, a := ws[i - 1], acts[i - 1];
    assert ws[i - 1 + 1] == Next(w, a);
    if ws[i].pending.eviction == w.pending.eviction {
      j := UpdateOrigin(ws, acts, i - 1);
    } else {
      UpdateStep(w, a);
      j := i - 1;
    }
  }

  /** Between j and i maintenance deleted the Eviction. */
  ghost predicate DeletedBetween(ws: seq<World>, acts: seq<Action>, j: nat, i: nat)
    requires i <= |acts| && |ws| == |acts| + 1
  {
    exists k :: j < k < i && MayDelete(ws[k], acts[k]) && ws[k].eviction.Some? && ws[k + 1].eviction.None?
  }

  lemma HeldStep(w: World, a: Action)
    requires w.pending.eviction.Some? && Next(w, a).pending.eviction.Some?
    ensures var e := Next(w, a).eviction;
            e == w.eviction || if w.eviction.Some? then e.None? && MayDelete(w, a) else e == Some(Evictions.BLANK)
  {
    if !a.ReadEviction? && !a.CommitEviction? {
      EvictionReplaced(w, a);
    }
  }

  /** While an update is under way the object stays as it was read, unless it is deleted; what
      stands in its place after that is blank. */
  lemma {:induction false} HeldUntil(ws: seq<World>, acts: seq<Action>, j: nat, i: nat, st: Evictions.EvictionStatus)
    requires IsRun(ws, acts) && j < i < |ws| && Decides(ws, acts, j, st) && UnderWay(ws, j, i, st)
    ensures !DeletedBetween(ws, acts, j, i) ==> ws[i].eviction == ws[j].eviction
    ensures DeletedBetween(ws, acts, j, i) && ws[i].eviction.Some? ==> ws[i].eviction == Some(Evictions.BLANK)
    decreases i
  {
    var w, a := ws[i - 1], acts[i - 1];
    assert ws[i - 1 + 1] == Next(w, a);
    if j < i - 1 {
      HeldUntil(ws, acts, j, i - 1, st);
      HeldStep(w, a);
      if DeletedBetween(ws, acts, j, i - 1) {
        var k :| j < k < i - 1 && MayDelete(ws[k], acts[k]) && ws[k].eviction.Some? && ws[k + 1].eviction.None?;
        assert DeletedBetween(ws, acts, j, i);
      } else if ws[i].eviction.None? {
        assert ws[i - 1].eviction.Some? && MayDelete(ws[i - 1], acts[i - 1]) && ws[i - 1 + 1].eviction.None?;
      }
    }
  }

  lemma LandsWhole(found: Evictions.EvictionStatus, st: Evictions.EvictionStatus, host: string,
                   o: Evictions.Observation)
    requires found == st || found == Evictions.BLANK
    requires Evictions.Reconcile(st, host, o).write.Some?
    ensures ApplyEviction(found, Evictions.Reconcile(st, host, o).write.value)
            == Evictions.Reconcile(st, host, o).write.value
  {
    Drain.PassKeepsVerdictSet(st.queue, st.verdict, o.nova, host, o.limit);
  }

  /** Where an update of the Eviction lands. It was worked out from the very object it lands on
      unless that one was deleted meanwhile; in that case it lands on a blank successor nobody
      has read. Either way the object takes over the update as a whole. */
  lemma UpdateLands(ws: seq<World>, acts: seq<Action>, i: nat) returns (j: nat)
    requires IsRun(ws, acts) && i < |acts| && acts[i] == CommitEviction(true)
    requires ws[i].pending.eviction.Some? && ws[i].eviction.Some?
    ensures j < i && Decides(ws, acts, j, ws[i].pending.eviction.value)
            && UnderWay(ws, j, i, ws[i].pending.eviction.value)
    ensures ws[i].eviction == if DeletedBetween(ws, acts, j, i) then Some(Evictions.BLANK) else ws[j].eviction
    ensures ws[i + 1].eviction == ws[i].pending.eviction
  {
    j := UpdateOrigin(ws, acts, i);
    HeldUntil(ws, acts, j, i, ws[i].pending.eviction.value);
    LandsWhole(ws[i].eviction.value, ws[j].eviction.value, ws[j].host, Observe(ws[j], acts[j]));
  }

  /** The Eviction stands as reading f, committed at step m, has left it. */
  ghost predicate StandsSince(ws: seq<World>, acts: seq<Action>, f: nat, m: nat, c: nat)
    requires c < |ws| == |acts| + 1 && ws[c].eviction.Some?
  {
    && f < m < c && Decides(ws, acts, f, ws[c].eviction.value) && UnderWay(ws, f, m, ws[c].eviction.value)
    && acts[m] == CommitEviction(true)
    && forall k :: m < k <= c ==> ws[k].eviction == ws[c].eviction
  }

  lemma StandsStep(w: World, a: Action)
    requires Next(w, a).eviction.Some? && Next(w, a).eviction != w.eviction
            && Next(w, a).eviction != Some(Evictions.BLANK)
    ensures a == CommitEviction(true) && w.pending.eviction.Some? && w.eviction.Some?
  {
    if !a.ReadEviction? && !a.CommitEviction? {
      EvictionReplaced(w, a);
    }
  }

  /** Every status of an Eviction but the blank one is the work of one update. */
  lemma {:induction false} StandsOrigin(ws: seq<World>, acts: seq<Action>, c: nat) returns (f: nat, m: nat)
    requires IsRun(ws, acts) && c < |ws| && ws[c].eviction.Some? && ws[c].eviction.value != Evictions.BLANK
    ensures StandsSince(ws, acts, f, m, c)
  {
    var w, a := ws[c - 1], acts[c - 1];
    assert ws[c - 1 + 1] == Next(w, a);
    if ws[c].eviction == w.eviction {
      f, m := StandsOrigin(ws, acts, c - 1);
    } else {
      StandsStep(w, a);
      m := c - 1;
      f := UpdateLands(ws, acts, m);
    }
  }

  // ------------------------------------------------- development of an object

  /** An update under way is a development of the object, if there is one. */
  ghost predicate UpdateFits(w: World) {
    w.eviction.Some? && w.pending.eviction.Some? ==>
      && !w.eviction.value.progress.Finished?
      && (w.eviction.value == Evictions.BLANK || Evictions.Evolves(w.eviction.value, w.pending.eviction.value))
  }

  lemma FitsHolds(ws: seq<World>, acts: seq<Action>, i: nat)
    requires IsRun(ws, acts) && i < |ws|
    ensures UpdateFits(ws[i])
  {
    if ws[i].pending.eviction.Some? && ws[i].eviction.Some? {
      var st := ws[i].pending.eviction.value;
      var j := UpdateOrigin(ws, acts, i);
      HeldUntil(ws, acts, j, i, st);
      Evictions.ReconcileEvolves(ws[j].eviction.value, ws[j].host, Observe(ws[j], acts[j]));
    }
  }

  lemma EvolvesStep(ws: seq<World>, acts: seq<Action>, i: nat)
    requires IsRun(ws, acts) && i < |acts| && ws[i].eviction.Some? && ws[i + 1].eviction.Some?
    ensures Evictions.Evolves(ws[i].eviction.value, ws[i + 1].eviction.value)
  {
    var w, a := ws[i], acts[i];
    assert ws[i + 1] == Next(w, a);
    FitsHolds(ws, acts, i);
    if a.CommitEviction? {
      if a.ok && w.pending.eviction.Some? {
        var _ := UpdateLands(ws, acts, i);
      }
    } else if !a.ReadEviction? {
      EvictionReplaced(w, a);
    }
  }

  /** In the whole protocol, as long as it is not deleted: a finished Eviction stays as it is, the
      queue only shrinks after the preflight, and a failure sticks while instances remain. */
  lemma {:induction false} EvolvesUntilDeleted(ws: seq<World>, acts: seq<Action>, i: nat, j: nat)
    requires IsRun(ws, acts) && i <= j < |ws| && forall k :: i <= k <= j ==> ws[k].eviction.Some?
    ensures Evictions.Evolves(ws[i].eviction.value, ws[j].eviction.value)
    decreases j
  {
    if i < j {
      EvolvesUntilDeleted(ws, acts, i, j - 1);
      EvolvesStep(ws, acts, j - 1);
      Evictions.EvolvesTransitive(ws[i].eviction.value, ws[j - 1].eviction.value, ws[j - 1 + 1].eviction.value);
    }
  }

  // -------------------------------------------------------------- accounting

  /** The pass at step k drops `u` from the queue, on evidence that it has left the host. */
  ghost predicate DropsAt(ws: seq<World>, acts: seq<Action>, k: nat, u: string) {
    && k < |acts| && k < |ws|
    && acts[k].ReadEviction? && ws[k].pending.eviction.None? && ws[k].eviction.Some?
    && u in ws[k].eviction.value.queue && Drain.Departed(acts[k].nova, ws[k].host, u)
    && var st := Evictions.Reconcile(ws[k].eviction.value, ws[k].host, Observe(ws[k], acts[k])).write;
       st.Some? && u !in st.value.queue
  }

  ghost predicate SeenLeaving(ws: seq<World>, acts: seq<Action>, p: nat, i: nat, u: string) {
    exists k :: p < k < i && DropsAt(ws, acts, k, u)
  }

  ghost predicate Accounted(ws: seq<World>, acts: seq<Action>, p: nat, i: nat, listed: seq<string>,
                            queue: seq<string>) {
    forall u :: u in listed ==> u in queue || SeenLeaving(ws, acts, p, i, u)
  }

  /** A status with a passed preflight is on record or under way. */
  predicate CarriesPassed(w: World) {
    || (w.eviction.Some? && w.eviction.value.preflight.Passed?)
    || (w.pending.eviction.Some? && w.pending.eviction.value.preflight.Passed?)
  }

  /** At step p the preflight of the Eviction passes with this list of instances: Nova's answer,
      or the old queue if the answer has no list. The host is recorded as disabled by then, unless
      it is not registered. */
  ghost predicate ListedAt(ws: seq<World>, acts: seq<Action>, p: nat, listed: seq<string>) {
    && p < |acts| && p < |ws| && acts[p].ReadEviction? && acts[p].reply.HostFound?
    && ws[p].pending.eviction.None? && ws[p].eviction.Some?
    && ws[p].eviction.value.progress.Running? && !ws[p].eviction.value.preflight.Passed?
    && (!Registered(ws[p].hv) || IsTrue(ws[p].hv.disabled))
    && listed == (if acts[p].reply.servers.Some? then acts[p].reply.servers.value else ws[p].eviction.value.queue)
    && Decides(ws, acts, p, ws[p].eviction.value.(preflight := Evictions.Passed, queue := listed))
  }

  lemma AccountedLonger(ws: seq<World>, acts: seq<Action>, p: nat, i: nat, listed: seq<string>, queue: seq<string>)
    requires Accounted(ws, acts, p, i, listed, queue)
    ensures Accounted(ws, acts, p, i + 1, listed, queue)
  {
    forall u | u in listed ensures u in queue || SeenLeaving(ws, acts, p, i + 1, u) {
      if u !in queue {
        var k :| p < k < i && DropsAt(ws, acts, k, u);
      }
    }
  }

  /** A pass at step i keeps every listed instance accounted for. */
  lemma AccountedPass(ws: seq<World>, acts: seq<Action>, p: nat, i: nat, listed: seq<string>,
                      st: Evictions.EvictionStatus)
    requires p < i && Decides(ws, acts, i, st) && st.preflight.Passed? && ws[i].eviction.value.preflight.Passed?
    requires Accounted(ws, acts, p, i, listed, ws[i].eviction.value.queue)
    ensures Accounted(ws, acts, p, i + 1, listed, st.queue)
  {
    var before := ws[i].eviction.value.queue;
    AccountedLonger(ws, acts, p, i, listed, before);
    ReconcileQueue(ws[i].eviction.value, ws[i].host, Observe(ws[i], acts[i]));
    forall u | u in listed ensures u in st.queue || SeenLeaving(ws, acts, p, i + 1, u) {
      if u in before && u !in st.queue {
        assert u in multiset(before) && u !in multiset(st.queue);
        assert DropsAt(ws, acts, i, u);
      }
    }
  }

  /** What one reconcile does to the queue. */
  lemma ReconcileQueue(st: Evictions.EvictionStatus, host: string, o: Evictions.Observation)
    requires Evictions.Reconcile(st, host, o).write.Some?
            && Evictions.Reconcile(st, host, o).write.value.preflight.Passed?
    requires st.preflight.Passed?
    ensures Drain.OnlyDeparted(st.queue, Evictions.Reconcile(st, host, o).write.value.queue, o.nova, host)
  {
    Drain.PassConserves(st.queue, st.verdict, o.nova, host, o.limit);
  }

  lemma PreflightLists(ws: seq<World>, acts: seq<Action>, p: nat, st: Evictions.EvictionStatus)
    requires Decides(ws, acts, p, st) && !ws[p].eviction.value.preflight.Passed? && st.preflight.Passed?
    ensures ListedAt(ws, acts, p, st.queue)
  {
  }

  /** From the preflight at step p on, the status st in hand at step i accounts for the listed
      instances without a break. */
  ghost predicate AccountsFor(ws: seq<World>, acts: seq<Action>, p: nat, i: nat, listed: seq<string>,
                              queue: seq<string>)
    requires i < |ws|
  {
    && p < i && ListedAt(ws, acts, p, listed) && Accounted(ws, acts, p, i, listed, queue)
    && forall k :: p < k <= i ==> CarriesPassed(ws[k])
  }

  predicate Holds(w: World, st: Evictions.EvictionStatus) {
    w.eviction == Some(st) || w.pending.eviction == Some(st)
  }

  /** Where an Eviction status that has passed its preflight comes from. */
  lemma PassedStep(w: World, a: Action, st: Evictions.EvictionStatus)
    requires st.preflight.Passed? && !Holds(w, st) && Holds(Next(w, a), st)
    ensures a.ReadEviction? || a == CommitEviction(true)
    ensures a.ReadEviction? ==> w.pending.eviction.None? && w.eviction.Some?
    ensures a.ReadEviction? ==> Evictions.Reconcile(w.eviction.value, w.host, Observe(w, a)).write == Some(st)
    ensures a.CommitEviction? ==> w.pending.eviction.Some? && w.eviction.Some?
  {
    if !a.ReadEviction? && !a.CommitEviction? {
      EvictionOwns(w, a);
      EvictionReplaced(w, a);
    }
  }

  /** In the whole protocol, with lost and late updates, every listed instance is still queued or
      has been dropped on evidence since the preflight the status goes back to. */
  lemma {:induction false} ListAccounted(ws: seq<World>, acts: seq<Action>, i: nat, st: Evictions.EvictionStatus)
      returns (p: nat, listed: seq<string>)
    requires IsRun(ws, acts) && i < |ws| && st.preflight.Passed? && Holds(ws[i], st)
    ensures AccountsFor(ws, acts, p, i, listed, st.queue)
  {
    var w, a := ws[i - 1], acts[i - 1];
    assert ws[i - 1 + 1] == Next(w, a);
    if Holds(w, st) {
      p, listed := ListAccounted(ws, acts, i - 1, st);
      AccountedLonger(ws, acts, p, i - 1, listed, st.queue);
    } else {
      PassedStep(w, a, st);
      if a.CommitEviction? {
        var _ := UpdateLands(ws, acts, i - 1);
        assert false;
      } else if w.eviction.value.preflight.Passed? {
        p, listed := ListAccounted(ws, acts, i - 1, w.eviction.value);
        assert Decides(ws, acts, i - 1, st);
        AccountedPass(ws, acts, p, i - 1, listed, st);
      } else {
        p, listed := i - 1, st.queue;
        assert Decides(ws, acts, i - 1, st);
        PreflightLists(ws, acts, p, st);
      }
    }
  }

  // ----------------------------------------------------------- finished drains

  /** How the Eviction that stands finished at step c came to its end, by reading f: Nova did not
      know the host, or the queue was empty after every instance of the preflight list had been
      dropped on evidence. */
  ghost predicate Emptied(ws: seq<World>, acts: seq<Action>, f: nat, c: nat)
    requires c < |ws| == |acts| + 1 && f < c && ws[c].eviction.Some? && acts[f].ReadEviction? && ws[f].eviction.Some?
  {
    if ws[c].eviction.value.preflight.Passed? then
      exists p: nat, listed :: && AccountsFor(ws, acts, p, f, listed, [])
                               && ws[f].eviction.value.queue == [] && ws[f].eviction.value.preflight.Passed?
    else acts[f].reply.HostMissing? && ws[f].eviction.value.progress.Running?
  }

  /** Every finished Eviction has been finished by one reading whose update was committed, and
      that reading found the host empty in this sense. */
  lemma FinishedIsEmptied(ws: seq<World>, acts: seq<Action>, c: nat)
    requires IsRun(ws, acts) && c < |ws| && ws[c].eviction.Some? && ws[c].eviction.value.progress.Finished?
    ensures exists f: nat, m: nat :: StandsSince(ws, acts, f, m, c) && Emptied(ws, acts, f, c)
  {
    var f, m := StandsOrigin(ws, acts, c);
    EndsEmpty(ws[f].eviction.value, ws[f].host, Observe(ws[f], acts[f]));
    if ws[c].eviction.value.preflight.Passed? {
      var p, listed := ListAccounted(ws, acts, f, ws[f].eviction.value);
    }
    assert Emptied(ws, acts, f, c);
  }

  /** A reconcile finishes an Eviction only in these two ways. */
  lemma EndsEmpty(st: Evictions.EvictionStatus, host: string, o: Evictions.Observation)
    requires var r := Evictions.Reconcile(st, host, o).write; r.Some? && r.value.progress.Finished?
    ensures var r := Evictions.Reconcile(st, host, o).write.value;
            && st.progress.Running?
            && if r.preflight.Passed? then st.preflight.Passed? && st.queue == [] else o.reply.HostMissing?
  {
  }

  /** End to end: when the disruption budget releases the node, the whole teardown lies behind
      it in order, and at its start the drain of the host was complete. */
  lemma ReleasedAfterDrain(ws: seq<World>, acts: seq<Action>, i: nat)
    requires IsRun(ws, acts) && i < |ws| && ws[i].budget == Some(0)
    ensures exists f: nat, m: nat, c: nat, t: nat, p: nat, o: nat, r: nat ::
              && o < r < i && Releases(ws[r], acts[r]) && (forall k :: o < k <= r ==> CarriesOffboarded(ws[k]))
              && TornDownInOrder(ws, acts, c, t, p, o)
              && StandsSince(ws, acts, f, m, c) && Emptied(ws, acts, f, c)
  {
    var r := ReleaseOrigin(ws, acts, i);
    var c, t, p, o := OffboardedAfterTeardown(ws, acts, r);
    FinishedIsEmptied(ws, acts, c);
    var f: nat, m: nat :| StandsSince(ws, acts, f, m, c) && Emptied(ws, acts, f, c);
    assert o < r < i && Releases(ws[r], acts[r]) && TornDownInOrder(ws, acts, c, t, p, o);
  }
}
