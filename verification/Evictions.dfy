/**
 The Eviction object: its status, one reconcile of it as a function of what the
 controller observes, and what holds over every run of that controller.
 */
module Evictions {
  import opened Basics
  import opened Drain
  import opened DrainShape

  /** The Evicting condition of an Eviction: absent, True, or False with its reason. */
  datatype Progress = New | Running | Finished(succeeded: bool)

  /** The PreflightChecksSucceeded condition: absent, False or True. */
  datatype Preflight = NotChecked | Blocked | Passed

  datatype EvictionStatus = EvictionStatus(progress: Progress, preflight: Preflight, verdict: Verdict,
                                           queue: seq<string>)

  const BLANK := EvictionStatus(New, NotChecked, Unset, [])

  /** Nova's answer to the lookup of the hypervisor with its servers. */
  datatype HostReply = HostError | HostMissing | HostFound(servers: Option<seq<string>>)

  /** What one reconcile observes. `registered` and `disabled` come from the Hypervisor
      object: both Nova identifiers are set, and HypervisorDisabled is True. */
  datatype Observation = Observation(registered: bool, disabled: bool, reply: HostReply, nova: Nova, limit: int)

  /** The status to persist (None when nothing is written) and the migrations started. */
  datatype Outcome = Outcome(write: Option<EvictionStatus>, started: seq<Candidate>)

  function CheckPreflight(st: EvictionStatus, o: Observation): Option<EvictionStatus> {
    if o.registered && !o.disabled then
      if st.preflight.Blocked? then None else Some(st.(preflight := Blocked))
    else
      match o.reply
      case HostError => None
      case HostMissing => Some(st.(progress := Finished(!o.registered)))
      case HostFound(servers) =>
        Some(st.(preflight := Passed, queue := if servers.Some? then servers.value else st.queue))
  }

  function Reconcile(st: EvictionStatus, host: string, o: Observation): Outcome {
    match st.progress
    case New => Outcome(Some(st.(progress := Running)), [])
    case Finished(_) => Outcome(None, [])
    case Running =>
      if !st.preflight.Passed? then Outcome(CheckPreflight(st, o), [])
      else if st.queue != [] then
        var p := RunPass(st.queue, st.verdict, o.nova, host, o.limit);
        Outcome(Some(st.(queue := p.queue, verdict := p.verdict)), p.started)
      else Outcome(Some(st.(progress := Finished(true))), [])
  }

  // ---------------------------------------------------------------- runs

  /** One event: a reconcile whose status update either lands or is lost. */
  datatype Event = Event(seen: Observation, persisted: bool)

  function Step(st: EvictionStatus, host: string, e: Event): EvictionStatus {
    var w := Reconcile(st, host, e.seen).write;
    if e.persisted && w.Some? then w.value else st
  }

  ghost predicate IsRun(states: seq<EvictionStatus>, events: seq<Event>, host: string) {
    && |states| == |events| + 1
    && forall i :: 0 <= i < |events| ==> states[i + 1] == Step(states[i], host, events[i])
  }

  /** A finished Eviction never changes again. */
  lemma {:induction false} FinishedIsFinal(states: seq<EvictionStatus>, events: seq<Event>, host: string, i: nat,
                                           j: nat)
    requires IsRun(states, events, host) && i <= j < |states|
    requires states[i].progress.Finished?
    ensures states[j] == states[i]
    decreases j
  {
    if i < j {
      FinishedIsFinal(states, events, host, i, j - 1);
      assert states[j - 1 + 1] == Step(states[j - 1], host, events[j - 1]);
    }
  }

  /** Once the preflight has passed it stays passed and the queue never gains an instance. */
  lemma {:induction false} QueueOnlyShrinks(states: seq<EvictionStatus>, events: seq<Event>, host: string, i: nat,
                                            j: nat)
    requires IsRun(states, events, host) && i <= j < |states|
    requires states[i].preflight.Passed?
    ensures states[j].preflight.Passed?
    ensures multiset(states[j].queue) <= multiset(states[i].queue)
    decreases j
  {
    if i < j {
      QueueOnlyShrinks(states, events, host, i, j - 1);
      var st, o := states[j - 1], events[j - 1].seen;
      assert states[j - 1 + 1] == Step(st, host, events[j - 1]);
      PassConserves(st.queue, st.verdict, o.nova, host, o.limit);
    }
  }

  /** A recorded migration failure stays recorded in every later state that still
      has outstanding instances. */
  lemma {:induction false} FailureIsSticky(states: seq<EvictionStatus>, events: seq<Event>, host: string, i: nat,
                                           j: nat)
    requires IsRun(states, events, host) && i <= j < |states|
    requires states[i].verdict.Failed?
    ensures states[j].verdict.Failed? || (states[j].preflight.Passed? && states[j].queue == [])
    decreases j
  {
    if i < j {
      FailureIsSticky(states, events, host, i, j - 1);
      var st, o := states[j - 1], events[j - 1].seen;
      assert states[j - 1 + 1] == Step(st, host, events[j - 1]);
      if st.verdict.Failed? {
        PassKeepsFailure(st.queue, o.nova, host, o.limit);
      }
    }
  }

  // ------------------------------------------------------------- preflight

  /** No preflight passes, and no drain starts, while a registered host is not recorded as
      disabled: the Eviction is marked as blocked, once, and otherwise stays as it is. */
  lemma EnabledHostBlocks(st: EvictionStatus, host: string, o: Observation)
    requires st.progress.Running? && !st.preflight.Passed? && o.registered && !o.disabled
    ensures Reconcile(st, host, o)
            == Outcome(if st.preflight == Blocked then None else Some(st.(preflight := Blocked)), [])
  {
  }

  /** What Nova's answer leads to otherwise: the list of servers becomes the queue, an unknown host
      ends the Eviction (as succeeded only if it is not registered), an error changes nothing. */
  lemma PreflightExactly(st: EvictionStatus, host: string, o: Observation)
    requires st.progress.Running? && !st.preflight.Passed? && (!o.registered || o.disabled)
    ensures var r := Reconcile(st, host, o);
            && r.started == []
            && (r.write.Some? && r.write.value.preflight.Passed? <==> o.reply.HostFound?)
            && (r.write.Some? && r.write.value.progress.Finished? <==> o.reply.HostMissing?)
            && (r.write.None? <==> o.reply == HostError)
            && (o.reply.HostMissing? ==> r.write.value == st.(progress := Finished(!o.registered)))
            && (o.reply.HostFound? ==> r.write.value.progress == Running && r.write.value.verdict == st.verdict)
            && (o.reply.HostFound? && o.reply.servers.Some? ==> r.write.value.queue == o.reply.servers.value)
            && (o.reply == HostFound(None) ==> r.write.value.queue == st.queue)
  {
  }

  /** After a passed preflight: an empty queue ends the Eviction, anything else takes a pass. */
  lemma DrainExactly(st: EvictionStatus, host: string, o: Observation)
    requires st.progress.Running? && st.preflight.Passed?
    ensures var r := Reconcile(st, host, o);
            && r.write.Some? && r.write.value.preflight.Passed?
            && (st.queue == [] ==> r == Outcome(Some(st.(progress := Finished(true))), []))
            && (st.queue != [] ==> r.write.value.progress == Running)
            && (st.queue != [] ==>
                  var p := RunPass(st.queue, st.verdict, o.nova, host, o.limit);
                  r.started == p.started && r.write.value.queue == p.queue && r.write.value.verdict == p.verdict)
  {
  }

  /** The first reconcile only marks the Eviction as running. */
  lemma StartsRunning(st: EvictionStatus, host: string, o: Observation)
    requires st.progress.New?
    ensures Reconcile(st, host, o) == Outcome(Some(st.(progress := Running)), [])
  {
  }

  // ------------------------------------------------------------ step relation

  /** Failed, or drained. */
  predicate Sticks(st: EvictionStatus) { st.verdict.Failed? || (st.preflight.Passed? && st.queue == []) }

  /** How a status may develop: a finished one not at all; once the preflight has passed the
      queue only shrinks; a failure stays on record while instances are outstanding. */
  ghost predicate Evolves(before: EvictionStatus, after: EvictionStatus) {
    && (before.progress.Finished? ==> after == before)
    && (before.preflight.Passed? ==> after.preflight.Passed? && multiset(after.queue) <= multiset(before.queue))
    && (Sticks(before) ==> Sticks(after))
  }

  lemma ReconcileEvolves(st: EvictionStatus, host: string, o: Observation)
    ensures Reconcile(st, host, o).write.Some? ==> Evolves(st, Reconcile(st, host, o).write.value)
  {
    PassConserves(st.queue, st.verdict, o.nova, host, o.limit);
    if st.verdict.Failed? {
      PassKeepsFailure(st.queue, o.nova, host, o.limit);
    }
  }

  lemma EvolvesTransitive(a: EvictionStatus, b: EvictionStatus, c: EvictionStatus)
    requires Evolves(a, b) && Evolves(b, c)
    ensures Evolves(a, c)
  {
  }

  /** The smallest queue on which `DrainShape.VanishedCountsAsFailure` bites: an instance that
      vanishes between its lookup and the trigger is dropped, yet leaves the Eviction marked as
      failed because another instance is outstanding. */
  lemma LateVanishingCountsAsFailure(a: string, b: string, nova: Nova, host: string)
    requires a != b && nova.Trigger(a).NotFound?
    requires Movable(nova, host, a) && b !in nova.flaky && b in nova.servers && Underway(nova.servers[b])
    ensures var p := RunPass([a, b], Unset, nova, host, 2);
            p.queue == [b] && p.verdict == Failed
  {
    var queue := [a, b];
    assert queue[1..] == [b] && [b][1..] == [] && [a][1..] == [];
    assert Inspected(queue, nova, host, 2) == queue by {
      assert Inspected([b], nova, host, 2) == [b];
    }
    assert Occupied(queue, nova, host) == 1 by {
      assert Occupied([b], nova, host) == 1;
    }
    assert HealthyOf(queue, nova, host) == [a] by {
      assert HealthyOf([b], nova, host) == [] + HealthyOf([], nova, host) == [];
      assert HealthyOf(queue, nova, host) == [a] + HealthyOf([b], nova, host);
    }
    assert Attempted([a], nova, 1) == [a] + Attempted([], nova, 1) == [a];
    VanishedCountsAsFailure(queue, Unset, nova, host, 2, a);
    PassConserves(queue, Unset, nova, host, 2);
    OnlyRemains(a, b, RunPass(queue, Unset, nova, host, 2).queue, nova, host);
  }

  lemma OnlyRemains(a: string, b: string, after: seq<string>, nova: Nova, host: string)
    requires a != b && OnlyDeparted([a, b], after, nova, host) && a !in after && !Departed(nova, host, b)
    ensures after == [b]
  {
    forall u ensures multiset(after)[u] == multiset{b}[u] {
      assert multiset(after)[u] <= multiset([a, b])[u];
      assert a !in multiset(after);
    }
    assert multiset(after) == multiset{b};
    assert |after| == |multiset(after)| == 1;
    assert after[0] in multiset(after);
  }

  // ------------------------------------------------------ departure witnesses

  /** Event k saw evidence that `u` had left the host. */
  ghost predicate Witnessed(events: seq<Event>, host: string, from: nat, to: nat, u: string)
    requires to <= |events|
  {
    exists k :: from <= k < to && Departed(events[k].seen.nova, host, u)
  }

  /** Event p is the preflight that passed, with `snapshot` the servers Nova listed
      (the queue is left alone when Nova's answer has no server list). */
  ghost predicate PreflightAt(states: seq<EvictionStatus>, events: seq<Event>, p: nat, snapshot: seq<string>)
    requires |states| == |events| + 1 && p < |events|
  {
    && states[p].progress.Running? && !states[p].preflight.Passed?
    && events[p].seen.reply.HostFound? && (!events[p].seen.registered || events[p].seen.disabled)
    && snapshot == (var s := events[p].seen.reply.servers; if s.Some? then s.value else states[p].queue)
    && states[p + 1].preflight.Passed? && states[p + 1].queue == snapshot
  }

  ghost predicate Accounted(states: seq<EvictionStatus>, events: seq<Event>, host: string, p: nat, i: nat,
                            snapshot: seq<string>)
    requires |states| == |events| + 1 && p < i < |states|
  {
    && PreflightAt(states, events, p, snapshot)
    && forall u :: u in snapshot ==> u in states[i].queue || Witnessed(events, host, p + 1, i, u)
  }

  lemma {:induction false} EveryInstanceAccounted(states: seq<EvictionStatus>, events: seq<Event>, host: string, i: nat)
      returns (p: nat, snapshot: seq<string>)
    requires IsRun(states, events, host) && states[0] == BLANK
    requires i < |states| && states[i].preflight.Passed?
    ensures p < i && Accounted(states, events, host, p, i, snapshot)
  {
    var st, e := states[i - 1], events[i - 1];
    assert states[i - 1 + 1] == Step(st, host, e);
    if !st.preflight.Passed? {
      p, snapshot := i - 1, states[i].queue;
    } else {
      p, snapshot := EveryInstanceAccounted(states, events, host, i - 1);
      PassConserves(st.queue, st.verdict, e.seen.nova, host, e.seen.limit);
      forall u | u in snapshot ensures u in states[i].queue || Witnessed(events, host, p + 1, i, u) {
        if Witnessed(events, host, p + 1, i - 1, u) {
          var k :| p + 1 <= k < i - 1 && Departed(events[k].seen.nova, host, u);
        } else if u !in states[i].queue {
          assert u in multiset(st.queue) && u !in multiset(states[i].queue);
          assert Departed(events[i - 1].seen.nova, host, u);
        }
      }
    }
  }

  /** When the controller declares an Eviction succeeded after a passed preflight,
      every instance of the preflight snapshot has been seen to leave the host. */
  lemma SuccessIsWitnessed(states: seq<EvictionStatus>, events: seq<Event>, host: string, i: nat)
    requires IsRun(states, events, host) && states[0] == BLANK
    requires i < |states| && states[i].progress == Finished(true) && states[i].preflight.Passed?
    ensures exists p, snapshot :: 0 <= p < i && PreflightAt(states, events, p, snapshot)
              && forall u :: u in snapshot ==> Witnessed(events, host, p + 1, i, u)
  {
    FinishedDrained(states, events, host, i);
    var p, snapshot := EveryInstanceAccounted(states, events, host, i);
  }

  lemma {:induction false} FinishedDrained(states: seq<EvictionStatus>, events: seq<Event>, host: string, i: nat)
    requires IsRun(states, events, host) && states[0] == BLANK && i < |states|
    ensures states[i].progress.New? ==> states[i] == BLANK
    ensures states[i].progress.Finished? && states[i].preflight.Passed? ==> states[i].queue == []
  {
    if i > 0 {
      FinishedDrained(states, events, host, i - 1);
      assert states[i - 1 + 1] == Step(states[i - 1], host, events[i - 1]);
    }
  }
}
