/**
 The maintenance controller as it runs: helpers that fill one apply payload step
 by step and create or delete the Eviction on the way. The result is proved to be
 the decision `Hypervisors.PlanMaintenance`.
 */
module MaintenanceController {
  import opened Basics
  import opened Conditions
  import opened Hypervisors
  import opened Protocol
  import opened DrainSafety
  import Migrations
  import Evictions

  // ---------------------------------------------- stored and applied entries

  /** The condition recorded under a type. */
  function View(entries: seq<Entry>, t: ConditionType): Option<Condition> {
    match Lookup(entries, t)
    case None => None
    case Some(e) =>
      if e.status.Some? && e.reason.Some? && e.message.Some?
      then Some(Condition(e.status.value, e.reason.value, e.message.value)) else None
  }

  /** Complete entry with a transition time, as read back from the API server. */
  predicate Complete(e: Entry) {
    e.status.Some? && e.reason.Some? && e.message.Some? && e.since.Some? && e.since.value != 0
  }

  /** The stored condition list says what the status record says. */
  ghost predicate Represents(stored: seq<Entry>, hv: HvStatus) {
    Shows(stored, hv) && forall i :: 0 <= i < |stored| ==> Complete(stored[i])
  }

  predicate Shows(stored: seq<Entry>, hv: HvStatus) {
    && OnePerType(stored)
    && View(stored, HypervisorDisabled) == hv.disabled
    && View(stored, Evicting) == hv.evicting
    && View(stored, IncomingMigrationsSettled) == hv.settled
  }

  lemma {:induction false} LookupComplete(stored: seq<Entry>, t: ConditionType)
    requires forall i :: 0 <= i < |stored| ==> Complete(stored[i])
    ensures Lookup(stored, t).Some? ==> Complete(Lookup(stored, t).value) && Lookup(stored, t).value.kind == Some(t)
  {
    if stored != [] && stored[0].kind != Some(t) {
      LookupComplete(stored[1..], t);
    }
  }

  function ToEntry(t: ConditionType, c: Condition): Entry {
    Entry(Some(t), Some(c.status), Some(c.reason), Some(c.message), None, None)
  }

  /** These entries are exactly the conditions of the update, and there are none of other types. */
  ghost predicate Describes(entries: seq<Entry>, w: MaintWrite) {
    && OnePerType(entries)
    && View(entries, HypervisorDisabled) == w.disabled
    && View(entries, Evicting) == w.evicting
    && View(entries, IncomingMigrationsSettled) == w.settled
    && forall t :: t != HypervisorDisabled && t != Evicting && t != IncomingMigrationsSettled ==>
          Lookup(entries, t).None?
  }

  /** The payload carries exactly this update. */
  ghost predicate Carries(cfg: StatusConfig, w: MaintWrite)
    reads cfg
  {
    cfg.evicted == Some(w.evicted) && Describes(cfg.entries, w)
  }

  const OWNED := {HypervisorDisabled, Evicting, IncomingMigrationsSettled}

  lemma {:induction false} LookupMember(entries: seq<Entry>, e: Entry)
    requires OnePerType(entries) && e in entries
    ensures Lookup(entries, e.kind.value).Some?
  {
    if entries[0] != e {
      assert e in entries[1..];
      LookupMember(entries[1..], e);
    }
  }

  /** Applying such a payload to the stored list has the effect the protocol ascribes to the
      update: own conditions are replaced or pruned, all others stay. */
  lemma ApplyIsUpdate(stored: seq<Entry>, entries: seq<Entry>, hv: HvStatus, w: MaintWrite)
    requires Shows(stored, hv) && Describes(entries, w)
    ensures Shows(Applied(stored, entries, OWNED), ApplyMaint(hv, w))
    ensures forall t :: t !in OWNED ==> Lookup(Applied(stored, entries, OWNED), t) == Lookup(stored, t)
  {
    forall e | e in entries ensures e.kind.value in OWNED {
      LookupMember(entries, e);
    }
    AppliedOnePerType(stored, entries, OWNED);
    forall t ensures Lookup(Applied(stored, entries, OWNED), t)
        == if t in OWNED then Lookup(entries, t) else Lookup(stored, t) {
      LookupApplied(stored, entries, OWNED, t);
    }
  }

  /** Nothing has been said about the drain yet. */
  ghost predicate Undecided(cfg: StatusConfig)
    reads cfg
  {
    && OnePerType(cfg.entries)
    && Lookup(cfg.entries, Evicting).None?
    && Lookup(cfg.entries, IncomingMigrationsSettled).None?
  }

  method Put(cfg: StatusConfig, t: ConditionType, c: Condition, now: nat)
    requires !t.Unnamed? && OnePerType(cfg.entries)
    modifies cfg`entries
    ensures OnePerType(cfg.entries) && View(cfg.entries, t) == Some(c)
    ensures forall u :: u != t ==> Lookup(cfg.entries, u) == Lookup(old(cfg.entries), u)
    ensures Lookup(cfg.entries, t) == Some(Merged(Lookup(old(cfg.entries), t), ToEntry(t, c), now))
  {
    cfg.SetCondition(ToEntry(t, c), now);
  }

  method Keep(cfg: StatusConfig, stored: seq<Entry>, hv: HvStatus, t: ConditionType, now: nat)
    requires !t.Unnamed? && OnePerType(cfg.entries) && Represents(stored, hv)
    requires Lookup(cfg.entries, t).None?
    modifies cfg`entries
    ensures OnePerType(cfg.entries) && Lookup(cfg.entries, t) == Lookup(stored, t)
    ensures View(stored, t).None? ==> Lookup(stored, t).None?
    ensures forall u :: u != t ==> Lookup(cfg.entries, u) == Lookup(old(cfg.entries), u)
  {
    LookupComplete(stored, t);
    cfg.Retain(stored, t, now);
  }

  // ------------------------------------------------------- transition times

  /** An entry set without regard to the stored one. */
  function Stamped(t: ConditionType, c: Condition, now: nat): Entry { Merged(None, ToEntry(t, c), now) }

  /** The entry for a decided condition: set anew, or carried over. */
  function Recorded(stored: seq<Entry>, t: ConditionType, c: Option<Condition>, anew: bool, now: nat): Option<Entry> {
    if c.None? then None else if anew then Some(Stamped(t, c.value, now)) else Lookup(stored, t)
  }

  /** Past the compute service, the reconcile asks Nova for incoming migrations. */
  predicate DrainAsks(hv: HvStatus, mode: Mode) {
    && Draining(mode)
    && !(ReportsEvicted(hv) && hv.numInstances > 0)
    && !(ReportsEvicted(hv) && hv.evicted && ReportsSettled(hv))
  }

  /** Past the compute service, the Evicting condition is set anew: after settling, or when an
      evicted host has instances again. */
  predicate DrainSets(hv: HvStatus, mode: Mode, host: string, rs: MaintReplies) {
    if DrainAsks(hv, mode)
    then Migrations.IsSettled(Migrations.Settle(rs.migrations, host)) && !HasReason(hv.evicting, Succeeded)
    else Draining(mode) && ReportsEvicted(hv) && hv.numInstances > 0
  }

  predicate AsksMigrations(hv: HvStatus, spec: Spec, rs: MaintReplies) {
    PlanService(hv, spec.maintenance, rs.serviceOk).ok && DrainAsks(hv, spec.maintenance)
  }

  predicate SetsEvicting(hv: HvStatus, spec: Spec, host: string, rs: MaintReplies) {
    PlanService(hv, spec.maintenance, rs.serviceOk).ok && DrainSets(hv, spec.maintenance, host, rs)
  }

  /** Entries that are recorded this way show the decided conditions. */
  lemma RecordedViews(stored: seq<Entry>, hv: HvStatus, m: MaintWrite, spec: Spec, host: string, rs: MaintReplies,
                      now: nat)
    requires Represents(stored, hv) && !IsTrue(hv.onboarding)
    requires exists eviction :: PlanMaintenance(hv, spec, eviction, host, rs).write == Some(m)
    ensures forall entries ::
              Lookup(entries, Evicting) == Recorded(stored, Evicting, m.evicting, SetsEvicting(hv, spec, host, rs), now)
              ==> View(entries, Evicting) == m.evicting
    ensures forall entries ::
              Lookup(entries, IncomingMigrationsSettled)
                == Recorded(stored, IncomingMigrationsSettled, m.settled, AsksMigrations(hv, spec, rs), now)
              ==> View(entries, IncomingMigrationsSettled) == m.settled
  {
  }

  /** The transition time of a stored condition is the same in the payload. */
  predicate SameTime(stored: seq<Entry>, e: Option<Entry>, t: ConditionType) {
    e.Some? && Lookup(stored, t).Some? && e.value.since == Lookup(stored, t).value.since
  }

  predicate StampedAt(stored: seq<Entry>, t: ConditionType, now: nat) {
    Lookup(stored, t).Some? && Lookup(stored, t).value.since == Some(now)
  }

  /** When a status stays, exactly when its transition time does, for the Evicting condition: it
      is False, or the service update failed, or migrations towards the host are not settled. Each
      reconcile of a running drain that gets past both renews it. */
  lemma EvictingTimeExactly(hv: HvStatus, stored: seq<Entry>, spec: Spec, eviction: Option<Evictions.EvictionStatus>,
                            host: string, rs: MaintReplies, now: nat)
    requires Represents(stored, hv) && Consistent(hv.evicted, hv.evicting, hv.settled) && !IsTrue(hv.onboarding)
    requires var m := PlanMaintenance(hv, spec, eviction, host, rs).write.value;
             hv.evicting.Some? && m.evicting.Some? && m.evicting.value.status == hv.evicting.value.status
    ensures var m := PlanMaintenance(hv, spec, eviction, host, rs).write.value;
            SameTime(stored, Recorded(stored, Evicting, m.evicting, SetsEvicting(hv, spec, host, rs), now), Evicting)
            <==> || IsFalse(hv.evicting)
                 || !PlanService(hv, spec.maintenance, rs.serviceOk).ok
                 || !Migrations.IsSettled(Migrations.Settle(rs.migrations, host))
                 || StampedAt(stored, Evicting, now)
  {
    LookupComplete(stored, Evicting);
  }

  /** The same for IncomingMigrationsSettled: it stays only if the host counts as evicted or the
      service update failed. Every settle attempt renews it. */
  lemma SettledTimeExactly(hv: HvStatus, stored: seq<Entry>, spec: Spec, eviction: Option<Evictions.EvictionStatus>,
                           host: string, rs: MaintReplies, now: nat)
    requires Represents(stored, hv) && Consistent(hv.evicted, hv.evicting, hv.settled) && !IsTrue(hv.onboarding)
    requires var m := PlanMaintenance(hv, spec, eviction, host, rs).write.value;
             hv.settled.Some? && m.settled.Some? && m.settled.value.status == hv.settled.value.status
    ensures var m := PlanMaintenance(hv, spec, eviction, host, rs).write.value;
            SameTime(stored, Recorded(stored, IncomingMigrationsSettled, m.settled, AsksMigrations(hv, spec, rs), now),
                     IncomingMigrationsSettled)
            <==> || IsFalse(hv.evicting)
                 || !PlanService(hv, spec.maintenance, rs.serviceOk).ok
                 || StampedAt(stored, IncomingMigrationsSettled, now)
  {
    LookupComplete(stored, IncomingMigrationsSettled);
  }

  /** A drain that has been running since time 1, reconciled without errors at time 2: the status
      stays, the transition time does not. */
  lemma RunningDrainRenewsTime()
    ensures var hv := HvStatus(false, 1, "", "", [], [], None, Some(EVICTING), Some(SETTLED), None, None, None, None,
                               None, None);
            var stored := [ToEntry(Evicting, EVICTING).(since := Some(1)),
                           ToEntry(IncomingMigrationsSettled, SETTLED).(since := Some(1))];
            var spec := Spec(Manual, true, false, false, [], []);
            var rs := MaintReplies(true, Migrations.NovaMigrations(Some([]), {}), true, true, true);
            var m := PlanMaintenance(hv, spec, Some(Evictions.BLANK), "host", rs).write;
            && Represents(stored, hv) && m.Some? && m.value.evicting == hv.evicting && m.value.settled == hv.settled
            && Recorded(stored, Evicting, m.value.evicting, SetsEvicting(hv, spec, "host", rs), 2)
               == Some(Stamped(Evicting, EVICTING, 2))
            && Recorded(stored, IncomingMigrationsSettled, m.value.settled, AsksMigrations(hv, spec, rs), 2)
               == Some(Stamped(IncomingMigrationsSettled, SETTLED, 2))
  {
    var stored := [ToEntry(Evicting, EVICTING).(since := Some(1)),
                   ToEntry(IncomingMigrationsSettled, SETTLED).(since := Some(1))];
    assert Lookup(stored, Evicting) == Some(stored[0]);
    assert stored[1..] == [stored[1]];
    assert Lookup(stored[1..], IncomingMigrationsSettled) == Some(stored[1]);
    assert Lookup(stored, IncomingMigrationsSettled) == Some(stored[1]);
    assert stored[1..][1..] == [];
    assert Lookup(stored[1..], HypervisorDisabled) == Lookup([], HypervisorDisabled);
  }

  // -------------------------------------------------------------- reconcile

  method ReconcileComputeService(hv: HvStatus, spec: Spec, serviceOk: bool, cfg: StatusConfig, now: nat)
      returns (ok: bool)
    requires OnePerType(cfg.entries) && View(cfg.entries, HypervisorDisabled) == hv.disabled
    modifies cfg`entries
    ensures OnePerType(cfg.entries)
    ensures var p := PlanService(hv, spec.maintenance, serviceOk);
            ok == p.ok && View(cfg.entries, HypervisorDisabled) == p.disabled
    ensures forall u :: u != HypervisorDisabled ==> Lookup(cfg.entries, u) == Lookup(old(cfg.entries), u)
    ensures KeepsTime(old(cfg.entries), cfg.entries, HypervisorDisabled)
  {
    if hv.serviceId == "" {
      return true;
    }
    match spec.maintenance {
      case NoMaintenance =>
        if !IsFalse(hv.disabled) {
          if !serviceOk {
            Put(cfg, HypervisorDisabled, Condition(Unknown, Failed, Fixed), now);
            return false;
          }
        }
        Put(cfg, HypervisorDisabled, Condition(False, Succeeded, Fixed), now);
      case Manual | Auto | Termination =>
        if !IsTrue(hv.disabled) {
          if !serviceOk {
            Put(cfg, HypervisorDisabled, Condition(Unknown, Failed, Fixed), now);
            return false;
          }
        }
        Put(cfg, HypervisorDisabled, Condition(True, Succeeded, Fixed), now);
      case Ha =>
    }
    return true;
  }

  /** An entry whose status is the same afterwards has the same transition time. */
  predicate KeepsTime(before: seq<Entry>, after: seq<Entry>, t: ConditionType) {
    var b, a := Lookup(before, t), Lookup(after, t);
    b.Some? && a.Some? && b.value.status == a.value.status ==> a.value.since == b.value.since
  }

  class MaintenanceReconciler {
    const host: string
    var eviction: Option<Evictions.EvictionStatus>    // the Eviction named after the host

    constructor (host: string)
      ensures this.host == host && eviction.None?
    {
      this.host, eviction := host, None;
    }

    method SettleIncomingMigrations(rs: MaintReplies, cfg: StatusConfig, now: nat) returns (settled: bool)
      requires Undecided(cfg)
      modifies cfg`entries
      ensures OnePerType(cfg.entries)
      ensures var s := Migrations.Settle(rs.migrations, host);
              && settled == Migrations.IsSettled(s)
              && Lookup(cfg.entries, IncomingMigrationsSettled)
                 == Some(Stamped(IncomingMigrationsSettled, SettledCondition(s), now))
      ensures forall u :: u != IncomingMigrationsSettled ==> Lookup(cfg.entries, u) == Lookup(old(cfg.entries), u)
    {
      var s, attempts := Migrations.SettleIncoming(rs.migrations, host);
      if s.SettleError? {
        Put(cfg, IncomingMigrationsSettled, Condition(Unknown, Failed, Fixed), now);
        return false;
      }
      if s.waiting != [] {
        Put(cfg, IncomingMigrationsSettled, Condition(False, Waiting, Fixed), now);
        return false;
      }
      if s.aborted != [] {
        Put(cfg, IncomingMigrationsSettled, Condition(False, Aborting, Fixed), now);
        return false;
      }
      Put(cfg, IncomingMigrationsSettled, SETTLED, now);
      return true;
    }

    /** Creates the Eviction if need be; None when a request fails. */
    method EnsureEviction(rs: MaintReplies) returns (status: Option<Status>)
      modifies `eviction
      ensures !rs.applyOk ==> eviction == old(eviction) && status.None?
      ensures rs.applyOk ==> eviction == Some(if old(eviction).Some? then old(eviction).value else Evictions.BLANK)
      ensures rs.applyOk ==> status == if !rs.getOk then None
                                       else Some(if eviction.value.progress.Finished? then False else True)
    {
      if !rs.applyOk {
        return None;
      }
      if eviction.None? {
        eviction := Some(Evictions.BLANK);
      }
      if !rs.getOk {
        return None;
      }
      return Some(if eviction.value.progress.Finished? then False else True);
    }

    /** From a settled host on: mirror the progress of the Eviction. */
    method FollowEviction(hv: HvStatus, rs: MaintReplies, cfg: StatusConfig, now: nat)
      requires OnePerType(cfg.entries) && Lookup(cfg.entries, Evicting).None?
      requires View(cfg.entries, IncomingMigrationsSettled) == Some(SETTLED) && cfg.evicted == Some(hv.evicted)
      modifies `eviction, cfg`entries, cfg`evicted
      ensures var d := PlanEviction(hv, old(eviction), rs);
              && eviction == d.eviction && OnePerType(cfg.entries) && cfg.evicted == Some(d.evicted)
              && View(cfg.entries, Evicting) == d.evicting && View(cfg.entries, IncomingMigrationsSettled) == d.settled
      ensures forall u :: u != Evicting ==> Lookup(cfg.entries, u) == Lookup(old(cfg.entries), u)
      ensures Lookup(cfg.entries, Evicting)
              == Recorded([], Evicting, PlanEviction(hv, old(eviction), rs).evicting, true, now)
    {
      var status := EnsureEviction(rs);
      if status.None? {
        return;
      }
      if status.value.False? {
        if hv.numInstances > 0 {
          if !rs.deleteOk {
            return;
          }
          eviction := None;
          cfg.evicted := Some(false);
          Put(cfg, Evicting, EVICTING, now);
          return;
        }
        cfg.evicted := Some(true);
        Put(cfg, Evicting, EVICTED, now);
      } else {
        cfg.evicted := Some(false);
        Put(cfg, Evicting, EVICTING, now);
      }
    }

    /** New instances on an evicted host: forget the finished Eviction, so that the next reconcile starts another. */
    method Restart(hv: HvStatus, stored: seq<Entry>, rs: MaintReplies, cfg: StatusConfig, now: nat)
      requires Represents(stored, hv) && Undecided(cfg) && cfg.evicted == Some(hv.evicted)
      modifies `eviction, cfg`entries, cfg`evicted
      ensures OnePerType(cfg.entries)
      ensures eviction == if rs.deleteOk then None else old(eviction)
      ensures cfg.evicted == Some(if rs.deleteOk then false else hv.evicted)
      ensures Lookup(cfg.entries, Evicting) == if rs.deleteOk then Some(Stamped(Evicting, EVICTING, now)) else None
      ensures Lookup(cfg.entries, IncomingMigrationsSettled)
              == Recorded(stored, IncomingMigrationsSettled, if rs.deleteOk then hv.settled else None, false, now)
      ensures forall u :: u != Evicting && u != IncomingMigrationsSettled ==>
                Lookup(cfg.entries, u) == Lookup(old(cfg.entries), u)
    {
      if !rs.deleteOk {
        return;
      }
      eviction := None;
      cfg.evicted := Some(false);
      Put(cfg, Evicting, EVICTING, now);
      Keep(cfg, stored, hv, IncomingMigrationsSettled, now);
    }

    /** Incoming migrations come first; only a settled host gets an Eviction. */
    method SettleAndEvict(hv: HvStatus, stored: seq<Entry>, rs: MaintReplies, cfg: StatusConfig, now: nat)
      requires Represents(stored, hv) && Undecided(cfg) && cfg.evicted == Some(hv.evicted)
      modifies `eviction, cfg`entries, cfg`evicted
      ensures var d := PlanSettle(hv, old(eviction), host, rs);
              var anew := Migrations.IsSettled(Migrations.Settle(rs.migrations, host))
                  && !HasReason(hv.evicting, Succeeded);
              && eviction == d.eviction && OnePerType(cfg.entries) && cfg.evicted == Some(d.evicted)
              && Lookup(cfg.entries, Evicting) == Recorded(stored, Evicting, d.evicting, anew, now)
              && Lookup(cfg.entries, IncomingMigrationsSettled)
                  == Recorded(stored, IncomingMigrationsSettled, d.settled, true, now)
      ensures forall u :: u != Evicting && u != IncomingMigrationsSettled ==>
                Lookup(cfg.entries, u) == Lookup(old(cfg.entries), u)
    {
      var settled := SettleIncomingMigrations(rs, cfg, now);
      if !settled {
        cfg.evicted := Some(false);
        Keep(cfg, stored, hv, Evicting, now);
        return;
      }
      if HasReason(hv.evicting, Succeeded) {
        Keep(cfg, stored, hv, Evicting, now);
        return;
      }
      FollowEviction(hv, rs, cfg, now);
    }

    method ReconcileEviction(hv: HvStatus, stored: seq<Entry>, spec: Spec, rs: MaintReplies, cfg: StatusConfig,
                             now: nat)
      requires Represents(stored, hv) && Undecided(cfg) && cfg.evicted == Some(hv.evicted)
      modifies `eviction, cfg`entries, cfg`evicted
      ensures var d := PlanDrain(hv, spec.maintenance, old(eviction), host, rs);
              && eviction == d.eviction && OnePerType(cfg.entries) && cfg.evicted == Some(d.evicted)
              && Lookup(cfg.entries, Evicting)
                 == Recorded(stored, Evicting, d.evicting, DrainSets(hv, spec.maintenance, host, rs), now)
              && Lookup(cfg.entries, IncomingMigrationsSettled)
                 == Recorded(stored, IncomingMigrationsSettled, d.settled, DrainAsks(hv, spec.maintenance), now)
      ensures forall u :: u != Evicting && u != IncomingMigrationsSettled ==>
                Lookup(cfg.entries, u) == Lookup(old(cfg.entries), u)
    {
      if spec.maintenance.NoMaintenance? {
        if !hv.evicted && hv.evicting.None? && hv.settled.None? {
          return;
        }
        if !rs.deleteOk {
          return;
        }
        eviction := None;
        cfg.evicted := Some(false);
        return;
      }
      if spec.maintenance.Ha? {
        return;
      }
      if IsFalse(hv.evicting) && HasReason(hv.evicting, Succeeded) {
        if hv.numInstances > 0 {
          Restart(hv, stored, rs, cfg, now);
          return;
        }
        if hv.evicted && IsTrue(hv.settled) && HasReason(hv.settled, Settled) {
          Keep(cfg, stored, hv, Evicting, now);
          Keep(cfg, stored, hv, IncomingMigrationsSettled, now);
          return;
        }
      }
      SettleAndEvict(hv, stored, rs, cfg, now);
    }

    /** The drain part of the payload: worked out, or carried over if the service update failed. */
    method AddDrain(hv: HvStatus, stored: seq<Entry>, spec: Spec, rs: MaintReplies, ok: bool, cfg: StatusConfig,
                    now: nat)
      requires Represents(stored, hv) && Undecided(cfg) && cfg.evicted == Some(hv.evicted) && !IsTrue(hv.onboarding)
      requires ok == PlanService(hv, spec.maintenance, rs.serviceOk).ok
      modifies `eviction, cfg`entries, cfg`evicted
      ensures var p := PlanMaintenance(hv, spec, old(eviction), host, rs);
              && eviction == p.eviction && OnePerType(cfg.entries) && cfg.evicted == Some(p.write.value.evicted)
              && Lookup(cfg.entries, Evicting)
                 == Recorded(stored, Evicting, p.write.value.evicting, SetsEvicting(hv, spec, host, rs), now)
              && Lookup(cfg.entries, IncomingMigrationsSettled)
                 == Recorded(stored, IncomingMigrationsSettled, p.write.value.settled, AsksMigrations(hv, spec, rs),
                             now)
      ensures forall u :: u != Evicting && u != IncomingMigrationsSettled ==>
                Lookup(cfg.entries, u) == Lookup(old(cfg.entries), u)
    {
      if !ok {
        Keep(cfg, stored, hv, Evicting, now);
        Keep(cfg, stored, hv, IncomingMigrationsSettled, now);
        return;
      }
      ReconcileEviction(hv, stored, spec, rs, cfg, now);
    }

    /** One reconcile. `cfg` is the payload to apply; `send` says whether it is applied. */
    method Reconcile(hv: HvStatus, stored: seq<Entry>, spec: Spec, rs: MaintReplies, now: nat)
        returns (send: bool, cfg: StatusConfig)
      requires Represents(stored, hv)
      modifies `eviction
      ensures fresh(cfg)
      ensures var p := PlanMaintenance(hv, spec, old(eviction), host, rs);
              && eviction == p.eviction
              && send == p.write.Some?
              && (send ==> Carries(cfg, p.write.value))
      ensures send ==> KeepsTime(stored, cfg.entries, HypervisorDisabled)
      ensures send ==>
                var m := PlanMaintenance(hv, spec, old(eviction), host, rs).write.value;
                && Lookup(cfg.entries, Evicting)
                    == Recorded(stored, Evicting, m.evicting, SetsEvicting(hv, spec, host, rs), now)
                && Lookup(cfg.entries, IncomingMigrationsSettled)
                   == Recorded(stored, IncomingMigrationsSettled, m.settled, AsksMigrations(hv, spec, rs), now)
    {
      cfg := new StatusConfig();
      if IsTrue(hv.onboarding) {
        return false, cfg;
      }
      cfg.evicted := Some(hv.evicted);
      Keep(cfg, stored, hv, HypervisorDisabled, now);
      var ok := ReconcileComputeService(hv, spec, rs.serviceOk, cfg, now);
      ghost var m := PlanMaintenance(hv, spec, eviction, host, rs).write.value;
      AddDrain(hv, stored, spec, rs, ok, cfg, now);
      RecordedViews(stored, hv, m, spec, host, rs, now);
      return true, cfg;
    }
  }
}
