/** Status conditions: their values, and the list of them a controller applies. */
module Conditions {
  import opened Basics

  datatype Status = True | False | Unknown

  datatype Reason =
    | Running | Failed | Succeeded | Settled | Aborting | Waiting
    | Initial | Testing | Handover | Aborted
    | TestAggregates | Terminating | EvictionInProgress | WaitingForTraits
    | Offboarding | OffboardingDone | NoAgentPods | AgentPodsRunning
    | OtherReason(name: string)

  /** Fixed texts that the controllers compare, and everything else. */
  datatype Message = Fixed | LifecycleDisabled | MaintenanceTermination | Detail(text: string)

  /** `Unnamed` is the empty type name. */
  datatype ConditionType =
    | Unnamed | HypervisorDisabled | Evicting | IncomingMigrationsSettled
    | OnboardingType | OffboardedType | AggregatesUpdated | TraitsUpdated | AgentPodsEvicted | HaEnabled
    | OtherType(name: string)

  /** The part of a condition the controllers decide on. */
  datatype Condition = Condition(status: Status, reason: Reason, message: Message)

  /** An entry of an apply payload: any field may be unset; time 0 is the zero time. */
  datatype Entry = Entry(kind: Option<ConditionType>, status: Option<Status>, reason: Option<Reason>,
                         message: Option<Message>, since: Option<nat>, generation: Option<int>)

  // ------------------------------------------------------------ value spec

  predicate Named(e: Entry) { e.kind.Some? && !e.kind.value.Unnamed? }

  function Stamp(e: Entry, now: nat): Option<nat> {
    if e.since.None? || e.since.value == 0 then Some(now) else e.since
  }

  /** What an update makes of the entry present before it, if any. */
  function Merged(before: Option<Entry>, e: Entry, now: nat): Entry {
    match before
    case None => e.(since := Stamp(e, now))
    case Some(b) =>
      Entry(b.kind, e.status, e.reason, e.message,
            if b.status != e.status then Stamp(e, now) else b.since, e.generation)
  }

  // ------------------------------------------------------------- list spec

  /** The first entry of the given type. */
  function Lookup(entries: seq<Entry>, t: ConditionType): Option<Entry> {
    if entries == [] then None
    else if entries[0].kind == Some(t) then Some(entries[0])
    else Lookup(entries[1..], t)
  }

  /** No two entries share a type, and none is without one. */
  predicate OnePerType(entries: seq<Entry>) {
    && (forall i :: 0 <= i < |entries| ==> Named(entries[i]))
    && (forall i, j :: 0 <= i < j < |entries| ==> entries[i].kind != entries[j].kind)
  }

  function Upsert(entries: seq<Entry>, e: Entry, now: nat): seq<Entry> {
    if !Named(e) then entries
    else if entries == [] then [Merged(None, e, now)]
    else if entries[0].kind == e.kind then [Merged(Some(entries[0]), e, now)] + entries[1..]
    else [entries[0]] + Upsert(entries[1..], e, now)
  }

  // ------------------------------------------------------------ properties

  lemma {:induction false} UpsertKinds(entries: seq<Entry>, e: Entry, now: nat, k: Option<ConditionType>)
    ensures (exists i :: 0 <= i < |Upsert(entries, e, now)| && Upsert(entries, e, now)[i].kind == k)
            ==> (Named(e) && k == e.kind) || exists i :: 0 <= i < |entries| && entries[i].kind == k
  {
    if Named(e) && entries != [] && entries[0].kind != e.kind {
      UpsertKinds(entries[1..], e, now, k);
      if i :| 0 <= i < |Upsert(entries, e, now)| && Upsert(entries, e, now)[i].kind == k {
        if i == 0 {
          assert entries[0].kind == k;
        } else {
          assert Upsert(entries[1..], e, now)[i - 1].kind == k;
          if j :| 0 <= j < |entries[1..]| && entries[1..][j].kind == k {
            assert entries[j + 1].kind == k;
          }
        }
      }
    } else if Named(e) && entries != [] {
      if i :| 0 <= i < |Upsert(entries, e, now)| && Upsert(entries, e, now)[i].kind == k {
        assert entries[i].kind == k || k == e.kind;
      }
    }
  }

  lemma {:induction false} UpsertKeepsOnePerType(entries: seq<Entry>, e: Entry, now: nat)
    requires OnePerType(entries)
    ensures OnePerType(Upsert(entries, e, now))
  {
    if Named(e) && entries != [] && entries[0].kind != e.kind {
      UpsertKeepsOnePerType(entries[1..], e, now);
      UpsertKinds(entries[1..], e, now, entries[0].kind);
      var tail := Upsert(entries[1..], e, now);
      assert forall j :: 0 <= j < |tail| ==> tail[j].kind != entries[0].kind;
    }
  }

  /** The list update is a map update: the named type gets the merged entry, every other
      type keeps its entry. */
  lemma {:induction false} UpsertIsMapUpdate(entries: seq<Entry>, e: Entry, now: nat, t: ConditionType)
    ensures Lookup(Upsert(entries, e, now), t)
            == if Named(e) && e.kind == Some(t) then Some(Merged(Lookup(entries, t), e, now)) else Lookup(entries, t)
  {
    if Named(e) && entries != [] && entries[0].kind != e.kind {
      UpsertIsMapUpdate(entries[1..], e, now, t);
    }
  }

  /** What an update records: all that it says. The time is that of the entry before it while the
      status stays, otherwise the one it brings, or the present one if it brings none or the zero
      time. */
  lemma MergedFields(before: Option<Entry>, e: Entry, now: nat)
    requires before.Some? ==> before.value.kind == e.kind
    ensures var r := Merged(before, e, now);
            && r.kind == e.kind && r.status == e.status && r.reason == e.reason
            && r.message == e.message && r.generation == e.generation
            && (before.Some? && before.value.status == e.status ==> r.since == before.value.since)
            && (!(before.Some? && before.value.status == e.status) ==>
                  r.since == if e.since.Some? && e.since.value != 0 then e.since else Some(now))
  {
  }

  /** A sequence of updates, each made at some time. */
  datatype Update = Update(entry: Entry, now: nat)

  function Run(entries: seq<Entry>, updates: seq<Update>): seq<Entry> {
    if updates == [] then entries
    else
      var n := |updates| - 1;
      Upsert(Run(entries, updates[..n]), updates[n].entry, updates[n].now)
  }

  /** The same sequence seen by one type alone. */
  function RunOne(before: Option<Entry>, updates: seq<Update>, t: ConditionType): Option<Entry> {
    if updates == [] then before
    else
      var n := |updates| - 1;
      var b := RunOne(before, updates[..n], t);
      if updates[n].entry.kind == Some(t) then Some(Merged(b, updates[n].entry, updates[n].now)) else b
  }

  /** Over any sequence of updates the list keeps one entry per type and each type evolves
      independently of the others. */
  lemma {:induction false} RunRefinesMap(entries: seq<Entry>, updates: seq<Update>, t: ConditionType)
    requires OnePerType(entries) && !t.Unnamed?
    ensures OnePerType(Run(entries, updates))
    ensures Lookup(Run(entries, updates), t) == RunOne(Lookup(entries, t), updates, t)
  {
    if updates != [] {
      var n := |updates| - 1;
      RunRefinesMap(entries, updates[..n], t);
      var before := Run(entries, updates[..n]);
      UpsertKeepsOnePerType(before, updates[n].entry, updates[n].now);
      UpsertIsMapUpdate(before, updates[n].entry, updates[n].now, t);
    }
  }

  /** All updates of the type leave its status as it is. */
  ghost predicate SameStatus(updates: seq<Update>, t: ConditionType, s: Option<Status>) {
    forall i :: 0 <= i < |updates| && updates[i].entry.kind == Some(t) ==> updates[i].entry.status == s
  }

  /** However often a type is updated, its transition time moves only with its status. */
  lemma {:induction false} TimeMovesWithStatus(entries: seq<Entry>, updates: seq<Update>, t: ConditionType)
    requires OnePerType(entries) && !t.Unnamed? && Lookup(entries, t).Some?
    requires SameStatus(updates, t, Lookup(entries, t).value.status)
    ensures var r := Lookup(Run(entries, updates), t);
            && r.Some? && r.value.since == Lookup(entries, t).value.since
            && r.value.status == Lookup(entries, t).value.status
  {
    RunRefinesMap(entries, updates, t);
    if updates != [] {
      var n := |updates| - 1;
      assert SameStatus(updates[..n], t, Lookup(entries, t).value.status);
      TimeMovesWithStatus(entries, updates[..n], t);
      RunRefinesMap(entries, updates[..n], t);
    }
  }

  /** The status of a type after a sequence of updates: that of its last update. */
  function LastStatus(before: Option<Entry>, updates: seq<Update>, t: ConditionType): Option<Option<Status>> {
    if updates == [] then (if before.None? then None else Some(before.value.status))
    else
      var n := |updates| - 1;
      if updates[n].entry.kind == Some(t) then Some(updates[n].entry.status) else LastStatus(before, updates[..n], t)
  }

  /** The last update that created the entry of the type or changed its status. */
  function LastChange(before: Option<Entry>, updates: seq<Update>, t: ConditionType): Option<Update> {
    if updates == [] then None
    else
      var n := |updates| - 1;
      if updates[n].entry.kind == Some(t) && LastStatus(before, updates[..n], t) != Some(updates[n].entry.status)
      then Some(updates[n]) else LastChange(before, updates[..n], t)
  }

  /** Exactly when the transition time moves: it is the stamp of the last update that created the
      entry or changed its status, and the original time if there is no such update. */
  lemma {:induction false} TimeOfLastChange(entries: seq<Entry>, updates: seq<Update>, t: ConditionType)
    requires OnePerType(entries) && !t.Unnamed?
    ensures var r, c := Lookup(Run(entries, updates), t), LastChange(Lookup(entries, t), updates, t);
            && (if r.None? then None else Some(r.value.status)) == LastStatus(Lookup(entries, t), updates, t)
            && (r.None? ==> c.None? && Lookup(entries, t).None?)
            && (r.Some? ==> if c.Some? then r.value.since == Stamp(c.value.entry, c.value.now)
                            else Lookup(entries, t).Some? && r.value.since == Lookup(entries, t).value.since)
  {
    RunRefinesMap(entries, updates, t);
    if updates != [] {
      var n := |updates| - 1;
      TimeOfLastChange(entries, updates[..n], t);
      RunRefinesMap(entries, updates[..n], t);
    }
  }

  // ------------------------------------------------------ server-side apply

  /** The entries of the types the writer does not own. */
  function Foreign(stored: seq<Entry>, owned: set<ConditionType>): seq<Entry> {
    if stored == [] then []
    else if stored[0].kind.Some? && stored[0].kind.value in owned then Foreign(stored[1..], owned)
    else [stored[0]] + Foreign(stored[1..], owned)
  }

  /** An apply by the owner of these types: the payload takes the place of all its entries, so
      what the payload omits is pruned. */
  function Applied(stored: seq<Entry>, payload: seq<Entry>, owned: set<ConditionType>): seq<Entry> {
    Foreign(stored, owned) + payload
  }

  lemma {:induction false} ForeignEntries(stored: seq<Entry>, owned: set<ConditionType>)
    requires OnePerType(stored)
    ensures OnePerType(Foreign(stored, owned))
    ensures forall e :: e in Foreign(stored, owned) ==> e in stored && e.kind.value !in owned
  {
    if stored != [] {
      var rest := stored[1..];
      ForeignEntries(rest, owned);
      forall e | e in rest ensures e in stored && e.kind != stored[0].kind {
        var j :| 0 <= j < |rest| && rest[j] == e;
        assert stored[j + 1] == e;
      }
    }
  }

  lemma {:induction false} LookupApplied(stored: seq<Entry>, payload: seq<Entry>, owned: set<ConditionType>,
                                         t: ConditionType)
    requires OnePerType(stored) && (t !in owned ==> Lookup(payload, t).None?)
    ensures Lookup(Applied(stored, payload, owned), t) == if t in owned then Lookup(payload, t) else Lookup(stored, t)
  {
    if stored == [] {
      assert [] + payload == payload;
    } else {
      LookupApplied(stored[1..], payload, owned, t);
      var rest := Foreign(stored[1..], owned);
      if stored[0].kind.value in owned {
        assert [] + rest == rest;
      } else {
        assert ([stored[0]] + rest) + payload == [stored[0]] + (rest + payload);
        assert Lookup([stored[0]] + (rest + payload), t)
            == if stored[0].kind == Some(t) then Some(stored[0]) else Lookup(rest + payload, t) by {
          assert ([stored[0]] + (rest + payload))[1..] == rest + payload;
        }
      }
    }
  }

  lemma AppliedOnePerType(stored: seq<Entry>, payload: seq<Entry>, owned: set<ConditionType>)
    requires OnePerType(stored) && OnePerType(payload)
    requires forall e :: e in payload ==> e.kind.value in owned
    ensures OnePerType(Applied(stored, payload, owned))
  {
    ForeignEntries(stored, owned);
    var kept := Foreign(stored, owned);
    var all := kept + payload;
    forall i, j | 0 <= i < j < |all| ensures all[i].kind != all[j].kind {
      if i < |kept| <= j {
        assert all[i] in kept && all[j] in payload;
      }
    }
  }

  // --------------------------------------------------------- apply payload

  lemma {:induction false} UpsertAt(entries: seq<Entry>, e: Entry, now: nat, i: nat)
    requires Named(e) && i <= |entries|
    requires forall j :: 0 <= j < i ==> entries[j].kind != e.kind
    requires i < |entries| ==> entries[i].kind == e.kind
    ensures Upsert(entries, e, now)
            == if i < |entries| then entries[i := Merged(Some(entries[i]), e, now)]
                else entries + [Merged(None, e, now)]
  {
    if i > 0 {
      var rest := entries[1..];
      assert forall j :: 0 <= j < i - 1 ==> rest[j] == entries[j + 1];
      UpsertAt(rest, e, now, i - 1);
      assert entries == [entries[0]] + rest;
      if i < |entries| {
        var m := Merged(Some(entries[i]), e, now);
        assert [entries[0]] + rest[i - 1 := m] == entries[i := m];
      }
    } else if i < |entries| {
      assert entries[0 := Merged(Some(entries[0]), e, now)] == [Merged(Some(entries[0]), e, now)] + entries[1..];
    }
  }

  /** The entries of every other type are the same, and there is still one per type. */
  ghost predicate OnlyChanges(k: Option<ConditionType>, before: seq<Entry>, after: seq<Entry>) {
    && (forall t :: k != Some(t) ==> Lookup(after, t) == Lookup(before, t))
    && (OnePerType(before) ==> OnePerType(after))
  }

  lemma UpsertChanges(entries: seq<Entry>, e: Entry, now: nat)
    ensures OnlyChanges(e.kind, entries, Upsert(entries, e, now))
    ensures Named(e)
            ==> Lookup(Upsert(entries, e, now), e.kind.value) == Some(Merged(Lookup(entries, e.kind.value), e, now))
  {
    forall t ensures Lookup(Upsert(entries, e, now), t)
      == if Named(e) && e.kind == Some(t) then Some(Merged(Lookup(entries, t), e, now)) else Lookup(entries, t)
    {
      UpsertIsMapUpdate(entries, e, now, t);
    }
    if OnePerType(entries) {
      UpsertKeepsOnePerType(entries, e, now);
    }
  }

  /** The payload of one apply call under construction. */
  class StatusConfig {
    var evicted: Option<bool>
    var hypervisorId: Option<string>
    var serviceId: Option<string>
    var entries: seq<Entry>

    constructor ()
      ensures evicted.None? && hypervisorId.None? && serviceId.None? && entries == []
    {
      evicted, hypervisorId, serviceId, entries := None, None, None, [];
    }

    /** Updates the entry of the same type where it stands, or appends one. */
    method SetCondition(e: Entry, now: nat)
      modifies `entries
      ensures entries == Upsert(old(entries), e, now)
      ensures OnlyChanges(e.kind, old(entries), entries)
      ensures Named(e) ==> Lookup(entries, e.kind.value) == Some(Merged(Lookup(old(entries), e.kind.value), e, now))
    {
      UpsertChanges(entries, e, now);
      if e.kind.None? || e.kind.value.Unnamed? {
        return;
      }
      var i := 0;
      while i < |entries| && entries[i].kind != e.kind
        invariant 0 <= i <= |entries|
        invariant forall j :: 0 <= j < i ==> entries[j].kind != e.kind
      {
        i := i + 1;
      }
      UpsertAt(entries, e, now, i);
      if i == |entries| {
        var added := e;
        if e.since.None? || e.since.value == 0 {
          added := added.(since := Some(now));
        }
        entries := entries + [added];
        return;
      }
      var existing := entries[i];
      var statusChanged := existing.status != e.status;
      if statusChanged {
        var since := if e.since.Some? && e.since.value != 0 then e.since else Some(now);
        existing := existing.(status := e.status, since := since);
      }
      existing := existing.(reason := e.reason, message := e.message, generation := e.generation);
      entries := entries[i := existing];
    }

    /** Carries a stored condition over so that the apply does not prune it. */
    method Retain(stored: seq<Entry>, t: ConditionType, now: nat)
      requires !t.Unnamed?
      modifies `entries
      ensures entries
              == if Lookup(stored, t).Some? then Upsert(old(entries), Lookup(stored, t).value, now) else old(entries)
      ensures OnlyChanges(Some(t), old(entries), entries)
      ensures Lookup(entries, t) == if Lookup(stored, t).None? then Lookup(old(entries), t)
                                    else Some(Merged(Lookup(old(entries), t), Lookup(stored, t).value, now))
    {
      var i := 0;
      while i < |stored| && stored[i].kind != Some(t)
        invariant 0 <= i <= |stored|
        invariant Lookup(stored, t) == Lookup(stored[i..], t)
      {
        i := i + 1;
      }
      if i < |stored| {
        assert Lookup(stored, t) == Some(stored[i]);
        SetCondition(stored[i], now);
      }
    }
  }

  /** A stored condition that is carried over first keeps its transition time through an
      update with the same status. Without being carried over it is stamped anew each time. */
  lemma RetainingKeepsTime(stored: Entry, e: Entry, now: nat)
    requires Named(stored) && stored.since.Some? && stored.since.value != 0
    requires e.kind == stored.kind && e.status == stored.status && e.since.None?
    ensures var kept := Upsert(Upsert([], stored, now), e, now);
            Lookup(kept, e.kind.value).Some? && Lookup(kept, e.kind.value).value.since == stored.since
    ensures var anew := Upsert([], e, now);
            Lookup(anew, e.kind.value).Some? && Lookup(anew, e.kind.value).value.since == Some(now)
  {
    UpsertIsMapUpdate([], stored, now, e.kind.value);
    UpsertIsMapUpdate(Upsert([], stored, now), e, now, e.kind.value);
    UpsertIsMapUpdate([], e, now, e.kind.value);
  }
}
