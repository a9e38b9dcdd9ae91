/** Settling the migrations that target a host which is being drained. */
module Migrations {
  import opened Basics

  datatype MigrationStatus =
    | Confirmed | Reverted | Errored | FailedMigration | Completed | Cancelled | Done
    | Queued | Preparing | Running
    | OtherMigrationStatus(name: string)

  datatype Migration = Migration(id: int, instance: string, status: MigrationStatus, dest: string, live: bool)

  predicate Terminal(s: MigrationStatus) {
    s.Confirmed? || s.Reverted? || s.Errored? || s.FailedMigration? || s.Completed? || s.Cancelled? || s.Done?
  }

  predicate AbortableStatus(s: MigrationStatus) { s.Queued? || s.Preparing? || s.Running? }

  /** In flight towards the host. */
  predicate Incoming(m: Migration, host: string) { m.dest == host && !Terminal(m.status) }

  predicate Abortable(m: Migration) { AbortableStatus(m.status) && m.live }

  /** Which of the listed migrations to keep. */
  datatype Pick = Active | ToAbort | ToAwait

  predicate Picked(m: Migration, host: string, pick: Pick) {
    Incoming(m, host) && (pick.ToAbort? ==> Abortable(m)) && (pick.ToAwait? ==> !Abortable(m))
  }

  function Select(ms: seq<Migration>, host: string, pick: Pick): seq<Migration> {
    if ms == [] then []
    else
      var n := |ms| - 1;
      if Picked(ms[n], host, pick) then Select(ms[..n], host, pick) + [ms[n]] else Select(ms[..n], host, pick)
  }

  lemma {:induction false} SelectMembers(ms: seq<Migration>, host: string, pick: Pick)
    ensures forall m :: m in Select(ms, host, pick) <==> m in ms && Picked(m, host, pick)
  {
    if ms == [] {
    } else {
      var n := |ms| - 1;
      assert ms == ms[..n] + [ms[n]];
      SelectMembers(ms[..n], host, pick);
    }
  }

  function ActiveIncoming(ms: seq<Migration>, host: string): seq<Migration> {
    Select(ms, host, Active)
  }

  method ListActiveIncoming(listed: seq<Migration>, host: string) returns (result: seq<Migration>)
    ensures result == ActiveIncoming(listed, host)
  {
    result := [];
    for i := 0 to |listed|
      invariant result == ActiveIncoming(listed[..i], host)
    {
      assert listed[..i + 1][..i] == listed[..i];
      var m := listed[i];
      if m.dest != host {
        continue;
      }
      if Terminal(m.status) {
        continue;
      }
      result := result + [m];
    }
    assert listed[..|listed|] == listed;
  }

  /** Nova's answers: the listing may fail, and an abort of a listed identifier may be refused. */
  datatype NovaMigrations = NovaMigrations(listing: Option<seq<Migration>>, refused: set<int>)

  datatype Settlement = SettleError | Settlement(aborted: seq<Migration>, waiting: seq<Migration>)

  predicate AbortRefused(nova: NovaMigrations, host: string) {
    && nova.listing.Some?
    && exists m :: m in nova.listing.value && Incoming(m, host) && Abortable(m) && m.id in nova.refused
  }

  /** The split a successful settle reports: an error exactly when the listing fails or an
      abort is refused. */
  function Settle(nova: NovaMigrations, host: string): Settlement {
    if nova.listing.None? || AbortRefused(nova, host) then SettleError
    else
      Settlement(Select(nova.listing.value, host, ToAbort), Select(nova.listing.value, host, ToAwait))
  }

  /** Settled means that nothing was aborted and nothing is waited for. */
  predicate IsSettled(s: Settlement) { s.Settlement? && s.aborted == [] && s.waiting == [] }

  lemma {:induction false} SelectTwice(ms: seq<Migration>, host: string, pick: Pick)
    ensures Select(ActiveIncoming(ms, host), host, pick) == Select(ms, host, pick)
  {
    if ms == [] {
    } else {
      var n := |ms| - 1;
      SelectTwice(ms[..n], host, pick);
      var a, b := ActiveIncoming(ms[..n], host), ActiveIncoming(ms, host);
      if Incoming(ms[n], host) {
        assert b[..|b| - 1] == a && b[|b| - 1] == ms[n];
      }
    }
  }

  /** Lists, then aborts one by one. `attempts` is every migration an abort was sent for. */
  method SettleIncoming(nova: NovaMigrations, host: string)
      returns (result: Settlement, attempts: seq<Migration>)
    ensures result == Settle(nova, host)
    ensures forall m :: m in attempts ==>
              nova.listing.Some? && m in nova.listing.value && Incoming(m, host) && Abortable(m)
    ensures result.Settlement? ==> attempts == result.aborted
  {
    attempts := [];
    if nova.listing.None? {
      return SettleError, [];
    }
    var active := ListActiveIncoming(nova.listing.value, host);
    SelectMembers(nova.listing.value, host, Active);
    var aborted, waiting := [], [];
    for i := 0 to |active|
      invariant attempts == aborted == Select(active[..i], host, ToAbort)
      invariant waiting == Select(active[..i], host, ToAwait)
      invariant forall m :: m in attempts ==> m in active && Abortable(m)
      invariant forall m :: m in active[..i] && Abortable(m) ==> m.id !in nova.refused
    {
      assert active[..i + 1][..i] == active[..i];
      var m := active[i];
      assert m in active;
      if AbortableStatus(m.status) && m.live {
        attempts := attempts + [m];
        if m.id in nova.refused {
          assert AbortRefused(nova, host);
          return SettleError, attempts;
        }
        aborted := aborted + [m];
      } else {
        waiting := waiting + [m];
      }
    }
    assert active[..|active|] == active;
    SelectTwice(nova.listing.value, host, ToAbort);
    SelectTwice(nova.listing.value, host, ToAwait);
    result := Settlement(aborted, waiting);
  }

  lemma {:induction false} SplitCounts(ms: seq<Migration>, host: string)
    ensures multiset(Select(ms, host, ToAbort)) + multiset(Select(ms, host, ToAwait))
            == multiset(ActiveIncoming(ms, host))
  {
    if ms == [] {
    } else {
      SplitCounts(ms[..|ms| - 1], host);
    }
  }

  /** A successful settle splits exactly the migrations in flight towards the host, each
      counted as often as it is listed, and reports settled exactly when there are none. */
  lemma SettlePartitions(nova: NovaMigrations, host: string)
    requires Settle(nova, host).Settlement?
    ensures var s := Settle(nova, host);
            && multiset(s.aborted) + multiset(s.waiting) == multiset(ActiveIncoming(nova.listing.value, host))
            && (forall m :: m in s.aborted ==> Abortable(m))
            && (forall m :: m in s.waiting ==> !Abortable(m))
            && (IsSettled(s) <==> forall m :: m in nova.listing.value ==> !Incoming(m, host))
  {
    SplitCounts(nova.listing.value, host);
    SelectMembers(nova.listing.value, host, ToAbort);
    SelectMembers(nova.listing.value, host, ToAwait);
    var s := Settle(nova, host);
    if !IsSettled(s) {
      var m := if s.aborted != [] then s.aborted[0] else s.waiting[0];
      assert m in s.aborted || m in s.waiting;
      assert m in nova.listing.value && Incoming(m, host);
    } else {
      forall m | m in nova.listing.value ensures !Incoming(m, host) {
        assert m !in s.aborted && m !in s.waiting;
      }
    }
  }
}
