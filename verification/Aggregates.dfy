/** Bringing a host into exactly the desired Nova aggregates. */
module Aggregates {
  import opened Basics
  import opened Slices

  // --------------------------------------------------------------- calls

  datatype Call = AddTo(name: string) | RemoveFrom(name: string)

  /** Done: accepted. Rejected: refused without effect. Lost: took effect, but an error was reported. */
  datatype CallReply = Done | Rejected | Lost

  /** Replies in the order the calls are made. */
  function ReplyAt(replies: seq<CallReply>, k: nat): CallReply {
    if k < |replies| then replies[k] else Done
  }

  function Effect(member: set<string>, c: Call, r: CallReply): set<string> {
    if r.Rejected? then member
    else match c case AddTo(n) => member + {n} case RemoveFrom(n) => member - {n}
  }

  /** The aggregates the host is in after the first k calls. */
  function MemberAfter(member: set<string>, calls: seq<Call>, replies: seq<CallReply>, k: nat): set<string>
    requires k <= |calls|
  {
    if k == 0 then member
    else Effect(MemberAfter(member, calls, replies, k - 1), calls[k - 1], ReplyAt(replies, k - 1))
  }

  predicate AllDone(calls: seq<Call>, replies: seq<CallReply>) {
    forall k :: 0 <= k < |calls| ==> ReplyAt(replies, k).Done?
  }

  // ---------------------------------------------------------------- spec

  /** The existing aggregates the host is in, in listing order. */
  function Current(names: seq<string>, member: set<string>): (r: seq<string>)
    ensures forall x :: x in r <==> x in names && x in member
  {
    if names == [] then []
    else
      var n := |names| - 1;
      assert names == names[..n] + [names[n]];
      Current(names[..n], member) + (if names[n] in member then [names[n]] else [])
  }

  function CallsFor(toAdd: seq<string>, toRemove: seq<string>): seq<Call> {
    seq(|toAdd|, i requires 0 <= i < |toAdd| => AddTo(toAdd[i]))
    + seq(|toRemove|, i requires 0 <= i < |toRemove| => RemoveFrom(toRemove[i]))
  }

  predicate Missing(names: seq<string>, desired: seq<string>) {
    exists d :: d in desired && d !in names
  }

  /** Additions first, then removals; nothing at all when a desired aggregate does not exist. */
  function PlannedCalls(names: seq<string>, member: set<string>, desired: seq<string>): seq<Call> {
    if Missing(names, desired) then []
    else
      var current := Current(names, member);
      CallsFor(NotIn(current, desired), NotIn(desired, current))
  }

  datatype Applied = Applied(ok: bool, member: set<string>)

  function Apply(names: seq<string>, member: set<string>, desired: seq<string>, replies: seq<CallReply>): Applied {
    var calls := PlannedCalls(names, member, desired);
    Applied(!Missing(names, desired) && AllDone(calls, replies), MemberAfter(member, calls, replies, |calls|))
  }

  // ---------------------------------------------------------- properties

  /** Every planned call adds a desired aggregate or removes an undesired current one. */
  lemma PlannedShape(names: seq<string>, member: set<string>, desired: seq<string>, k: nat)
    requires k < |PlannedCalls(names, member, desired)|
    ensures match PlannedCalls(names, member, desired)[k]
            case AddTo(n) => n in desired && n in names && n !in member
            case RemoveFrom(n) => n !in desired && n in names && n in member
  {
    var current := Current(names, member);
    var toAdd, toRemove := NotIn(current, desired), NotIn(desired, current);
    var c := CallsFor(toAdd, toRemove)[k];
    if k < |toAdd| {
      assert c.name == toAdd[k] && c.name in toAdd;
    } else {
      assert c.name == toRemove[k - |toAdd|] && c.name in toRemove;
    }
  }

  /** Some call among the first k concerns `x` and took effect. */
  ghost predicate Took(calls: seq<Call>, replies: seq<CallReply>, k: nat, c: Call)
    requires k <= |calls|
  {
    exists j :: 0 <= j < k && calls[j] == c && !ReplyAt(replies, j).Rejected?
  }

  lemma {:induction false} MembershipOf(member: set<string>, calls: seq<Call>, replies: seq<CallReply>, k: nat,
                                        x: string)
    requires k <= |calls|
    requires AddTo(x) !in calls || RemoveFrom(x) !in calls
    ensures x in MemberAfter(member, calls, replies, k)
            <==> (x in member && !Took(calls, replies, k, RemoveFrom(x))) || Took(calls, replies, k, AddTo(x))
  {
    if k > 0 {
      MembershipOf(member, calls, replies, k - 1, x);
      var c := calls[k - 1];
      assert c in calls;
      if c == AddTo(x) && !ReplyAt(replies, k - 1).Rejected? {
        assert Took(calls, replies, k, AddTo(x));
      } else if c == RemoveFrom(x) && !ReplyAt(replies, k - 1).Rejected? {
        assert Took(calls, replies, k, RemoveFrom(x));
      } else {
        TookLess(calls, replies, k, AddTo(x));
        TookLess(calls, replies, k, RemoveFrom(x));
      }
    }
  }

  lemma TookLess(calls: seq<Call>, replies: seq<CallReply>, k: nat, c: Call)
    requires 0 < k <= |calls|
    requires calls[k - 1] != c || ReplyAt(replies, k - 1).Rejected?
    ensures Took(calls, replies, k, c) <==> Took(calls, replies, k - 1, c)
  {
    if Took(calls, replies, k - 1, c) {
      var j :| 0 <= j < k - 1 && calls[j] == c && !ReplyAt(replies, j).Rejected?;
    }
  }

  lemma CallsForAll(toAdd: seq<string>, toRemove: seq<string>, x: string)
    ensures x in toAdd ==> AddTo(x) in CallsFor(toAdd, toRemove)
    ensures x in toRemove ==> RemoveFrom(x) in CallsFor(toAdd, toRemove)
  {
    var calls := CallsFor(toAdd, toRemove);
    if x in toAdd {
      var i :| 0 <= i < |toAdd| && toAdd[i] == x;
      assert calls[i] == AddTo(x);
    }
    if x in toRemove {
      var i :| 0 <= i < |toRemove| && toRemove[i] == x;
      assert calls[|toAdd| + i] == RemoveFrom(x);
    }
  }

  /** Every aggregate that has to be joined or left has its call. */
  lemma PlannedAll(names: seq<string>, member: set<string>, desired: seq<string>, x: string)
    requires !Missing(names, desired)
    ensures var calls := PlannedCalls(names, member, desired);
            && (x in desired && x !in member ==> AddTo(x) in calls)
            && (x !in desired && x in member && x in names ==> RemoveFrom(x) in calls)
  {
    var current := Current(names, member);
    CallsForAll(NotIn(current, desired), NotIn(desired, current), x);
  }

  lemma OneKind(names: seq<string>, member: set<string>, desired: seq<string>, x: string)
    ensures var calls := PlannedCalls(names, member, desired);
            && (AddTo(x) in calls ==> x in desired && x !in member)
            && (RemoveFrom(x) in calls ==> x !in desired && x in member)
            && (!Missing(names, desired) && x in desired && x !in member ==> AddTo(x) in calls)
            && (!Missing(names, desired) && x !in desired && x in member && x in names ==> RemoveFrom(x) in calls)
  {
    var calls := PlannedCalls(names, member, desired);
    if AddTo(x) in calls {
      var k :| 0 <= k < |calls| && calls[k] == AddTo(x);
      PlannedShape(names, member, desired, k);
    }
    if RemoveFrom(x) in calls {
      var k :| 0 <= k < |calls| && calls[k] == RemoveFrom(x);
      PlannedShape(names, member, desired, k);
    }
    if !Missing(names, desired) {
      PlannedAll(names, member, desired, x);
    }
  }

  /** Success leaves the host in exactly the desired aggregates, whatever the replies were. */
  lemma SuccessIsExact(names: seq<string>, member: set<string>, desired: seq<string>, replies: seq<CallReply>)
    requires forall n :: n in member ==> n in names
    requires Apply(names, member, desired, replies).ok
    ensures Apply(names, member, desired, replies).member == Elements(desired)
  {
    var calls := PlannedCalls(names, member, desired);
    forall x ensures x in MemberAfter(member, calls, replies, |calls|) <==> x in desired {
      OneKind(names, member, desired, x);
      MembershipOf(member, calls, replies, |calls|, x);
      DoneTook(calls, replies, AddTo(x));
      DoneTook(calls, replies, RemoveFrom(x));
    }
  }

  /** If every call is accepted, each of them has taken effect. */
  lemma DoneTook(calls: seq<Call>, replies: seq<CallReply>, c: Call)
    requires AllDone(calls, replies)
    ensures Took(calls, replies, |calls|, c) <==> c in calls
  {
    if c in calls {
      var j :| 0 <= j < |calls| && calls[j] == c;
      assert ReplyAt(replies, j).Done?;
    }
  }

  /** No call removes before every addition has been sent. */
  lemma AdditionsFirst(names: seq<string>, member: set<string>, desired: seq<string>, i: nat, j: nat)
    requires i <= j < |PlannedCalls(names, member, desired)|
    requires PlannedCalls(names, member, desired)[i].RemoveFrom?
    ensures PlannedCalls(names, member, desired)[j].RemoveFrom?
  {
  }

  /** The host keeps all its old memberships or already has all desired ones. */
  predicate Covered(before: set<string>, desired: seq<string>, now: set<string>) {
    before <= now || Elements(desired) <= now
  }

  /** As long as no call so far was rejected the host is never left uncovered, not even
      between two calls. */
  lemma NeverUncovered(names: seq<string>, member: set<string>, desired: seq<string>, replies: seq<CallReply>, k: nat)
    requires k <= |PlannedCalls(names, member, desired)|
    requires forall j :: 0 <= j < k ==> !ReplyAt(replies, j).Rejected?
    ensures Covered(member, desired, MemberAfter(member, PlannedCalls(names, member, desired), replies, k))
  {
    var calls := PlannedCalls(names, member, desired);
    var now := MemberAfter(member, calls, replies, k);
    if k == 0 || calls[k - 1].AddTo? {
      forall x | x in member ensures x in now {
        OneKind(names, member, desired, x);
        MembershipOf(member, calls, replies, k, x);
        if j :| 0 <= j < k && calls[j] == RemoveFrom(x) {
          AdditionsFirst(names, member, desired, j, k - 1);
        }
      }
    } else {
      forall x | x in desired ensures x in now {
        OneKind(names, member, desired, x);
        MembershipOf(member, calls, replies, k, x);
        if x !in member {
          var j :| 0 <= j < |calls| && calls[j] == AddTo(x);
          assert j < k;
          assert Took(calls, replies, k, AddTo(x));
        }
      }
    }
  }

  /** After any number of calls, rejected ones among them, the guarantee is lost exactly when some
      addition has not taken effect while some removal has: additions that fail do not stop the
      removals. */
  lemma UncoveredExactly(names: seq<string>, member: set<string>, desired: seq<string>, replies: seq<CallReply>, k: nat)
    requires k <= |PlannedCalls(names, member, desired)|
    ensures var calls := PlannedCalls(names, member, desired);
            !Covered(member, desired, MemberAfter(member, calls, replies, k))
            <==> && !Missing(names, desired)
                 && (exists x :: AddTo(x) in calls && !Took(calls, replies, k, AddTo(x)))
                 && (exists y :: Took(calls, replies, k, RemoveFrom(y)))
  {
    var calls := PlannedCalls(names, member, desired);
    var now := MemberAfter(member, calls, replies, k);
    if Missing(names, desired) {
      assert now == member;
    } else if x :| AddTo(x) in calls && !Took(calls, replies, k, AddTo(x)) {
      MembershipAfter(names, member, desired, replies, k, x);
      assert x in desired && x !in now;
      if y :| Took(calls, replies, k, RemoveFrom(y)) {
        MembershipAfter(names, member, desired, replies, k, y);
        assert y in member && y !in now;
      } else {
        forall z | z in member ensures z in now { MembershipAfter(names, member, desired, replies, k, z); }
      }
    } else {
      forall z | z in desired ensures z in now { MembershipAfter(names, member, desired, replies, k, z); }
    }
  }

  lemma MembershipAfter(names: seq<string>, member: set<string>, desired: seq<string>, replies: seq<CallReply>, k: nat,
                        x: string)
    requires k <= |PlannedCalls(names, member, desired)|
    ensures var calls := PlannedCalls(names, member, desired);
            && (AddTo(x) in calls ==> x in desired && x !in member)
            && (Took(calls, replies, k, RemoveFrom(x)) ==> x !in desired && x in member)
            && (!Missing(names, desired) && x in desired && x !in member ==> AddTo(x) in calls)
            && (x in MemberAfter(member, calls, replies, k)
                <==> (x in member && !Took(calls, replies, k, RemoveFrom(x))) || Took(calls, replies, k, AddTo(x)))
  {
    var calls := PlannedCalls(names, member, desired);
    OneKind(names, member, desired, x);
    MembershipOf(member, calls, replies, k, x);
  }

  lemma {:induction false} RemovalsShrink(member: set<string>, calls: seq<Call>, replies: seq<CallReply>, k: nat)
    requires k <= |calls| && forall j :: 0 <= j < |calls| ==> calls[j].RemoveFrom?
    ensures MemberAfter(member, calls, replies, k) <= member
  {
    if k > 0 {
      RemovalsShrink(member, calls, replies, k - 1);
    }
  }

  /** Clearing all memberships never adds one. */
  lemma ClearingOnlyRemoves(names: seq<string>, member: set<string>, replies: seq<CallReply>)
    ensures Apply(names, member, [], replies).member <= member
    ensures forall j :: 0 <= j < |PlannedCalls(names, member, [])| ==> PlannedCalls(names, member, [])[j].RemoveFrom?
  {
    var calls := PlannedCalls(names, member, []);
    forall j | 0 <= j < |calls| ensures calls[j].RemoveFrom? {
      PlannedShape(names, member, [], j);
    }
    RemovalsShrink(member, calls, replies, |calls|);
  }

  // ---------------------------------------------------- the client's state

  datatype Aggregate = Aggregate(id: int, name: string, uuid: string, hosts: set<string>)

  ghost predicate Unique(all: seq<Aggregate>) {
    forall i, j :: 0 <= i < j < |all| ==> all[i].name != all[j].name && all[i].id != all[j].id
  }

  function NamesOf(all: seq<Aggregate>): (r: seq<string>)
    ensures |r| == |all| && forall i :: 0 <= i < |all| ==> r[i] == all[i].name
  {
    seq(|all|, i requires 0 <= i < |all| => all[i].name)
  }

  function MemberOf(all: seq<Aggregate>, host: string): set<string> {
    set a | a in all && host in a.hosts :: a.name
  }

  function Updated(all: seq<Aggregate>, id: int, host: string, join: bool): (r: seq<Aggregate>)
    ensures |r| == |all|
    ensures forall i :: 0 <= i < |all| ==>
              r[i] == if all[i].id != id then all[i]
                      else all[i].(hosts := if join then all[i].hosts + {host} else all[i].hosts - {host})
  {
    seq(|all|, i requires 0 <= i < |all| =>
      if all[i].id != id then all[i]
      else all[i].(hosts := if join then all[i].hosts + {host} else all[i].hosts - {host}))
  }

  lemma UpdatedMember(all: seq<Aggregate>, i: nat, host: string, join: bool)
    requires Unique(all) && i < |all|
    ensures MemberOf(Updated(all, all[i].id, host, join), host)
            == if join then MemberOf(all, host) + {all[i].name} else MemberOf(all, host) - {all[i].name}
    ensures Unique(Updated(all, all[i].id, host, join))
    ensures NamesOf(Updated(all, all[i].id, host, join)) == NamesOf(all)
  {
    var r := Updated(all, all[i].id, host, join);
    assert Unique(r) by {
      forall x, y | 0 <= x < y < |r| ensures r[x].name != r[y].name && r[x].id != r[y].id {
        assert all[x].name != all[y].name && all[x].id != all[y].id;
      }
    }
    forall n ensures n in MemberOf(r, host) <==> if join then n in MemberOf(all, host) || n == all[i].name
                                                  else n in MemberOf(all, host) && n != all[i].name
    {
      if n in MemberOf(all, host) {
        var a :| a in all && host in a.hosts && a.name == n;
        var j :| 0 <= j < |all| && all[j] == a;
        assert r[j] in r && r[j].name == n;
        assert j != i ==> all[j].id != all[i].id && all[j].name != all[i].name;
      }
      if n in MemberOf(r, host) {
        var a :| a in r && host in a.hosts && a.name == n;
        var j :| 0 <= j < |r| && r[j] == a;
        assert all[j] in all;
        assert j != i ==> all[j].id != all[i].id && all[j].name != all[i].name;
      }
      if n == all[i].name && join {
        assert r[i] in r && host in r[i].hosts;
      }
    }
  }

  ghost predicate DoneRange(replies: seq<CallReply>, a: nat, b: nat) {
    forall k: nat :: a <= k < b ==> ReplyAt(replies, k).Done?
  }

  lemma DoneRangeStep(replies: seq<CallReply>, a: nat, b: nat)
    requires a <= b
    ensures DoneRange(replies, a, b + 1) <==> DoneRange(replies, a, b) && ReplyAt(replies, b).Done?
  {
  }

  /** Every recorded aggregate is listed under its name and identifier. */
  ghost predicate Indexed(found: map<string, Aggregate>, all: seq<Aggregate>) {
    forall n :: n in found ==> Leads(n, found[n].id, all)
  }

  ghost predicate Leads(n: string, id: int, all: seq<Aggregate>) {
    exists i :: 0 <= i < |all| && all[i].name == n && all[i].id == id
  }

  lemma IndexedStays(found: map<string, Aggregate>, before: seq<Aggregate>, after: seq<Aggregate>)
    requires Indexed(found, before) && |before| == |after|
    requires forall i :: 0 <= i < |before| ==> after[i].id == before[i].id && after[i].name == before[i].name
    ensures Indexed(found, after)
  {
    forall n | n in found ensures Leads(n, found[n].id, after) {
      assert Leads(n, found[n].id, before);
      var i :| 0 <= i < |before| && before[i].name == n && before[i].id == found[n].id;
      assert after[i].name == n;
    }
  }

  lemma InMember(all: seq<Aggregate>, i: nat, host: string)
    requires Unique(all) && i < |all|
    ensures all[i].name in MemberOf(all, host) <==> host in all[i].hosts
  {
    assert all[i] in all;
    if all[i].name in MemberOf(all, host) {
      var a :| a in all && host in a.hosts && a.name == all[i].name;
      var j :| 0 <= j < |all| && all[j] == a;
      assert j == i;
    }
  }

  /** What one more aggregate adds to the names seen and to the current ones. */
  lemma SurveyStep(all: seq<Aggregate>, i: nat, host: string)
    requires Unique(all) && i < |all|
    ensures var names, base := NamesOf(all), MemberOf(all, host);
            && (forall n :: n in names[..i + 1] <==> n in names[..i] || n == all[i].name)
            && Current(names[..i + 1], base)
                == Current(names[..i], base) + (if host in all[i].hosts then [all[i].name] else [])
  {
    TakeNext(NamesOf(all), i);
    InMember(all, i, host);
  }

  class NovaClient {
    var all: seq<Aggregate>
    var sent: seq<Call>
    var replies: seq<CallReply>

    ghost predicate Valid()
      reads this
    { Unique(all) }

    /** Sends one call for the aggregate recorded under its name. */
    method Send(c: Call, found: map<string, Aggregate>, host: string) returns (ok: bool)
      requires Valid() && c.name in found && Leads(c.name, found[c.name].id, all)
      modifies `all, `sent
      ensures Valid() && sent == old(sent) + [c] && NamesOf(all) == old(NamesOf(all))
      ensures |all| == |old(all)|
      ensures forall i :: 0 <= i < |all| ==> all[i].id == old(all[i].id) && all[i].name == old(all[i].name)
      ensures ok == ReplyAt(replies, |old(sent)|).Done?
      ensures MemberOf(all, host) == Effect(old(MemberOf(all, host)), c, ReplyAt(replies, |old(sent)|))
    {
      var r := ReplyAt(replies, |sent|);
      sent := sent + [c];
      ghost var i :| 0 <= i < |all| && all[i].name == c.name && all[i].id == found[c.name].id;
      if !r.Rejected? {
        UpdatedMember(all, i, host, c.AddTo?);
        all := Updated(all, found[c.name].id, host, c.AddTo?);
      }
      ok := r.Done?;
    }

    /** The first calls of the plan have been sent and have had their effect. */
    ghost predicate Synced(found: map<string, Aggregate>, host: string, planned: seq<Call>, base: set<string>)
      reads this
    {
      && Valid() && Indexed(found, all)
      && sent <= planned
      && MemberOf(all, host) == MemberAfter(base, planned, replies, |sent|)
    }

    /** Sends the next planned calls up to position `to`, whatever the replies are. */
    method SendUpTo(planned: seq<Call>, to: nat, found: map<string, Aggregate>, host: string, ghost base: set<string>)
        returns (ok: bool)
      requires Synced(found, host, planned, base) && |sent| <= to <= |planned|
      requires forall c :: c in planned ==> c.name in found
      modifies `all, `sent
      ensures Synced(found, host, planned, base) && |sent| == to
      ensures ok <==> DoneRange(replies, |old(sent)|, to)
    {
      ok := true;
      ghost var start := |sent|;
      while |sent| < to
        invariant Synced(found, host, planned, base) && start <= |sent| <= to
        invariant ok <==> DoneRange(replies, start, |sent|)
      {
        DoneRangeStep(replies, start, |sent|);
        var done := SendNext(planned, found, host, base);
        if !done {
          ok := false;
        }
      }
    }

    method SendNext(planned: seq<Call>, found: map<string, Aggregate>, host: string, ghost base: set<string>)
        returns (done: bool)
      requires Synced(found, host, planned, base) && |sent| < |planned|
      requires forall c :: c in planned ==> c.name in found
      modifies `all, `sent
      ensures Synced(found, host, planned, base) && |sent| == |old(sent)| + 1
      ensures done == ReplyAt(replies, |old(sent)|).Done?
    {
      ghost var before := all;
      done := Send(planned[|sent|], found, host);
      IndexedStays(found, before, all);
    }

    /** Records the listed aggregates by name and collects those the host is in. */
    method Survey(host: string) returns (found: map<string, Aggregate>, current: seq<string>)
      requires Valid()
      ensures current == Current(NamesOf(all), MemberOf(all, host))
      ensures forall n :: n in found <==> n in NamesOf(all)
      ensures forall n :: n in found ==> found[n] in all && found[n].name == n
    {
      var listed := all;
      ghost var names, base := NamesOf(all), MemberOf(all, host);
      found, current := map[], [];
      for i := 0 to |listed|
        invariant current == Current(names[..i], base)
        invariant forall n :: n in found <==> n in names[..i]
        invariant forall n :: n in found ==> found[n] in listed && found[n].name == n
      {
        var agg := listed[i];
        SurveyStep(listed, i, host);
        found := found[agg.name := agg];
        if host in agg.hosts {
          current := current + [agg.name];
        }
      }
      assert names[..|listed|] == names;
    }

    method FindMissing(found: map<string, Aggregate>, desired: seq<string>) returns (missing: seq<string>)
      ensures forall d :: d in missing <==> d in desired && d !in found
    {
      missing := [];
      for i := 0 to |desired|
        invariant forall d :: d in missing <==> d in desired[..i] && d !in found
      {
        if desired[i] !in found {
          missing := missing + [desired[i]];
        }
      }
    }

    /** Sends all planned calls: first the additions, then the removals. */
    method Execute(found: map<string, Aggregate>, host: string, toAdd: seq<string>, toRemove: seq<string>)
        returns (ok: bool)
      requires Valid() && sent == [] && Indexed(found, all)
      requires forall n :: n in toAdd || n in toRemove ==> n in found
      modifies `all, `sent
      ensures Valid() && sent == CallsFor(toAdd, toRemove)
      ensures ok <==> AllDone(sent, replies)
      ensures MemberOf(all, host) == MemberAfter(old(MemberOf(all, host)), sent, replies, |sent|)
    {
      ghost var base := MemberOf(all, host);
      var planned := CallsFor(toAdd, toRemove);
      forall c | c in planned ensures c.name in found {
        assert c.name in toAdd || c.name in toRemove;
      }
      var okAdd := SendUpTo(planned, |toAdd|, found, host, base);
      var okRemove := SendUpTo(planned, |planned|, found, host, base);
      ok := okAdd && okRemove;
    }

    /** The whole operation. On success the result lists the desired aggregates in order. */
    method ApplyAggregates(host: string, desired: seq<string>) returns (result: Option<seq<Aggregate>>)
      requires Valid() && sent == []
      modifies `all, `sent
      ensures Valid()
      ensures var spec := Apply(old(NamesOf(all)), old(MemberOf(all, host)), desired, replies);
              result.Some? == spec.ok && MemberOf(all, host) == spec.member
      ensures sent == PlannedCalls(old(NamesOf(all)), old(MemberOf(all, host)), desired)
      ensures result.Some? ==> |result.value| == |desired|
      ensures result.Some?
              ==> forall i :: 0 <= i < |desired| ==> result.value[i].name == desired[i] && result.value[i] in old(all)
    {
      var found, current := Survey(host);
      var toAdd := Difference(current, desired);
      var toRemove := Difference(desired, current);
      var missing := FindMissing(found, desired);
      if missing != [] {
        assert missing[0] in missing;
        return None;
      }
      forall n | n in found ensures Leads(n, found[n].id, all) {
        var i :| 0 <= i < |all| && all[i] == found[n];
      }
      var ok := Execute(found, host, toAdd, toRemove);
      if !ok {
        return None;
      }
      return Some(seq(|desired|, i requires 0 <= i < |desired| => found[desired[i]]));
    }
  }
}
