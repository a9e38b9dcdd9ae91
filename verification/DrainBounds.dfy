/**
 Quantitative facts about whole sequences of drain passes: how many instances
 can be on the move at once, and how many passes an undisturbed drain takes.
 */
module DrainBounds {
  import opened Basics
  import opened Drain
  import opened DrainShape
  import Concurrency

  // -------------------------------------------------------- runs of passes

  /** One pass as the environment sees it: Nova's answers, the resolved limit, and whether the
      status update lands. Migrations that were triggered go on even if it is lost. */
  datatype Round = Round(nova: Nova, limit: int, persisted: bool)

  /** The outcome of round k-1, which is the state round k starts from. */
  function After(queue: seq<string>, verdict: Verdict, host: string, rounds: seq<Round>, k: nat): Pass
    requires k <= |rounds|
  {
    if k == 0 then Pass(queue, verdict, 0, [], [])
    else
      var p := After(queue, verdict, host, rounds, k - 1);
      var r := RunPass(p.queue, p.verdict, rounds[k - 1].nova, host, rounds[k - 1].limit);
      if rounds[k - 1].persisted then r else r.(queue := p.queue, verdict := p.verdict)
  }

  // ----------------------------------------------------- concurrency bound

  /** Outstanding instances that are being moved. */
  function OnTheMove(queue: seq<string>, nova: Nova): set<string> {
    set u | u in queue && u in nova.servers && Underway(nova.servers[u])
  }

  /** Those among them the pass cannot see because their lookup fails. */
  function Hidden(queue: seq<string>, nova: Nova): set<string> {
    set u | u in OnTheMove(queue, nova) && u in nova.flaky
  }

  /** Nova once the migrations started by a pass have become visible. */
  function Visible(nova: Nova, started: seq<Candidate>): Nova {
    nova.(servers := map u | u in nova.servers ::
            if u in Ids(started) then nova.servers[u].(taskState := "migrating") else nova.servers[u])
  }

  function Seen(us: seq<string>, nova: Nova, host: string): set<string> {
    set u | u in us && u !in nova.flaky && u in nova.servers && Underway(nova.servers[u])
  }

  lemma SeenFirst(us: seq<string>, nova: Nova, host: string)
    requires us != []
    ensures |Seen(us, nova, host)| <= |Seen(us[1..], nova, host)| + if Occupies(nova, host, us[0]) then 1 else 0
  {
    var rest := us[1..];
    assert us == [us[0]] + rest;
    if us[0] in Seen(us, nova, host) {
      assert Seen(us, nova, host) == {us[0]} + Seen(rest, nova, host);
    } else {
      assert Seen(us, nova, host) == Seen(rest, nova, host);
    }
  }

  lemma {:induction false} ScanCountsSeen(p: Pass, nova: Nova, host: string, us: seq<string>, limit: nat)
    ensures var r := Scan(p, nova, host, us, limit);
            r.inFlight < limit ==> r.inFlight >= p.inFlight + |Seen(us, nova, host)|
    decreases |us|
  {
    if us == [] {
      assert Seen(us, nova, host) == {};
    } else if p.inFlight < limit {
      ScanCountsSeen(ScanOne(p, nova, host, us[0]), nova, host, us[1..], limit);
      SeenFirst(us, nova, host);
    }
  }

  lemma {:induction false} StartRespectsLimit(p: Pass, nova: Nova, cs: seq<Candidate>, limit: nat)
    ensures var r := Start(p, nova, cs, limit);
            && r.inFlight == p.inFlight
            && p.started <= r.started
            && (|r.started| > |p.started| ==> r.inFlight + |r.started| <= limit)
    decreases |cs|
  {
    if cs == [] || p.inFlight + |p.started| >= limit {
    } else {
      StartRespectsLimit(StartOne(p, nova, cs[0]), nova, cs[1..], limit);
    }
  }

  lemma MembersStay(before: seq<string>, after: seq<string>, nova: Nova, host: string)
    requires OnlyDeparted(before, after, nova, host)
    ensures forall u :: u in after ==> u in before
  {
    forall u | u in after ensures u in before {
      assert multiset(after)[u] > 0;
      assert u in multiset(before);
    }
  }

  /** One pass never raises the number of moving instances above the larger of what
      it was before and the limit plus the movers hidden by failing lookups, whether its
      status update lands or is lost. */
  lemma PassBound(queue: seq<string>, verdict: Verdict, nova: Nova, host: string, limit: int)
    ensures var p := RunPass(queue, verdict, nova, host, limit);
            var bound := Max(|OnTheMove(queue, nova)|, Clamp(limit) + |Hidden(queue, nova)|);
            && |OnTheMove(p.queue, Visible(nova, p.started))| <= bound
            && |OnTheMove(queue, Visible(nova, p.started))| <= bound
  {
    var p0 := Pass(queue, verdict, 0, [], []);
    var s := Scanned(queue, verdict, nova, host, limit);
    var p := RunPass(queue, verdict, nova, host, limit);
    var nova' := Visible(nova, p.started);
    PassConserves(queue, verdict, nova, host, limit);
    MembersStay(queue, p.queue, nova, host);
    ScanKeeps(p0, nova, host, queue, Clamp(limit));
    ScanCountsSeen(p0, nova, host, queue, Clamp(limit));
    StartRespectsLimit(s, nova, s.candidates, Clamp(limit));
    var before, fresh' := OnTheMove(queue, nova), Elements(Ids(p.started));
    assert OnTheMove(p.queue, nova') <= OnTheMove(queue, nova') <= before + fresh';
    Subset(OnTheMove(p.queue, nova'), before + fresh');
    Subset(OnTheMove(queue, nova'), before + fresh');
    if p.started == [] {
      assert before + fresh' == before;
    } else {
      assert before <= Seen(queue, nova, host) + Hidden(queue, nova);
      Subset(before, Seen(queue, nova, host) + Hidden(queue, nova));
    }
  }

  lemma {:induction false} Subset<T>(a: set<T>, b: set<T>)
    requires a <= b
    ensures |a| <= |b|
    decreases a
  {
    if x :| x in a {
      Subset(a - {x}, b - {x});
    }
  }

  /** Between two rounds nothing but this drain starts a migration of an
      outstanding instance, and lookups of moving instances succeed. */
  ghost predicate Undisturbed(queue: seq<string>, verdict: Verdict, host: string, rounds: seq<Round>) {
    && (forall k :: 0 <= k < |rounds| ==>
          Hidden(After(queue, verdict, host, rounds, k).queue, rounds[k].nova) == {})
    && (forall k :: 0 < k < |rounds| ==>
          var p := After(queue, verdict, host, rounds, k);
          OnTheMove(p.queue, rounds[k].nova) <= OnTheMove(p.queue, Visible(rounds[k - 1].nova, p.started)))
  }

  /** The bound over whole runs. */
  lemma {:induction false} RunBound(queue: seq<string>, verdict: Verdict, host: string, rounds: seq<Round>, limit: int,
                                    k: nat)
    requires Undisturbed(queue, verdict, host, rounds)
    requires forall i :: 0 <= i < |rounds| ==> Clamp(rounds[i].limit) <= limit
    requires k < |rounds|
    ensures var p := After(queue, verdict, host, rounds, k);
            |OnTheMove(p.queue, rounds[k].nova)| <= Max(|OnTheMove(queue, rounds[0].nova)|, limit)
  {
    if k == 0 {
    } else {
      RunBound(queue, verdict, host, rounds, limit, k - 1);
      var q, p := After(queue, verdict, host, rounds, k - 1), After(queue, verdict, host, rounds, k);
      PassBound(q.queue, q.verdict, rounds[k - 1].nova, host, rounds[k - 1].limit);
      Subset(OnTheMove(p.queue, rounds[k].nova), OnTheMove(p.queue, Visible(rounds[k - 1].nova, p.started)));
    }
  }

  /** With limits resolved from a configuration, in any trait order and even if the traits
      change between rounds, the default bounds the run; so does the limit of a trait
      the host carries throughout, neither counting for less than 1. */
  lemma ConfiguredRunBound(queue: seq<string>, host: string, rounds: seq<Round>, cfg: Concurrency.Config,
                           traits: seq<seq<string>>, t: string, k: nat)
    requires Undisturbed(queue, Unset, host, rounds) && |traits| == |rounds| && k < |rounds|
    requires forall i :: 0 <= i < |rounds| ==> rounds[i].limit == Concurrency.Resolved(cfg, traits[i])
    ensures var moving := |OnTheMove(After(queue, Unset, host, rounds, k).queue, rounds[k].nova)|;
            var first := |OnTheMove(queue, rounds[0].nova)|;
            && moving <= Max(first, Max(1, cfg.defaultLimit))
            && (t in cfg.traitLimits && (forall i :: 0 <= i < |traits| ==> t in traits[i])
                ==> moving <= Max(first, Max(1, cfg.traitLimits[t])))
  {
    forall i | 0 <= i < |rounds| ensures Clamp(rounds[i].limit) <= Max(1, cfg.defaultLimit) {
      assert Concurrency.IsLowest(Concurrency.Lowest(cfg, traits[i]), cfg, traits[i]);
    }
    RunBound(queue, Unset, host, rounds, Max(1, cfg.defaultLimit), k);
    if t in cfg.traitLimits && forall i :: 0 <= i < |traits| ==> t in traits[i] {
      forall i | 0 <= i < |rounds| ensures Clamp(rounds[i].limit) <= Max(1, cfg.traitLimits[t]) {
        assert Concurrency.IsLowest(Concurrency.Lowest(cfg, traits[i]), cfg, traits[i]);
        assert t in traits[i];
      }
      RunBound(queue, Unset, host, rounds, Max(1, cfg.traitLimits[t]), k);
    }
  }

  lemma StartedHealthy(queue: seq<string>, verdict: Verdict, nova: Nova, host: string, limit: int, u: string)
    requires u in Ids(RunPass(queue, verdict, nova, host, limit).started)
    ensures u in queue && Movable(nova, host, u) && nova.Trigger(u).Accepted?
  {
    PassTriggers(queue, verdict, nova, host, limit);
    var trials := Trials(queue, nova, host, limit);
    AcceptedPart(trials, nova);
    BagMember(AcceptedOf(trials, nova), trials, u);
    TrialHealthy(queue, nova, host, limit, u);
  }

  /** A server that a trigger was accepted for is moving once that has become visible. */
  lemma TriggeredIsUnderway(vm: Server)
    requires !vm.status.ERROR?
    ensures Underway(vm.(taskState := "migrating"))
  {
    assert "migrat" <= "migrating";
  }

  /** After a pass exactly the earlier movers and the started instances are moving. */
  lemma MoversAfter(queue: seq<string>, verdict: Verdict, nova: Nova, host: string, limit: int)
    ensures var p := RunPass(queue, verdict, nova, host, limit);
            && OnTheMove(p.queue, Visible(nova, p.started)) == OnTheMove(queue, nova) + Elements(Ids(p.started))
            && OnTheMove(queue, nova) !! Elements(Ids(p.started))
  {
    var p := RunPass(queue, verdict, nova, host, limit);
    var nova' := Visible(nova, p.started);
    forall u ensures u in OnTheMove(p.queue, nova') <==> u in OnTheMove(queue, nova) || u in Ids(p.started) {
      StaysQueued(queue, verdict, nova, host, limit, u);
      if u in Ids(p.started) {
        StartedHealthy(queue, verdict, nova, host, limit, u);
        TriggeredIsUnderway(nova.servers[u]);
      }
    }
    forall u | u in Ids(p.started) ensures u !in OnTheMove(queue, nova) {
      StartedHealthy(queue, verdict, nova, host, limit, u);
    }
  }

  lemma {:induction false} OncePerElement(s: seq<string>)
    requires forall u :: multiset(s)[u] <= 1
    ensures |Elements(s)| == |s|
  {
    if s != [] {
      assert s == [s[0]] + s[1..];
      forall u ensures multiset(s[1..])[u] <= 1 {
        assert multiset(s)[u] <= 1;
      }
      OncePerElement(s[1..]);
      assert multiset(s)[s[0]] == 1 && s[0] !in multiset(s[1..]);
    }
  }

  lemma StartedOnce(queue: seq<string>, verdict: Verdict, nova: Nova, host: string, limit: int)
    requires Distinct(queue)
    ensures var ids := Ids(RunPass(queue, verdict, nova, host, limit).started); |Elements(ids)| == |ids|
  {
    PassTriggers(queue, verdict, nova, host, limit);
    TrialsPart(queue, nova, host, limit);
    AcceptedPart(Trials(queue, nova, host, limit), nova);
    var ids := Ids(RunPass(queue, verdict, nova, host, limit).started);
    forall u ensures multiset(ids)[u] <= 1 {
      DistinctCounts(queue, u);
      assert multiset(ids) <= multiset(queue);
    }
    OncePerElement(ids);
  }

  /** Healthy instances whose trigger Nova would accept. */
  function Takers(queue: seq<string>, nova: Nova, host: string): nat {
    |AcceptedOf(HealthyOf(queue, nova, host), nova)|
  }

  /** The number of moving instances after a pass over a duplicate-free queue. */
  lemma MoversCount(queue: seq<string>, verdict: Verdict, nova: Nova, host: string, limit: int)
    requires Distinct(queue)
    ensures var p := RunPass(queue, verdict, nova, host, limit);
            |OnTheMove(p.queue, Visible(nova, p.started))|
            == |OnTheMove(queue, nova)|
               + Min(Takers(queue, nova, host), Max(0, Clamp(limit) - Occupied(queue, nova, host)))
  {
    var p := RunPass(queue, verdict, nova, host, limit);
    MoversAfter(queue, verdict, nova, host, limit);
    StartedOnce(queue, verdict, nova, host, limit);
    StartedExactly(queue, verdict, nova, host, limit);
    var before, started := OnTheMove(queue, nova), Elements(Ids(p.started));
    assert |before + started| == |before| + |p.started|;
  }

  /** The moving instances a pass over this queue leaves behind, once its triggers are visible. */
  function MoversLeft(queue: seq<string>, verdict: Verdict, nova: Nova, host: string, limit: int): nat {
    var p := RunPass(queue, verdict, nova, host, limit);
    |OnTheMove(p.queue, Visible(nova, p.started))|
  }

  /** The moving instances before a pass: those it sees and those hidden by failing lookups. */
  function MoversBefore(queue: seq<string>, nova: Nova, host: string): nat {
    |Seen(queue, nova, host)| + |Hidden(queue, nova)|
  }

  lemma MoversBalance(queue: seq<string>, verdict: Verdict, nova: Nova, host: string, limit: int)
    requires Distinct(queue)
    ensures MoversBefore(queue, nova, host) == |OnTheMove(queue, nova)|
    ensures MoversLeft(queue, verdict, nova, host, limit)
            == MoversBefore(queue, nova, host)
               + Min(Takers(queue, nova, host), Max(0, Clamp(limit) - Occupied(queue, nova, host)))
  {
    MoversCount(queue, verdict, nova, host, limit);
    SeenOrHidden(queue, nova, host);
  }

  /** Exactly when a pass over a duplicate-free queue takes the number of moving instances above
      both what it was and the limit: a slot looks free, there is an instance to fill it, and the
      movers hidden by failing lookups tip the balance. */
  lemma LimitExceededExactly(queue: seq<string>, verdict: Verdict, nova: Nova, host: string, limit: int)
    requires Distinct(queue)
    ensures var before, free := MoversBefore(queue, nova, host), Clamp(limit) - Occupied(queue, nova, host);
            var takers := Takers(queue, nova, host);
            MoversLeft(queue, verdict, nova, host, limit) > Max(before, Clamp(limit))
            <==> free > 0 && takers > 0 && before + Min(takers, free) > Clamp(limit)
  {
    MoversBalance(queue, verdict, nova, host, limit);
    Tips(MoversBefore(queue, nova, host), Takers(queue, nova, host), Clamp(limit) - Occupied(queue, nova, host),
         Clamp(limit));
  }

  lemma Tips(before: nat, takers: nat, free: int, limit: nat)
    ensures before + Min(takers, Max(0, free)) > Max(before, limit)
            <==> free > 0 && takers > 0 && before + Min(takers, free) > limit
  {
  }

  lemma SeenOrHidden(queue: seq<string>, nova: Nova, host: string)
    ensures |OnTheMove(queue, nova)| == |Seen(queue, nova, host)| + |Hidden(queue, nova)|
  {
    var seen, hidden := Seen(queue, nova, host), Hidden(queue, nova);
    forall u ensures u in OnTheMove(queue, nova) <==> u in seen || u in hidden {
    }
    assert OnTheMove(queue, nova) == seen + hidden;
    assert seen !! hidden;
  }

  /** A single failing lookup is enough to exceed a limit of one: the hidden mover
      is not counted, so a second migration is started beside it. */
  lemma HiddenMoverBreaksLimit(a: string, b: string, nova: Nova, host: string)
    requires a != b && a in nova.flaky && a in nova.servers && Underway(nova.servers[a])
    requires Movable(nova, host, b) && nova.Trigger(b).Accepted?
    ensures OnTheMove([a, b], nova) == {a}
    ensures var p := RunPass([a, b], Unset, nova, host, 1);
            OnTheMove(p.queue, Visible(nova, p.started)) == {a, b}
  {
    var queue := [a, b];
    var p0 := Pass(queue, Unset, 0, [], []);
    var cs := [Candidate(b, Live(nova.servers[b]))];
    assert ScanOne(p0, nova, host, a) == p0;
    assert queue[1..] == [b] && [b][1..] == [];
    var p1 := p0.(candidates := cs);
    assert ScanOne(p0, nova, host, b) == p1 by { assert [] + cs == cs; }
    assert Scan(p1, nova, host, [], 1) == p1;
    assert Scan(p0, nova, host, [b], 1) == p1;
    assert Scanned(queue, Unset, nova, host, 1) == p1;
    var p := RunPass(queue, Unset, nova, host, 1);
    var p2 := p1.(started := cs);
    assert StartOne(p1, nova, cs[0]) == p2 by { assert [] + cs == cs; }
    assert cs[1..] == [];
    assert Start(p2, nova, [], 1) == p2;
    assert p == p2;
    assert Ids(p.started) == [b];
    assert Underway(nova.servers[b].(taskState := "migrating")) by {
      assert "migrat" <= "migrating";
    }
  }

  // ----------------------------------------------------------- drain length

  /** Every identifier the first k rounds started a migration for, in order. */
  function Triggered(queue: seq<string>, verdict: Verdict, host: string, rounds: seq<Round>, k: nat): seq<string>
    requires k <= |rounds|
  {
    if k == 0 then []
    else Triggered(queue, verdict, host, rounds, k - 1) + Ids(After(queue, verdict, host, rounds, k).started)
  }

  predicate HasLeft(nova: Nova, host: string, u: string) {
    ScanDeparted(nova, host, u) && (u in nova.servers ==> !nova.servers[u].status.VERIFY_RESIZE?)
  }

  /** In every round the instances already triggered are off the host, the others
      are healthy and can be triggered, the limit is the same and no status update is lost. */
  ghost predicate Smooth(queue: seq<string>, host: string, rounds: seq<Round>, limit: int) {
    forall k :: 0 <= k < |rounds| ==> SmoothRound(queue, host, rounds, limit, k)
  }

  ghost predicate SmoothRound(queue: seq<string>, host: string, rounds: seq<Round>, limit: int, k: nat)
    requires k < |rounds|
  {
    && Max(1, rounds[k].limit) == limit && rounds[k].persisted
    && var nova := rounds[k].nova;
       forall u :: u in queue ==>
         if u in Triggered(queue, Unset, host, rounds, k) then HasLeft(nova, host, u)
         else Movable(nova, host, u) && nova.Trigger(u).Accepted?
  }

  lemma {:induction false} ScanLine(p: Pass, nova: Nova, host: string, gone: seq<string>, here: seq<string>, limit: nat)
    requires p.queue == gone + here && p.inFlight == 0 < limit
    requires forall u :: u in gone ==> HasLeft(nova, host, u)
    ensures var r := Scan(p, nova, host, gone + here, limit);
            exists v :: r == Scan(p.(queue := here, verdict := v), nova, host, here, limit)
    decreases |gone|
  {
    if gone == [] {
      assert gone + here == here;
      assert p == p.(queue := here, verdict := p.verdict);
    } else {
      var us := gone + here;
      assert us[1..] == gone[1..] + here;
      var p' := ScanOne(p, nova, host, us[0]);
      assert us[0] == gone[0] && HasLeft(nova, host, gone[0]);
      assert p' == Drop(p, us[0]);
      ScanLine(p', nova, host, gone[1..], here, limit);
      var v :| Scan(p', nova, host, gone[1..] + here, limit)
          == Scan(p'.(queue := here, verdict := v), nova, host, here, limit);
      assert p'.(queue := here, verdict := v) == p.(queue := here, verdict := v);
    }
  }

  lemma {:induction false} ScanHealthy(p: Pass, nova: Nova, host: string, here: seq<string>, limit: nat)
    requires p.inFlight == 0 < limit
    requires forall u :: u in here ==> Movable(nova, host, u)
    ensures var r := Scan(p, nova, host, here, limit);
            && r.queue == p.queue && r.inFlight == 0 && r.started == p.started
            && Ids(r.candidates) == Ids(p.candidates) + here
    decreases |here|
  {
    if here == [] {
      assert Ids(p.candidates) + here == Ids(p.candidates);
    } else {
      var p' := ScanOne(p, nova, host, here[0]);
      assert Movable(nova, host, here[0]);
      ScanHealthy(p', nova, host, here[1..], limit);
      assert Ids(p'.candidates) == Ids(p.candidates) + [here[0]];
      assert Ids(p.candidates) + here == Ids(p'.candidates) + here[1..];
    }
  }

  lemma {:induction false} StartAccepted(p: Pass, nova: Nova, cs: seq<Candidate>, limit: nat)
    requires p.inFlight == 0 && |p.started| <= limit
    requires forall c :: c in cs ==> nova.Trigger(c.id).Accepted?
    ensures var r := Start(p, nova, cs, limit);
            r.queue == p.queue && r.started == p.started + cs[..Min(|cs|, limit - |p.started|)]
    decreases |cs|
  {
    if cs == [] || |p.started| >= limit {
      assert cs[..Min(|cs|, limit - |p.started|)] == [];
    } else {
      assert cs[0] in cs;
      StartAccepted(StartOne(p, nova, cs[0]), nova, cs[1..], limit);
      var n := Min(|cs|, limit - |p.started|);
      assert cs[..n] == [cs[0]] + cs[1..][..n - 1];
    }
  }

  lemma SmoothScan(verdict: Verdict, nova: Nova, host: string, gone: seq<string>, here: seq<string>, limit: int)
    requires forall u :: u in gone ==> HasLeft(nova, host, u)
    requires forall u :: u in here ==> Movable(nova, host, u)
    ensures var s := Scanned(gone + here, verdict, nova, host, limit);
            s.queue == here && s.inFlight == 0 && s.started == [] && Ids(s.candidates) == here
  {
    var p0 := Pass(gone + here, verdict, 0, [], []);
    ScanLine(p0, nova, host, gone, here, Clamp(limit));
    var v :| Scan(p0, nova, host, gone + here, Clamp(limit))
        == Scan(p0.(queue := here, verdict := v), nova, host, here, Clamp(limit));
    ScanHealthy(p0.(queue := here, verdict := v), nova, host, here, Clamp(limit));
  }

  /** One smooth round: drop what has left, start the next `limit` instances. */
  lemma SmoothPass(verdict: Verdict, nova: Nova, host: string, gone: seq<string>, here: seq<string>, limit: int)
    requires forall u :: u in gone ==> HasLeft(nova, host, u)
    requires forall u :: u in here ==> Movable(nova, host, u) && nova.Trigger(u).Accepted?
    ensures var r := RunPass(gone + here, verdict, nova, host, limit);
            r.queue == here && Ids(r.started) == here[..Min(|here|, Clamp(limit))]
  {
    SmoothScan(verdict, nova, host, gone, here, limit);
    var s := Scanned(gone + here, verdict, nova, host, limit);
    forall c | c in s.candidates ensures nova.Trigger(c.id).Accepted? {
      var i :| 0 <= i < |s.candidates| && s.candidates[i] == c;
      assert Ids(s.candidates)[i] in here;
    }
    StartAccepted(s, nova, s.candidates, Clamp(limit));
  }

  /** One round of a smooth drain, given how far the earlier ones got: `queue[..b]`
      has been triggered and `queue[..a]` dropped. */
  lemma SmoothStep(queue: seq<string>, host: string, rounds: seq<Round>, limit: int, k: nat, a: nat, b: nat)
    requires Distinct(queue) && a <= b <= |queue| && k < |rounds|
    requires SmoothRound(queue, host, rounds, limit, k)
    requires Triggered(queue, Unset, host, rounds, k) == queue[..b]
    requires After(queue, Unset, host, rounds, k).queue == queue[a..]
    ensures After(queue, Unset, host, rounds, k + 1).queue == queue[b..]
    ensures Triggered(queue, Unset, host, rounds, k + 1) == queue[..Min(|queue|, b + limit)]
  {
    var nova := rounds[k].nova;
    var p := After(queue, Unset, host, rounds, k);
    var gone, here := queue[a..b], queue[b..];
    assert p.queue == gone + here;
    SmoothSplit(queue, host, rounds, limit, k, a, b);
    SmoothPass(p.verdict, nova, host, gone, here, rounds[k].limit);
    assert queue[..b] + here[..Min(|here|, limit)] == queue[..Min(|queue|, b + limit)];
  }

  /** In a smooth round the triggered part of the queue has left and the rest is ready. */
  lemma SmoothSplit(queue: seq<string>, host: string, rounds: seq<Round>, limit: int, k: nat, a: nat, b: nat)
    requires Distinct(queue) && a <= b <= |queue| && k < |rounds|
    requires SmoothRound(queue, host, rounds, limit, k)
    requires Triggered(queue, Unset, host, rounds, k) == queue[..b]
    ensures forall u :: u in queue[a..b] ==> HasLeft(rounds[k].nova, host, u)
    ensures forall u :: u in queue[b..] ==>
              Movable(rounds[k].nova, host, u) && rounds[k].nova.Trigger(u).Accepted?
  {
    var nova := rounds[k].nova;
    forall u | u in queue[a..b] ensures HasLeft(nova, host, u) {
      assert u in queue[..b];
    }
    forall u | u in queue[b..] ensures Movable(nova, host, u) && nova.Trigger(u).Accepted? {
      assert u !in queue[..b];
    }
  }

  /** How many instances k rounds of a smooth drain cover. */
  function Covered(n: nat, limit: int, k: nat): nat
    requires limit >= 1
  {
    Min(n, k * limit)
  }

  /** How many of them have been dropped by then: all but the last batch. */
  function Dropped(n: nat, limit: int, k: nat): nat
    requires limit >= 1
  {
    if k == 0 then 0 else Covered(n, limit, k - 1)
  }

  lemma CoveredNext(n: nat, limit: int, k: nat)
    requires limit >= 1
    ensures Covered(n, limit, k) <= Covered(n, limit, k + 1) == Min(n, Covered(n, limit, k) + limit)
  {
    assert (k + 1) * limit == k * limit + limit;
  }

  /** Closed form of a smooth drain: after k rounds the first k*limit instances have
      been triggered, once each and in queue order, and all but the last batch of
      them have been dropped. */
  lemma {:induction false} SmoothDrain(queue: seq<string>, host: string, rounds: seq<Round>, limit: int, k: nat)
    requires Distinct(queue) && limit >= 1
    requires Smooth(queue, host, rounds, limit)
    requires k <= |rounds|
    ensures Triggered(queue, Unset, host, rounds, k) == queue[..Covered(|queue|, limit, k)]
    ensures After(queue, Unset, host, rounds, k).queue == queue[Dropped(|queue|, limit, k)..]
  {
    if k == 0 {
    } else {
      var n := |queue|;
      var a, b := Dropped(n, limit, k - 1), Covered(n, limit, k - 1);
      assert a <= b && Covered(n, limit, k) == Min(n, b + limit) by {
        CoveredNext(n, limit, k - 1);
        if k > 1 {
          CoveredNext(n, limit, k - 2);
        }
      }
      SmoothDrain(queue, host, rounds, limit, k - 1);
      assert SmoothRound(queue, host, rounds, limit, k - 1);
      SmoothStep(queue, host, rounds, limit, k - 1, a, b);
    }
  }

  function CeilDiv(n: nat, d: int): int
    requires d >= 1
  { (n + d - 1) / d }

  lemma CeilDivBound(n: nat, d: int, m: nat)
    requires d >= 1
    ensures m * d >= n <==> m >= CeilDiv(n, d)
  {
    var c := CeilDiv(n, d);
    var r := (n + d - 1) % d;
    assert c * d + r == n + d - 1 && 0 <= r < d;
    if m >= c {
      assert m * d >= c * d;
    } else {
      assert m + 1 <= c;
      assert (m + 1) * d <= c * d;
      assert (m + 1) * d == m * d + d;
    }
  }

  /** A smooth drain of n instances with limit L empties the queue after exactly
      ceil(n/L) + 1 rounds, and by then has triggered each instance exactly once. */
  lemma DrainLength(queue: seq<string>, host: string, rounds: seq<Round>, limit: int, k: nat)
    requires Distinct(queue) && queue != [] && limit >= 1
    requires Smooth(queue, host, rounds, limit)
    requires k <= |rounds|
    ensures After(queue, Unset, host, rounds, k).queue == [] <==> k >= CeilDiv(|queue|, limit) + 1
    ensures After(queue, Unset, host, rounds, k).queue == [] ==> Triggered(queue, Unset, host, rounds, k) == queue
  {
    SmoothDrain(queue, host, rounds, limit, k);
    CeilDivBound(|queue|, limit, 0);
    if k > 0 {
      CeilDivBound(|queue|, limit, k - 1);
      assert k * limit == (k - 1) * limit + limit;
    }
  }
}
