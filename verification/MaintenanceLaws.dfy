/**
 What one reconcile of the maintenance controller does, law by law, in the terms of what it reads
 and of the answers it gets.
 */
module MaintenanceLaws {
  import opened Basics
  import opened Conditions
  import opened Hypervisors
  import opened DrainSafety
  import Migrations
  import Evictions

  // ------------------------------------------------------------ compute service

  /** The compute service is looked after: it is known, and the host is not in `ha`. */
  predicate ServiceManaged(hv: HvStatus, mode: Mode) { hv.serviceId != "" && !mode.Ha? }

  /** HypervisorDisabled already is as the mode wants it. */
  predicate AlreadyAsWanted(hv: HvStatus, mode: Mode) {
    if mode.NoMaintenance? then IsFalse(hv.disabled) else IsTrue(hv.disabled)
  }

  /** A refused update of the compute service is recorded as unknown and stops the reconcile: the
      Eviction, Evicted and the other conditions stay. */
  lemma FailedServiceStops(hv: HvStatus, spec: Spec, eviction: Option<Evictions.EvictionStatus>, host: string,
                           rs: MaintReplies)
    requires !IsTrue(hv.onboarding) && ServiceManaged(hv, spec.maintenance)
    requires !AlreadyAsWanted(hv, spec.maintenance) && !rs.serviceOk
    ensures var p := PlanMaintenance(hv, spec, eviction, host, rs);
            && p.eviction == eviction && p.write.Some?
            && p.write.value.evicted == hv.evicted && p.write.value.evicting == hv.evicting
            && p.write.value.settled == hv.settled
            && p.write.value.disabled == Some(Condition(Unknown, Failed, Fixed))
  {
  }

  /** When a reconcile records the compute service as disabled or enabled: that is what the mode
      wants, and it was on record before or Nova has accepted it. A service that is not managed
      keeps its record. */
  lemma DisabledExactly(hv: HvStatus, spec: Spec, eviction: Option<Evictions.EvictionStatus>, host: string,
                        rs: MaintReplies)
    requires !IsTrue(hv.onboarding)
    ensures var m := PlanMaintenance(hv, spec, eviction, host, rs).write;
            && m.Some?
            && (!ServiceManaged(hv, spec.maintenance) ==> m.value.disabled == hv.disabled)
            && (ServiceManaged(hv, spec.maintenance) ==>
                  && (IsTrue(m.value.disabled) <==>
                        Draining(spec.maintenance) && (IsTrue(hv.disabled) || rs.serviceOk))
                  && (IsFalse(m.value.disabled) <==>
                        spec.maintenance.NoMaintenance? && (IsFalse(hv.disabled) || rs.serviceOk))
                  && (IsTrue(m.value.disabled) || IsFalse(m.value.disabled) ==> HasReason(m.value.disabled, Succeeded)))
  {
  }

  /** Every mode is one of: none, draining, `ha`. */
  lemma ModesExactly(mode: Mode)
    ensures Draining(mode) <==> mode != NoMaintenance && mode != Ha
  {
  }

  // ------------------------------------------------------------ modes

  /** A host that is being onboarded is left alone. */
  lemma OnboardingBlocks(hv: HvStatus, spec: Spec, eviction: Option<Evictions.EvictionStatus>, host: string,
                         rs: MaintReplies)
    ensures PlanMaintenance(hv, spec, eviction, host, rs).write.None? <==> IsTrue(hv.onboarding)
    ensures IsTrue(hv.onboarding) ==> PlanMaintenance(hv, spec, eviction, host, rs).eviction == eviction
  {
  }

  /** In `ha` the Eviction and Evicted stay and both drain conditions are pruned. */
  lemma HaKeepsEviction(hv: HvStatus, spec: Spec, eviction: Option<Evictions.EvictionStatus>, host: string,
                        rs: MaintReplies)
    requires !IsTrue(hv.onboarding) && spec.maintenance.Ha?
    ensures PlanMaintenance(hv, spec, eviction, host, rs)
            == MaintPlan(Some(MaintWrite(hv.evicted, hv.disabled, None, None)), eviction)
  {
  }

  /** The compute service does not stop the reconcile. */
  predicate ServicePassed(hv: HvStatus, mode: Mode, rs: MaintReplies) {
    !ServiceManaged(hv, mode) || AlreadyAsWanted(hv, mode) || rs.serviceOk
  }

  /** When maintenance is called off nothing of the drain remains, unless the Eviction cannot be
      deleted: then it and Evicted stay, and only the conditions go. */
  lemma CalledOff(hv: HvStatus, spec: Spec, eviction: Option<Evictions.EvictionStatus>, host: string, rs: MaintReplies)
    requires !IsTrue(hv.onboarding) && spec.maintenance.NoMaintenance? && ServicePassed(hv, spec.maintenance, rs)
    ensures var p := PlanMaintenance(hv, spec, eviction, host, rs);
            && p.write.Some? && p.write.value.evicting.None? && p.write.value.settled.None?
            && (rs.deleteOk ==> !p.write.value.evicted)
            && (!rs.deleteOk ==> p.write.value.evicted == hv.evicted && p.eviction == eviction)
            && (rs.deleteOk && (hv.evicted || hv.evicting.Some? || hv.settled.Some?) ==> p.eviction.None?)
  {
  }

  // ------------------------------------------------------------ settling

  /** A migration towards the host that is in none of the terminal states. */
  predicate InFlightTo(m: Migrations.Migration, host: string) {
    && m.dest == host
    && m.status !in {Migrations.Confirmed, Migrations.Reverted, Migrations.Errored, Migrations.FailedMigration,
                     Migrations.Completed, Migrations.Cancelled, Migrations.Done}
  }

  predicate CanAbort(m: Migrations.Migration) {
    m.live && m.status in {Migrations.Queued, Migrations.Preparing, Migrations.Running}
  }

  ghost predicate Quiet(nova: Migrations.NovaMigrations, host: string) {
    nova.listing.Some? && forall m :: m in nova.listing.value ==> !InFlightTo(m, host)
  }

  /** Settling fails: no listing, or Nova refuses an abort. */
  ghost predicate SettleFails(nova: Migrations.NovaMigrations, host: string) {
    nova.listing.None?
    || exists m :: m in nova.listing.value && InFlightTo(m, host) && CanAbort(m) && m.id in nova.refused
  }

  /** Some migration has to be waited for. */
  ghost predicate MustWait(nova: Migrations.NovaMigrations, host: string) {
    nova.listing.Some? && exists m :: m in nova.listing.value && InFlightTo(m, host) && !CanAbort(m)
  }

  lemma MeansInFlight(m: Migrations.Migration, host: string)
    ensures Migrations.Incoming(m, host) <==> InFlightTo(m, host)
    ensures Migrations.Abortable(m) <==> CanAbort(m)
  {
  }

  /** What a settle attempt leads to, read off the migrations. */
  lemma SettleExactly(nova: Migrations.NovaMigrations, host: string)
    ensures var c := SettledCondition(Migrations.Settle(nova, host));
            && (c.status.True? <==> Quiet(nova, host))
            && (c.status.Unknown? <==> SettleFails(nova, host))
            && (c.status.True? ==> c.reason == Settled)
            && (c.status.Unknown? ==> c.reason == Failed)
            && (c.status.False? ==> c.reason == if MustWait(nova, host) then Waiting else Aborting)
    ensures Migrations.IsSettled(Migrations.Settle(nova, host)) <==> Quiet(nova, host)
  {
    forall m ensures (Migrations.Incoming(m, host) <==> InFlightTo(m, host))
        && (Migrations.Abortable(m) <==> CanAbort(m)) {
      MeansInFlight(m, host);
    }
    var s := Migrations.Settle(nova, host);
    if s.Settlement? {
      var listed := nova.listing.value;
      Migrations.SettlePartitions(nova, host);
      Migrations.SelectMembers(listed, host, Migrations.ToAwait);
      assert s.waiting == Migrations.Select(listed, host, Migrations.ToAwait);
      if s.waiting != [] {
        assert s.waiting[0] in s.waiting;
        assert MustWait(nova, host);
      }
      if m :| m in listed && InFlightTo(m, host) && !CanAbort(m) {
        assert m in s.waiting;
      }
    }
  }

  // ------------------------------------------------------------ draining

  /** The mode is a draining one and the service is out of the way. */
  predicate Drains(hv: HvStatus, spec: Spec, rs: MaintReplies) {
    && !IsTrue(hv.onboarding) && spec.maintenance !in {NoMaintenance, Ha} && ServicePassed(hv, spec.maintenance, rs)
  }

  /** Evicting=False is on record, as succeeded. */
  predicate CountsEvicted(hv: HvStatus) { IsFalse(hv.evicting) && HasReason(hv.evicting, Succeeded) }

  /** And so is everything that goes with it. */
  predicate FullyEvicted(hv: HvStatus) {
    CountsEvicted(hv) && hv.evicted && IsTrue(hv.settled) && HasReason(hv.settled, Settled)
  }

  /** What was recorded as evicted stays so while no instance shows up. */
  lemma EvictedStays(hv: HvStatus, spec: Spec, eviction: Option<Evictions.EvictionStatus>, host: string,
                     rs: MaintReplies)
    requires Drains(hv, spec, rs) && FullyEvicted(hv) && hv.numInstances == 0
    ensures var p := PlanMaintenance(hv, spec, eviction, host, rs);
            && p.eviction == eviction && p.write.Some? && p.write.value.evicted
            && p.write.value.evicting == hv.evicting && p.write.value.settled == hv.settled
  {
  }

  /** If one does show up, the Eviction is deleted and the drain begins anew. */
  lemma EvictedRestarts(hv: HvStatus, spec: Spec, eviction: Option<Evictions.EvictionStatus>, host: string,
                        rs: MaintReplies)
    requires Drains(hv, spec, rs) && CountsEvicted(hv) && hv.numInstances > 0
    ensures var p := PlanMaintenance(hv, spec, eviction, host, rs);
            && p.write.Some?
            && (rs.deleteOk ==> && p.eviction.None? && !p.write.value.evicted && IsTrue(p.write.value.evicting)
                                && HasReason(p.write.value.evicting, Running) && p.write.value.settled == hv.settled)
            && (!rs.deleteOk ==> && p.eviction == eviction && p.write.value.evicted == hv.evicted
                                 && p.write.value.evicting.None? && p.write.value.settled.None?)
  {
  }

  /** In all other cases the migrations towards the host decide. */
  predicate Asks(hv: HvStatus, spec: Spec, rs: MaintReplies) {
    Drains(hv, spec, rs) && !(CountsEvicted(hv) && hv.numInstances > 0) && !FullyEvicted(hv)
  }

  /** While some are in flight, or they cannot be told, the host does not count as evicted and no
      Eviction is created. */
  lemma UnsettledWaits(hv: HvStatus, spec: Spec, eviction: Option<Evictions.EvictionStatus>, host: string,
                       rs: MaintReplies)
    requires Asks(hv, spec, rs) && !Quiet(rs.migrations, host)
    ensures var p := PlanMaintenance(hv, spec, eviction, host, rs);
            && p.eviction == eviction && p.write.Some? && !p.write.value.evicted
            && p.write.value.evicting == hv.evicting
            && p.write.value.settled == Some(SettledCondition(Migrations.Settle(rs.migrations, host)))
            && !IsTrue(p.write.value.settled)
  {
    SettleExactly(rs.migrations, host);
  }

  /** A finished drain whose record was incomplete is recorded as settled and otherwise kept. */
  lemma QuietCompletes(hv: HvStatus, spec: Spec, eviction: Option<Evictions.EvictionStatus>, host: string,
                       rs: MaintReplies)
    requires Asks(hv, spec, rs) && Quiet(rs.migrations, host) && HasReason(hv.evicting, Succeeded)
    ensures var p := PlanMaintenance(hv, spec, eviction, host, rs);
            && p.eviction == eviction && p.write.Some? && p.write.value.evicted == hv.evicted
            && p.write.value.evicting == hv.evicting
            && IsTrue(p.write.value.settled) && HasReason(p.write.value.settled, Settled)
  {
    SettleExactly(rs.migrations, host);
  }

  /** On a quiet host an Eviction is ensured and its progress mirrored. A request that fails prunes
      Evicting and keeps Evicted. */
  lemma QuietFollows(hv: HvStatus, spec: Spec, eviction: Option<Evictions.EvictionStatus>, host: string,
                     rs: MaintReplies)
    requires Asks(hv, spec, rs) && Quiet(rs.migrations, host) && !HasReason(hv.evicting, Succeeded)
    ensures var p := PlanMaintenance(hv, spec, eviction, host, rs);
            var now := if eviction.None? then Some(Evictions.BLANK) else eviction;
            var finished := eviction.Some? && eviction.value.progress.Finished?;
            var fails := !rs.applyOk || !rs.getOk || (finished && hv.numInstances > 0 && !rs.deleteOk);
            && p.write.Some? && IsTrue(p.write.value.settled) && HasReason(p.write.value.settled, Settled)
            && (p.eviction == if !rs.applyOk then eviction
                              else if finished && hv.numInstances > 0 && !fails then None else now)
            && (fails ==> p.write.value.evicting.None? && p.write.value.evicted == hv.evicted)
            && (!fails ==> (IsFalse(p.write.value.evicting) <==> finished && hv.numInstances == 0))
            && (!fails ==> (IsTrue(p.write.value.evicting) <==> !(finished && hv.numInstances == 0)))
            && (!fails ==> (p.write.value.evicted <==> finished && hv.numInstances == 0))
            && (!fails ==> HasReason(p.write.value.evicting,
                                     if finished && hv.numInstances == 0 then Succeeded else Running))
  {
    SettleExactly(rs.migrations, host);
  }

  /** Every request succeeds. */
  predicate AllOk(rs: MaintReplies) { rs.serviceOk && rs.deleteOk && rs.applyOk && rs.getOk }

  /** When an error-free reconcile in a draining mode ends with the host evicted: there is no
      instance, and it was evicted before or is quiet with a finished Eviction. */
  lemma EvictedExactly(hv: HvStatus, spec: Spec, eviction: Option<Evictions.EvictionStatus>, host: string,
                       rs: MaintReplies)
    requires Consistent(hv.evicted, hv.evicting, hv.settled) && !IsTrue(hv.onboarding)
    requires Draining(spec.maintenance) && AllOk(rs)
    ensures var m := PlanMaintenance(hv, spec, eviction, host, rs).write;
            && m.Some?
            && (m.value.evicted <==> && hv.numInstances == 0
                                     && (|| IsFalse(hv.evicting)
                                         || (&& Quiet(rs.migrations, host)
                                             && eviction.Some? && eviction.value.progress.Finished?)))
            && (IsFalse(m.value.evicting) <==> m.value.evicted)
  {
    SettleExactly(rs.migrations, host);
  }
}
