/** Runs of policy changes: whatever rates are set one after the other, removing the limit and
    setting it again included, no credit comes from nowhere and no debt is forgiven. */
module BandwidthPolicies {
  import opened Basics
  import opened BandwidthTypes
  import opened BandwidthFunds
  import opened BandwidthDispatch
  import opened BandwidthBucket
  import opened BandwidthUpdate
  import opened BandwidthLimiter
  import opened BandwidthLedger
  import opened BandwidthRuns

  /** A dispatch spends credit, and forgives no debt. */
  lemma DispatchSpends(b: Bucket, now: nat)
    requires Valid(b)
    ensures var full, d := Refilled(b, now), Dispatched(b, now);
            && d.funds.credit <= full.funds.credit && full.funds.debt <= d.funds.debt
            && d.funds.credit - d.funds.debt + TotalUnits(Granted(b, now)) == full.funds.credit - full.funds.debt
  {
    var full := Refilled(b, now);
    RefilledValid(b, now);
    SettleSound(full);
    if b.queue != [] && b.rate.BytesPerSecond? && full.funds.debt == 0 {
      CapacityHoldsAByte(b.rate);
      RoundsAccounted(full.queue, full.funds, Capacity(b.rate));
    }
  }

  /** Credit, debt and charges after some operations that earned `units`. */
  ghost predicate Unminted(before: Lane, after: Lane, units: nat) {
    var f, g := before.bucket.funds, after.bucket.funds;
    && g.credit <= f.credit + units
    && f.debt <= g.debt + units
    && g.credit - g.debt + TotalUnits(after.live) <= f.credit - f.debt + TotalUnits(before.live) + units
  }

  /** An update, and a refill at its own instant. */
  lemma UpdatedFunds(b: Bucket, rate: Rate, now: nat)
    requires Valid(b)
    ensures var f, units := Refilled(Updated(b, rate, now), now).funds, Earned(b.rate, b.lastRefill, now);
            && f.credit <= b.funds.credit + units && b.funds.debt <= f.debt + units
            && f.credit - f.debt <= b.funds.credit - b.funds.debt + units
            && (rate.Unlimited? ==> f.credit == 0)
  {
    UpdateNeverMints(b, rate, now);
    assert Elapsed(now, now) == 0 && Earned(rate, now, now) == 0;
  }

  lemma RerateUnminted(l: Lane, nextTicket: nat, rate: Rate, now: nat)
    requires LaneInv(l, nextTicket)
    ensures var op := Rerate(rate, now);
            var after := StepLane(l, nextTicket, op);
            Unminted(l, after, Earning(l, op)) && (rate.Unlimited? ==> after.bucket.funds.credit == 0)
  {
    var u := Updated(l.bucket, rate, now);
    UpdatedValid(l.bucket, rate, now);
    UpdatedFunds(l.bucket, rate, now);
    DispatchSpends(u, now);
    TotalUnitsAppend(l.live, Granted(u, now));
  }

  predicate PoliciesOnly(events: seq<Event>) {
    forall e :: e in events ==> e.UpdatePolicy?
  }

  /** Over any run of policy changes credit grows by no more than the rates in force earned,
      debt shrinks by no more than that, and so do the two together with what is charged. */
  lemma {:induction false} PoliciesNeverMint(l: Limiter, events: seq<Event>, direction: Direction)
    requires Inv(l) && PoliciesOnly(events)
    ensures Unminted(l.Lane(direction), Run(l, events).Lane(direction), RunEarning(l, events, direction))
    decreases events
  {
    if events == [] {
    } else {
      var e, next := events[0], Step(l, events[0]);
      assert e in events && forall y :: y in events[1..] ==> y in events;
      var op := Seen(e, direction).value;
      StepKeeps(l, e);
      StepOnLane(l, e, direction);
      RerateUnminted(l.Lane(direction), l.nextTicket, op.rate, op.now);
      PoliciesNeverMint(next, events[1..], direction);
    }
  }

  /** Once a policy has lifted the limit, the credit after any further policies is at most what
      they have earned since: a limit that comes back opens no new burst. */
  lemma NoBurstAfterUnlimited(l: Limiter, e: Event, events: seq<Event>, direction: Direction)
    requires Inv(l) && PoliciesOnly([e] + events)
    requires Seen(e, direction).Some? && Seen(e, direction).value.Rerate? && Seen(e, direction).value.rate.Unlimited?
    ensures Run(Step(l, e), events).Lane(direction).bucket.funds.credit <= RunEarning(Step(l, e), events, direction)
  {
    var op := Seen(e, direction).value;
    StepKeeps(l, e);
    StepOnLane(l, e, direction);
    RerateUnminted(l.Lane(direction), l.nextTicket, op.rate, op.now);
    assert forall y :: y in events ==> y in [e] + events;
    PoliciesNeverMint(Step(l, e), events, direction);
  }
}
