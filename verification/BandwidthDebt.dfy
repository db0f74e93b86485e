/** Debt discipline: when debt arises, how much, and that the allowance is never what refuses. */
module BandwidthDebt {
  import opened Basics
  import opened BandwidthTypes
  import opened BandwidthFunds
  import opened BandwidthDispatch
  import opened BandwidthBucket
  import opened BandwidthUpdate
  import opened BandwidthLimiter
  import opened BandwidthLedger
  import opened BandwidthRuns

  ghost predicate AllowedWithin(queue: seq<Waiter>, limit: nat) {
    forall w :: w in queue ==> Allowance(w.request) <= limit
  }

  /** One dispatch runs into debt at most once: with its last grant, from a bucket that owed
      nothing, within that waiter's own allowance and leaving no credit behind. */
  lemma DispatchDebt(b: Bucket, now: nat)
    requires Valid(b)
    ensures var full, d, grants := Refilled(b, now), Dispatched(b, now), Granted(b, now);
            && DebtLast(grants)
            && (grants == [] || b.rate.Unlimited? ==> d.funds.debt == full.funds.debt)
            && (grants != [] && b.rate.BytesPerSecond? ==>
                  && full.funds.debt == 0
                  && d.funds.debt == grants[|grants| - 1].reservation.debtUnits
                  && (d.funds.debt > 0 ==> d.funds.credit == 0)
                  && exists w :: w in b.queue && w.ticket == grants[|grants| - 1].ticket
                                 && d.funds.debt <= Allowance(w.request))
  {
    var full := Refilled(b, now);
    RefilledValid(b, now);
    if b.rate.Unlimited? {
      ReleaseOwesNothing(b.queue);
    } else if b.queue != [] && full.funds.debt == 0 {
      var capacity := Capacity(b.rate);
      CapacityHoldsAByte(b.rate);
      RoundsSound(full.queue, full.funds, capacity);
      RoundsAccounted(full.queue, full.funds, capacity);
      var grants := Granted(b, now);
      if grants != [] {
        var g := grants[|grants| - 1];
        assert g in grants;
        var w :| w in b.queue && w.ticket == g.ticket && WellFormed(g.reservation, w.request, capacity);
      }
    }
  }

  lemma {:induction false} ReleaseOwesNothing(queue: seq<Waiter>)
    ensures DebtLast(Release(queue))
    ensures forall g :: g in Release(queue) ==> g.reservation.debtUnits == 0
  {
    if queue == [] {
    } else {
      ReleaseOwesNothing(queue[1..]);
    }
  }

  ghost predicate DebtWithin(b: Bucket, limit: nat) {
    b.funds.debt <= limit && AllowedWithin(b.queue, limit)
  }

  lemma DispatchDebtWithin(b: Bucket, now: nat, limit: nat)
    requires Valid(b) && DebtWithin(b, limit)
    ensures DebtWithin(Dispatched(b, now), limit)
  {
    DispatchDebt(b, now);
    RefilledValid(b, now);
    SettleSound(Refilled(b, now));
  }

  predicate OpAllowance(op: Op, limit: nat) {
    op.Arrive? ==> Allowance(op.request) <= limit
  }

  lemma ArriveDebt(l: Lane, nextTicket: nat, op: Op, limit: nat)
    requires Sane(l, nextTicket) && DebtWithin(l.bucket, limit)
    requires Enters(l, op) && OpAllowance(op, limit)
    ensures DebtWithin(StepLane(l, nextTicket, op).bucket, limit)
  {
    var b := Enqueued(l.bucket, nextTicket, Bounded(op.request));
    EnqueueSane(l, nextTicket, op.request);
    assert DebtWithin(b, limit);
    DispatchDebtWithin(b, op.now, limit);
  }

  lemma CancelDebt(l: Lane, nextTicket: nat, ticket: nat, now: nat, limit: nat)
    requires Sane(l, nextTicket) && DebtWithin(l.bucket, limit)
    ensures DebtWithin(CancelBucket(l.bucket, ticket, now), limit)
  {
    var b := Withdrawn(l.bucket, ticket);
    WithdrawSane(l, nextTicket, ticket);
    WithoutMembers(l.bucket.queue, ticket);
    assert DebtWithin(b, limit);
    DispatchDebtWithin(b, now, limit);
  }

  lemma RefundDebt(l: Lane, nextTicket: nat, tickets: seq<nat>, now: nat, limit: nat)
    requires Sane(l, nextTicket) && DebtWithin(l.bucket, limit)
    requires Holds(l, tickets)
    ensures DebtWithin(StepLane(l, nextTicket, Refund(tickets, now)).bucket, limit)
  {
    var full := RefillLane(l, now);
    RefillSane(l, nextTicket, now);
    GiveBackSane(full, nextTicket, tickets);
    var b := GiveBackLane(full, tickets).bucket;
    assert DebtWithin(b, limit);
    DispatchDebtWithin(b, now, limit);
  }

  lemma RerateDebt(l: Lane, nextTicket: nat, rate: Rate, now: nat, limit: nat)
    requires LaneInv(l, nextTicket) && DebtWithin(l.bucket, limit)
    ensures DebtWithin(RerateBucket(l.bucket, rate, now), limit)
  {
    var b := Updated(l.bucket, rate, now);
    UpdateSane(l, nextTicket, rate, now);
    RetainedMembers(l.bucket.queue, rate);
    assert DebtWithin(b, limit);
    DispatchDebtWithin(b, now, limit);
  }

  lemma StepDebt(l: Lane, nextTicket: nat, op: Op, limit: nat)
    requires LaneInv(l, nextTicket)
    requires DebtWithin(l.bucket, limit)
    requires OpAllowance(op, limit)
    ensures DebtWithin(StepLane(l, nextTicket, op).bucket, limit)
  {
    match op
    case Arrive(request, now) =>
      if Enters(l, op) {
        ArriveDebt(l, nextTicket, op, limit);
      }
    case Poll(ticket, now) => DispatchDebtWithin(l.bucket, now, limit);
    case Cancel(ticket, now) => CancelDebt(l, nextTicket, ticket, now, limit);
    case Refund(tickets, now) =>
      if Holds(l, tickets) {
        RefundDebt(l, nextTicket, tickets, now, limit);
      }
    case Rerate(rate, now) => RerateDebt(l, nextTicket, rate, now, limit);
  }

  ghost predicate ArrivalsWithin(events: seq<Event>, direction: Direction, limit: nat) {
    forall e :: e in events && e.On? && e.direction == direction ==> OpAllowance(e.op, limit)
  }

  lemma {:induction false} RunDebt(l: Limiter, events: seq<Event>, direction: Direction, limit: nat)
    requires Inv(l)
    requires DebtWithin(l.Lane(direction).bucket, limit)
    requires ArrivalsWithin(events, direction, limit)
    ensures DebtWithin(Run(l, events).Lane(direction).bucket, limit)
    decreases events
  {
    if events == [] {
    } else {
      assert events[0] in events;
      assert forall e :: e in events[1..] ==> e in events;
      StepKeeps(l, events[0]);
      StepOnLane(l, events[0], direction);
      var op := Seen(events[0], direction);
      if op.Some? {
        StepDebt(l.Lane(direction), l.nextTicket, op.value, limit);
      }
      RunDebt(Step(l, events[0]), events[1..], direction, limit);
    }
  }

  /** In every run a direction owes at most the largest allowance that any arrival asked for. */
  lemma DebtNeverExceedsAllowance(upload: Rate, download: Rate, start: nat, events: seq<Event>, direction: Direction,
                                  limit: nat)
    requires ArrivalsWithin(events, direction, limit)
    ensures Run(NewLimiter(upload, download, start), events).Lane(direction).bucket.funds.debt <= limit
  {
    NewLimiterInv(upload, download, start);
    RunDebt(NewLimiter(upload, download, start), events, direction, limit);
  }

  /** In every reachable state a waiter whose deficit is full is refused only because credit is
      below its threshold: the refusal for exceeding the debt allowance cannot be taken. */
  lemma DebtLimitNeverRefuses(upload: Rate, download: Rate, start: nat, events: seq<Event>, direction: Direction,
                              w: Waiter, f: Funds)
    requires var b := Run(NewLimiter(upload, download, start), events).Lane(direction).bucket;
             w in b.queue && w.deficit == w.request.bytes
    ensures var capacity := Capacity(Run(NewLimiter(upload, download, start), events).Lane(direction).bucket.rate);
            TryReserve(w.request, w.deficit, f, capacity).Refused? <==> f.credit < Threshold(w.request, capacity)
  {
    var b := Run(NewLimiter(upload, download, start), events).Lane(direction).bucket;
    ReachableStates(upload, download, start, events, direction);
    CapacityHoldsAByte(b.rate);
    RefusedOnlyForCredit(w, f, Capacity(b.rate));
  }
}
