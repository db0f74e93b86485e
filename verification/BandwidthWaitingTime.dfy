/** Bounded waiting by the clock: how long a divisible waiter can be kept waiting when its
    direction is dispatched often enough, whoever does it. */
module BandwidthWaitingTime {
  import opened Basics
  import opened Arithmetic
  import opened BandwidthTypes
  import opened BandwidthFunds
  import opened BandwidthDispatch
  import opened BandwidthBucket
  import opened BandwidthLimiter
  import opened BandwidthRuns
  import opened BandwidthDebt
  import opened BandwidthDeadline
  import opened BandwidthWaiting

  /** The time in which a direction that owes at most `limit` units earns a byte. */
  function ByteTime(rate: Rate, limit: nat): nat
    requires rate.BytesPerSecond?
  {
    CeilDiv(limit + BYTE_UNITS, rate.value)
  }

  lemma ByteTimePositive(rate: Rate, limit: nat)
    requires rate.BytesPerSecond?
    ensures ByteTime(rate, limit) > 0
  {
    CeilDivLeast(limit + BYTE_UNITS, rate.value, 0);
  }

  /** From any instant a byte is free within that time. */
  lemma OnTrackInTime(b: Bucket, limit: nat)
    requires b.rate.BytesPerSecond? && b.funds.debt <= limit
    ensures OnTrack(b, b.lastRefill + ByteTime(b.rate, limit))
  {
    var time := ByteTime(b.rate, limit);
    CeilDivLeast(limit + BYTE_UNITS, b.rate.value, time);
    assert Elapsed(b.lastRefill, b.lastRefill + time) == time;
  }

  /** A dispatch after a harmless change, once a byte is free, serves `x` or somebody ahead. */
  lemma DueStep(l: Lane, nextTicket: nat, op: Op, x: nat, d: nat)
    requires LaneInv(l, nextTicket) && l.bucket.rate.BytesPerSecond? && Waits(l.bucket, x)
    requires Undisturbed(op, x, l.bucket.rate) && Dispatches(l, op)
    requires OnTrack(l.bucket, d) && d <= op.now
    ensures var after := StepLane(l, nextTicket, op).bucket;
            x in Tickets(after.queue) ==> Ahead(after.queue, x) != Ahead(l.bucket.queue, x)
  {
    var ready := Readied(l, nextTicket, op);
    ReadiedHarmless(l, nextTicket, op, x);
    StepShape(l, nextTicket, op);
    DueGrants(ready, x, d, op.now);
    DispatchProgress(ready, x, op.now);
  }

  /** The direction's clock never steps back, and it is dispatched at least every `gap`
      nanoseconds. */
  ghost predicate Attended(l: Limiter, events: seq<Event>, direction: Direction, gap: nat)
    decreases events
  {
    events != [] ==>
      && InGap(l.Lane(direction), Seen(events[0], direction), gap)
      && Attended(Step(l, events[0]), events[1..], direction, gap)
  }

  predicate InGap(l: Lane, op: Option<Op>, gap: nat) {
    op.Some? && Dispatches(l, op.value) ==> l.bucket.lastRefill <= op.value.now <= l.bucket.lastRefill + gap
  }

  /** A byte will be free by instant `d`, which is still ahead. */
  ghost predicate Pending(b: Bucket, d: nat) {
    OnTrack(b, d) && b.lastRefill < d
  }

  /** The latest instant at which `x` is served, if a byte is free by `d`. */
  ghost function Latest(b: Bucket, x: nat, limit: nat, gap: nat, d: nat): nat
    requires b.rate.BytesPerSecond?
  {
    d + |Ahead(b.queue, x)| * (ByteTime(b.rate, limit) + gap)
  }

  lemma FewerAhead(n: nat, k: nat, d: nat, d': nat, pace: nat)
    requires n < k && d' <= d + pace
    ensures d' + n * pace <= d + k * pace
  {
    MulMonotone(n + 1, k, pace);
    MulDistributes(n, 1, pace);
  }

  /** A dispatch at `now` that serves somebody ahead if a byte was free by then. */
  lemma DispatchInTime(before: Bucket, after: Bucket, x: nat, limit: nat, gap: nat, d: nat) returns (d': nat)
    requires before.rate.BytesPerSecond? && Advanced(before, after, x) && after.funds.debt <= limit
    requires before.lastRefill <= after.lastRefill <= before.lastRefill + gap && Pending(before, d)
    requires d <= after.lastRefill ==> Ahead(after.queue, x) != Ahead(before.queue, x)
    ensures Pending(after, d') && Latest(after, x, limit, gap, d') <= Latest(before, x, limit, gap, d)
  {
    d' := d;
    if Ahead(after.queue, x) != Ahead(before.queue, x) {
      var time := ByteTime(before.rate, limit);
      d' := after.lastRefill + time;
      OnTrackInTime(after, limit);
      ByteTimePositive(before.rate, limit);
      SubsetSize(Ahead(after.queue, x), Ahead(before.queue, x));
      FewerAhead(|Ahead(after.queue, x)|, |Ahead(before.queue, x)|, d, d', time + gap);
    }
  }

  /** No operation puts off the latest instant at which `x` is served. */
  lemma StepInTime(l: Lane, nextTicket: nat, op: Op, x: nat, limit: nat, gap: nat, d: nat) returns (d': nat)
    requires LaneInv(l, nextTicket) && l.bucket.rate.BytesPerSecond? && Waits(l.bucket, x)
    requires Undisturbed(op, x, l.bucket.rate) && InGap(l, Some(op), gap) && Pending(l.bucket, d)
    requires var after := StepLane(l, nextTicket, op).bucket;
             Advanced(l.bucket, after, x) && after.funds.debt <= limit
    ensures var after := StepLane(l, nextTicket, op).bucket;
            Pending(after, d') && Latest(after, x, limit, gap, d') <= Latest(l.bucket, x, limit, gap, d)
  {
    var after := StepLane(l, nextTicket, op).bucket;
    if Dispatches(l, op) {
      assert after.lastRefill == op.now by {
        StepShape(l, nextTicket, op);
      }
      if d <= op.now {
        DueStep(l, nextTicket, op, x, d);
        var w :| w in after.queue && w.ticket == x && w.request.Divisible?;
        assert x in Tickets(after.queue);
      }
      d' := DispatchInTime(l.bucket, after, x, limit, gap, d);
    } else {
      d' := d;
    }
  }

  /** `x` waits and is neither served in the run nor delayed by it. */
  ghost predicate KeptWaiting(l: Limiter, events: seq<Event>, direction: Direction, x: nat, limit: nat) {
    var b := l.Lane(direction).bucket;
    && Inv(l) && b.rate.BytesPerSecond? && Waits(b, x) && DebtWithin(b, limit)
    && LeavesAlone(events, direction, x, b.rate)
    && ArrivalsWithin(events, direction, limit)
    && !Served(l, events, direction, x)
  }

  lemma KeptWaitingStep(l: Limiter, events: seq<Event>, direction: Direction, x: nat, limit: nat)
    requires KeptWaiting(l, events, direction, x, limit) && events != []
    ensures var next := Step(l, events[0]);
            && KeptWaiting(next, events[1..], direction, x, limit)
            && Advanced(l.Lane(direction).bucket, next.Lane(direction).bucket, x)
  {
    var e := events[0];
    assert e in events;
    assert forall y :: y in events[1..] ==> y in events;
    assert !Served(Step(l, e), events[1..], direction, x);
    StepKeeps(l, e);
    StepOnLane(l, e, direction);
    var op := Seen(e, direction);
    if op.Some? {
      StepDebt(l.Lane(direction), l.nextTicket, op.value, limit);
      StepAdvances(l.Lane(direction), l.nextTicket, op.value, x);
    }
  }

  lemma EventInTime(l: Limiter, e: Event, direction: Direction, x: nat, limit: nat, gap: nat, d: nat) returns (d': nat)
    requires var b := l.Lane(direction).bucket; Inv(l) && b.rate.BytesPerSecond? && Waits(b, x) && Pending(b, d)
    requires var op := Seen(e, direction);
             InGap(l.Lane(direction), op, gap) && (op.Some? ==> Undisturbed(op.value, x, l.Lane(direction).bucket.rate))
    requires var after := Step(l, e).Lane(direction).bucket;
             Advanced(l.Lane(direction).bucket, after, x) && after.funds.debt <= limit
    ensures var before, after := l.Lane(direction).bucket, Step(l, e).Lane(direction).bucket;
            Pending(after, d') && Latest(after, x, limit, gap, d') <= Latest(before, x, limit, gap, d)
  {
    var op := Seen(e, direction);
    StepOnLane(l, e, direction);
    if op.Some? {
      d' := StepInTime(l.Lane(direction), l.nextTicket, op.value, x, limit, gap, d);
    } else {
      d' := d;
    }
  }

  lemma {:induction false} WaitingTime(l: Limiter, events: seq<Event>, direction: Direction, x: nat, limit: nat,
                                       gap: nat, d: nat)
    requires KeptWaiting(l, events, direction, x, limit) && Attended(l, events, direction, gap)
    requires Pending(l.Lane(direction).bucket, d)
    ensures Run(l, events).Lane(direction).bucket.lastRefill < Latest(l.Lane(direction).bucket, x, limit, gap, d)
    decreases events
  {
    if events == [] {
    } else {
      assert events[0] in events;
      KeptWaitingStep(l, events, direction, x, limit);
      var d' := EventInTime(l, events[0], direction, x, limit, gap, d);
      WaitingTime(Step(l, events[0]), events[1..], direction, x, limit, gap, d');
    }
  }

  /** Bounded waiting by the clock.  A divisible waiter with k waiters ahead is served within
      k + 1 times the time in which a byte is earned, debt included, and k gaps between
      dispatches. */
  lemma ServedInTime(l: Limiter, events: seq<Event>, direction: Direction, x: nat, limit: nat, gap: nat)
    requires var b := l.Lane(direction).bucket;
             && Inv(l) && b.rate.BytesPerSecond? && Waits(b, x) && DebtWithin(b, limit)
             && LeavesAlone(events, direction, x, b.rate)
    requires ArrivalsWithin(events, direction, limit) && Attended(l, events, direction, gap)
    requires var b := l.Lane(direction).bucket;
             Run(l, events).Lane(direction).bucket.lastRefill
             >= Latest(b, x, limit, gap, b.lastRefill + ByteTime(b.rate, limit))
    ensures Served(l, events, direction, x)
  {
    var b := l.Lane(direction).bucket;
    OnTrackInTime(b, limit);
    ByteTimePositive(b.rate, limit);
    if !Served(l, events, direction, x) {
      WaitingTime(l, events, direction, x, limit, gap, b.lastRefill + ByteTime(b.rate, limit));
    }
  }

  /** A deadline leaves no longer a gap than that. */
  lemma DeadlineInTime(b: Bucket, x: nat, limit: nat)
    requires Valid(b) && b.rate.BytesPerSecond? && Waits(b, x) && b.funds.debt <= limit
    ensures var d := NextDeadline(b, b.lastRefill);
            d.Some? && b.lastRefill <= d.value <= b.lastRefill + ByteTime(b.rate, limit)
  {
    var capacity := Capacity(b.rate);
    CapacityHoldsAByte(b.rate);
    LeastThresholdBounds(b.queue, capacity);
    CeilDivMonotone(b.funds.debt + BYTE_UNITS, limit + BYTE_UNITS, b.rate.value);
    if b.funds.debt == 0 {
      LeastNeededIs(b.queue, b.funds.credit, capacity);
      CeilDivMonotone(LeastNeeded(b.queue, b.funds.credit, capacity), limit + BYTE_UNITS, b.rate.value);
    }
  }
}
