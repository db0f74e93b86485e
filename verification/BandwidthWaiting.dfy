/** Bounded waiting: a divisible waiter with k waiters ahead is served within k + 1 of its own
    deadline wake-ups, whatever else arrives, is cancelled or is given back meanwhile. */
module BandwidthWaiting {
  import opened Basics
  import opened Arithmetic
  import opened BandwidthTypes
  import opened BandwidthFunds
  import opened BandwidthDispatch
  import opened BandwidthBucket
  import opened BandwidthUpdate
  import opened BandwidthLimiter
  import opened BandwidthLedger
  import opened BandwidthRuns
  import opened BandwidthDebt
  import opened BandwidthDeadline

  ghost predicate Waits(b: Bucket, x: nat) {
    exists w :: w in b.queue && w.ticket == x && w.request.Divisible?
  }

  /** The tickets queued ahead of `x`. */
  ghost function Ahead(queue: seq<Waiter>, x: nat): set<nat> {
    set t | t in Tickets(queue) && t < x
  }

  lemma AheadShrinks(after: seq<Waiter>, before: seq<Waiter>, x: nat)
    requires Tickets(after) <= Tickets(before)
    ensures Ahead(after, x) <= Ahead(before, x)
    ensures (exists t :: t in Tickets(before) && t < x && t !in Tickets(after)) ==> Ahead(after, x) != Ahead(before, x)
  {
    if t :| t in Tickets(before) && t < x && t !in Tickets(after) {
      assert t in Ahead(before, x);
    }
  }

  /** Units to earn before a byte is free. */
  function Need(f: Funds): nat {
    f.debt + SatSub(BYTE_UNITS, f.credit)
  }

  /** A byte will be free by instant `d`. */
  ghost predicate OnTrack(b: Bucket, d: nat) {
    Need(b.funds) <= Earned(b.rate, b.lastRefill, d)
  }

  lemma EarnNeed(f: Funds, units: nat, capacity: nat)
    requires BYTE_UNITS <= capacity
    ensures Need(Earn(f, units, capacity)) <= SatSub(Need(f), units)
  {
  }

  lemma EarnedTriangle(rate: Rate, a: nat, b: nat, c: nat)
    ensures Earned(rate, a, c) <= Earned(rate, a, b) + Earned(rate, b, c)
  {
    if rate.BytesPerSecond? {
      MulDistributes(Elapsed(a, b), Elapsed(b, c), rate.value);
      MulMonotone(Elapsed(a, c), Elapsed(a, b) + Elapsed(b, c), rate.value);
    }
  }

  /** Refilling keeps a bucket on track, even at an instant before the last refill. */
  lemma RefillOnTrack(b: Bucket, now: nat, d: nat)
    requires b.rate.BytesPerSecond?
    requires OnTrack(b, d)
    ensures OnTrack(Refilled(b, now), d)
  {
    CapacityHoldsAByte(b.rate);
    EarnNeed(b.funds, Earned(b.rate, b.lastRefill, now), Capacity(b.rate));
    EarnedTriangle(b.rate, b.lastRefill, now, d);
  }

  lemma RefundOnTrack(b: Bucket, r: Reservation, d: nat)
    requires b.rate.BytesPerSecond?
    requires OnTrack(b, d)
    ensures OnTrack(Refunded(b, r), d)
  {
    CapacityHoldsAByte(b.rate);
  }

  lemma EarnedLater(rate: Rate, from: nat, d: nat, now: nat)
    requires d <= now
    ensures Earned(rate, from, d) <= Earned(rate, from, now)
  {
    if rate.BytesPerSecond? {
      MulMonotone(Elapsed(from, d), Elapsed(from, now), rate.value);
    }
  }

  /** At or after that instant, a dispatch with a divisible waiter serves somebody. */
  lemma DueGrants(b: Bucket, x: nat, d: nat, now: nat)
    requires Valid(b) && b.rate.BytesPerSecond?
    requires Waits(b, x)
    requires OnTrack(b, d) && d <= now
    ensures Granted(b, now) != []
  {
    var capacity := Capacity(b.rate);
    CapacityHoldsAByte(b.rate);
    EarnedLater(b.rate, b.lastRefill, d, now);
    EarnNeed(b.funds, Earned(b.rate, b.lastRefill, now), capacity);
    RefilledValid(b, now);
    LeastThresholdBounds(b.queue, capacity);
    GrantedIff(Refilled(b, now));
  }

  /** The deadline handed to a sleeping task keeps the bucket on track. */
  lemma DeadlineOnTrack(b: Bucket, x: nat)
    requires Valid(b) && b.rate.BytesPerSecond?
    requires Waits(b, x)
    requires Reachable(b.rate, b.funds.debt)
    ensures NextDeadline(b, b.lastRefill).Some?
    ensures OnTrack(b, NextDeadline(b, b.lastRefill).value)
  {
    var capacity := Capacity(b.rate);
    var rate := b.rate.value;
    CapacityHoldsAByte(b.rate);
    LeastThresholdBounds(b.queue, capacity);
    if b.funds.debt > 0 {
      var needed := b.funds.debt + BYTE_UNITS;
      CeilDivLeast(needed, rate, U64_MAX);
      CeilDivLeast(needed, rate, CeilDiv(needed, rate));
    } else {
      DeadlineExact(b, b.lastRefill);
      CeilDivLeast(Need(b.funds), rate, ServiceWait(b));
    }
  }

  lemma KeptWaits(o: Outcome, queue: seq<Waiter>, x: nat)
    requires Ordered(queue) && Descends(o.kept, queue)
    requires exists w :: w in queue && w.ticket == x && w.request.Divisible?
    requires x in Tickets(o.kept)
    ensures exists k :: k in o.kept && k.ticket == x && k.request.Divisible?
  {
    var w :| w in queue && w.ticket == x && w.request.Divisible?;
    var k :| k in o.kept && k.ticket == x;
    var v :| v in queue && v.ticket == k.ticket && v.request == k.request && v.deficit <= k.deficit;
    SameTicket(queue, v, w);
  }

  lemma GrantAhead(o: Outcome, queue: seq<Waiter>, x: nat)
    requires Partitions(o.kept, o.grants, queue) && NoOvertaking(o)
    requires exists k :: k in o.kept && k.ticket == x && k.request.Divisible?
    requires o.grants != []
    ensures exists t :: t in Tickets(queue) && t < x && t !in Tickets(o.kept)
  {
    var k :| k in o.kept && k.ticket == x && k.request.Divisible?;
    var g := o.grants[0];
    assert g in o.grants;
    assert g.ticket in GrantTickets(o.grants);
  }

  /** What a dispatch does for a waiting divisible request: serve it, serve somebody ahead of
      it, or only refill. */
  lemma DispatchProgress(b: Bucket, x: nat, now: nat)
    requires Valid(b) && b.rate.BytesPerSecond?
    requires Waits(b, x)
    ensures var a := Dispatched(b, now);
            if x in Tickets(a.queue) then
              && Waits(a, x)
              && Ahead(a.queue, x) <= Ahead(b.queue, x)
              && (if Granted(b, now) == [] then a.funds == Refilled(b, now).funds
                 else Ahead(a.queue, x) != Ahead(b.queue, x))
            else
              exists g :: g in Granted(b, now) && g.ticket == x
  {
    var o := Settle(Refilled(b, now));
    RefilledValid(b, now);
    SettleSound(Refilled(b, now));
    assert x in Tickets(b.queue);
    AheadShrinks(o.kept, b.queue, x);
    if x in Tickets(o.kept) {
      KeptWaits(o, b.queue, x);
      if o.grants != [] {
        GrantAhead(o, b.queue, x);
      }
    }
  }

  // ----- what each operation does to the bucket before it dispatches

  /** A change to a bucket that cannot delay `x`: it gains nobody ahead and stays on track. */
  ghost predicate Harmless(before: Bucket, after: Bucket, x: nat) {
    && Valid(after)
    && after.rate == before.rate
    && Waits(after, x)
    && Ahead(after.queue, x) <= Ahead(before.queue, x)
    && (forall d :: OnTrack(before, d) ==> OnTrack(after, d))
  }

  /** The step served `x`, served somebody ahead of it, or left it no worse off. */
  ghost predicate Advanced(before: Bucket, after: Bucket, x: nat) {
    && after.rate == before.rate
    && Waits(after, x)
    && Ahead(after.queue, x) <= Ahead(before.queue, x)
    && (Ahead(after.queue, x) == Ahead(before.queue, x) ==> forall d :: OnTrack(before, d) ==> OnTrack(after, d))
  }

  lemma HarmlessThenDispatch(before: Bucket, ready: Bucket, x: nat, now: nat)
    requires before.rate.BytesPerSecond?
    requires Harmless(before, ready, x)
    ensures var after := Dispatched(ready, now);
            if x in Tickets(after.queue) then Advanced(before, after, x)
            else exists g :: g in Granted(ready, now) && g.ticket == x
  {
    var after := Dispatched(ready, now);
    DispatchProgress(ready, x, now);
    if x in Tickets(after.queue) && Ahead(after.queue, x) == Ahead(before.queue, x) {
      assert Granted(ready, now) == [];
      forall d | OnTrack(before, d)
        ensures OnTrack(after, d)
      {
        RefillOnTrack(ready, now, d);
      }
    }
  }

  lemma EnqueueHarmless(l: Lane, nextTicket: nat, request: Request, x: nat)
    requires Sane(l, nextTicket)
    requires Admissible(l.bucket, request)
    requires Waits(l.bucket, x)
    ensures Harmless(l.bucket, Enqueued(l.bucket, nextTicket, Bounded(request)), x)
  {
    var w := Waiter(nextTicket, Bounded(request), 0);
    EnqueueSane(l, nextTicket, request);
    TicketsSnoc(l.bucket.queue, w);
    var v :| v in l.bucket.queue && v.ticket == x && v.request.Divisible?;
    assert v in l.bucket.queue + [w];
    assert x in Held(l.bucket);
  }

  lemma WithdrawHarmless(l: Lane, nextTicket: nat, ticket: nat, x: nat)
    requires Sane(l, nextTicket)
    requires l.bucket.rate.BytesPerSecond?
    requires Waits(l.bucket, x) && ticket != x
    ensures Harmless(l.bucket, Withdrawn(l.bucket, ticket), x)
  {
    var after := Withdrawn(l.bucket, ticket);
    WithdrawSane(l, nextTicket, ticket);
    assert Waits(after, x) by {
      WithoutMembers(l.bucket.queue, ticket);
      var v :| v in l.bucket.queue && v.ticket == x && v.request.Divisible?;
      assert v in after.queue;
    }
    assert Ahead(after.queue, x) <= Ahead(l.bucket.queue, x) by {
      WithoutOrdered(l.bucket.queue, ticket);
    }
    forall d | OnTrack(l.bucket, d)
      ensures OnTrack(after, d)
    {
      WithdrawOnTrack(l.bucket, ticket, d);
    }
  }

  lemma WithdrawOnTrack(b: Bucket, ticket: nat, d: nat)
    requires b.rate.BytesPerSecond?
    requires OnTrack(b, d)
    ensures OnTrack(Withdrawn(b, ticket), d)
  {
    if ticket in b.completed && b.completed[ticket].Ok? {
      RefundOnTrack(Cleared(b, ticket), b.completed[ticket].reservation, d);
    }
  }

  lemma GiveBackHarmless(b: Bucket, r: Reservation, now: nat, x: nat)
    requires Valid(b) && b.rate.BytesPerSecond?
    requires Waits(b, x)
    ensures Harmless(b, Refunded(Refilled(b, now), r), x)
  {
    RefilledValid(b, now);
    RefundedValid(Refilled(b, now), r);
    forall d | OnTrack(b, d)
      ensures OnTrack(Refunded(Refilled(b, now), r), d)
    {
      RefillOnTrack(b, now, d);
      RefundOnTrack(Refilled(b, now), r, d);
    }
  }

  lemma RefillHarmless(b: Bucket, now: nat, x: nat)
    requires Valid(b) && b.rate.BytesPerSecond?
    requires Waits(b, x)
    ensures Harmless(b, Refilled(b, now), x)
  {
    RefilledValid(b, now);
    forall d | OnTrack(b, d)
      ensures OnTrack(Refilled(b, now), d)
    {
      RefillOnTrack(b, now, d);
    }
  }

  lemma StayHarmless(b: Bucket, x: nat)
    requires Valid(b) && Waits(b, x)
    ensures Harmless(b, b, x)
  {
  }

  // ----- one step

  /** Everything but a change of the rate in force or the waiter's own cancellation. */
  predicate Undisturbed(op: Op, x: nat, rate: Rate) {
    (op.Rerate? ==> op.rate == rate) && !(op.Cancel? && op.ticket == x)
  }

  /** The bucket a step dispatches. */
  function Readied(l: Lane, nextTicket: nat, op: Op): Bucket {
    match op
    case Arrive(request, now) => Enqueued(l.bucket, nextTicket, Bounded(request))
    case Poll(_, _) => l.bucket
    case Cancel(ticket, now) => Withdrawn(l.bucket, ticket)
    case Refund(tickets, now) =>
      if Holds(l, tickets) then Refunded(Refilled(l.bucket, now), Merged(l.live, tickets)) else l.bucket
    case Rerate(rate, now) => Updated(l.bucket, rate, now)
  }

  predicate Dispatches(l: Lane, op: Op) {
    && (op.Arrive? ==> Enters(l, op))
    && (op.Refund? ==> Holds(l, op.tickets))
  }

  lemma ReadiedHarmless(l: Lane, nextTicket: nat, op: Op, x: nat)
    requires Sane(l, nextTicket) && l.bucket.rate.BytesPerSecond?
    requires Waits(l.bucket, x)
    requires Undisturbed(op, x, l.bucket.rate) && Dispatches(l, op)
    ensures Harmless(l.bucket, Readied(l, nextTicket, op), x)
  {
    match op
    case Arrive(request, now) => EnqueueHarmless(l, nextTicket, request, x);
    case Poll(_, _) => StayHarmless(l.bucket, x);
    case Cancel(ticket, now) => WithdrawHarmless(l, nextTicket, ticket, x);
    case Refund(tickets, now) => GiveBackHarmless(l.bucket, Merged(l.live, tickets), now, x);
    case Rerate(_, now) =>
      SameRateRefills(l.bucket, now);
      RefillHarmless(l.bucket, now, x);
  }

  lemma StepShape(l: Lane, nextTicket: nat, op: Op)
    requires Dispatches(l, op)
    ensures var after, ready := StepLane(l, nextTicket, op), Readied(l, nextTicket, op);
            && after.bucket.queue == Dispatched(ready, op.now).queue
            && after.bucket.funds == Dispatched(ready, op.now).funds
            && after.bucket.rate == ready.rate
            && after.bucket.lastRefill == op.now
            && forall g :: g in Granted(ready, op.now) ==> g in after.live
  {
  }

  lemma StepAdvances(l: Lane, nextTicket: nat, op: Op, x: nat)
    requires LaneInv(l, nextTicket) && l.bucket.rate.BytesPerSecond?
    requires Waits(l.bucket, x)
    requires Undisturbed(op, x, l.bucket.rate)
    ensures var after := StepLane(l, nextTicket, op);
            if x in Tickets(after.bucket.queue) then Advanced(l.bucket, after.bucket, x)
            else Lookup(after.live, x).Some?
  {
    if Dispatches(l, op) {
      var ready := Readied(l, nextTicket, op);
      var after := StepLane(l, nextTicket, op);
      ReadiedHarmless(l, nextTicket, op, x);
      HarmlessThenDispatch(l.bucket, ready, x, op.now);
      StepShape(l, nextTicket, op);
      StepLaneKeeps(l, nextTicket, op);
      if x !in Tickets(after.bucket.queue) {
        var g :| g in Granted(ready, op.now) && g.ticket == x;
        LookupMember(after.live, x, g.reservation);
      } else {
        AdvancedSame(l.bucket, Dispatched(ready, op.now), after.bucket, x);
      }
    } else {
      assert x in Tickets(l.bucket.queue);
    }
  }

  lemma AdvancedSame(before: Bucket, mid: Bucket, after: Bucket, x: nat)
    requires Advanced(before, mid, x)
    requires after.queue == mid.queue && after.funds == mid.funds
    requires after.rate == mid.rate && after.lastRefill == mid.lastRefill
    ensures Advanced(before, after, x)
  {
    assert Ahead(after.queue, x) == Ahead(mid.queue, x);
    assert forall d :: OnTrack(mid, d) ==> OnTrack(after, d);
  }

  /** A wake-up at or after the deadline serves the waiter or somebody ahead of it. */
  lemma WakeupServes(l: Lane, nextTicket: nat, x: nat, now: nat, d: nat)
    requires LaneInv(l, nextTicket) && l.bucket.rate.BytesPerSecond?
    requires Waits(l.bucket, x)
    requires OnTrack(l.bucket, d) && d <= now
    ensures var after := StepLane(l, nextTicket, Poll(x, now)).bucket;
            x in Tickets(after.queue) ==> Ahead(after.queue, x) != Ahead(l.bucket.queue, x)
  {
    DueGrants(l.bucket, x, d, now);
    DispatchProgress(l.bucket, x, now);
    var after := StepLane(l, nextTicket, Poll(x, now)).bucket;
    assert Ahead(after.queue, x) == Ahead(Dispatched(l.bucket, now).queue, x);
  }

  // ----- whole runs

  /** No policy gives this direction another rate, and `x` itself is not cancelled; anything
      else may happen, other directions' rates included. */
  ghost predicate LeavesAlone(events: seq<Event>, direction: Direction, x: nat, rate: Rate) {
    forall e :: e in events ==>
      match Seen(e, direction)
      case None => true
      case Some(op) => Undisturbed(op, x, rate)
  }

  /** The event is a poll by whoever waits with ticket `x`. */
  predicate OwnPoll(e: Event, direction: Direction, x: nat) {
    match Seen(e, direction)
    case Some(Poll(ticket, _)) => ticket == x
    case _ => false
  }

  /** Counts 1 when the event is that task waking up at or after its deadline. */
  function Woken(e: Event, direction: Direction, x: nat, deadline: Option<nat>): nat {
    if OwnPoll(e, direction, x) && deadline.Some? && Seen(e, direction).value.now >= deadline.value then 1 else 0
  }

  /** The deadline that task sleeps on after the event has led to `next`. */
  function Handed(next: Limiter, e: Event, direction: Direction, x: nat, deadline: Option<nat>): Option<nat> {
    if OwnPoll(e, direction, x) then NextDeadline(next.Lane(direction).bucket, Seen(e, direction).value.now)
    else deadline
  }

  /** How often whoever waits with ticket `x` is woken by the deadline during a run. */
  function Wakeups(l: Limiter, events: seq<Event>, direction: Direction, x: nat, deadline: Option<nat>): nat
    decreases events
  {
    if events == [] then 0
    else
      var next := Step(l, events[0]);
      Woken(events[0], direction, x, deadline)
      + Wakeups(next, events[1..], direction, x, Handed(next, events[0], direction, x, deadline))
  }

  /** At some point of the run, `x` holds a grant. */
  ghost predicate Served(l: Limiter, events: seq<Event>, direction: Direction, x: nat)
    decreases events
  {
    || Lookup(l.Lane(direction).live, x).Some?
    || (events != [] && Served(Step(l, events[0]), events[1..], direction, x))
  }

  /** Everything a run of the theorem keeps. */
  ghost predicate Queued(l: Limiter, direction: Direction, x: nat, limit: nat) {
    var b := l.Lane(direction).bucket;
    && Inv(l)
    && b.rate.BytesPerSecond?
    && Waits(b, x)
    && DebtWithin(b, limit)
    && Reachable(b.rate, limit)
  }

  lemma ReachableBelow(rate: Rate, debt: nat, limit: nat)
    requires Reachable(rate, limit) && debt <= limit
    ensures Reachable(rate, debt)
  {
  }

  /** One event of the run: either `x` is served, or it still waits with nobody new ahead. */
  lemma EventAdvances(l: Limiter, e: Event, direction: Direction, x: nat, limit: nat)
    requires Queued(l, direction, x, limit)
    requires Seen(e, direction).Some? ==> Undisturbed(Seen(e, direction).value, x, l.Lane(direction).bucket.rate)
    requires e.On? && e.direction == direction ==> OpAllowance(e.op, limit)
    ensures var before, after := l.Lane(direction), Step(l, e).Lane(direction);
            || Lookup(after.live, x).Some?
            || (Queued(Step(l, e), direction, x, limit) && Advanced(before.bucket, after.bucket, x))
  {
    StepKeeps(l, e);
    StepOnLane(l, e, direction);
    var op := Seen(e, direction);
    if op.Some? {
      StepDebt(l.Lane(direction), l.nextTicket, op.value, limit);
      StepAdvances(l.Lane(direction), l.nextTicket, op.value, x);
    }
  }

  /** The waiter's own poll: the deadline it is handed is on track, and if the old one was and
      has passed, somebody ahead was served. */
  lemma PolledDeadline(l: Limiter, e: Event, direction: Direction, x: nat, limit: nat, deadline: nat, now: nat)
    requires Queued(l, direction, x, limit)
    requires Seen(e, direction) == Some(Poll(x, now))
    requires Queued(Step(l, e), direction, x, limit)
    ensures var before, after := l.Lane(direction).bucket, Step(l, e).Lane(direction).bucket;
            && NextDeadline(after, now).Some?
            && OnTrack(after, NextDeadline(after, now).value)
            && (OnTrack(before, deadline) && deadline <= now ==> Ahead(after.queue, x) != Ahead(before.queue, x))
  {
    var before, after := l.Lane(direction).bucket, Step(l, e).Lane(direction).bucket;
    StepOnLane(l, e, direction);
    StepShape(l.Lane(direction), l.nextTicket, Poll(x, now));
    assert after.lastRefill == now;
    ReachableBelow(after.rate, after.funds.debt, limit);
    DeadlineOnTrack(after, x);
    if OnTrack(before, deadline) && deadline <= now {
      WakeupServes(l.Lane(direction), l.nextTicket, x, now, deadline);
      var w :| w in after.queue && w.ticket == x && w.request.Divisible?;
      assert x in Tickets(after.queue);
    }
  }

  /** Wake-ups still to be paid for: one per waiter ahead, and one more if somebody has been
      served since the deadline was handed out, so that it need not be on track any more. */
  ghost function Budget(b: Bucket, x: nat, deadline: Option<nat>): nat {
    |Ahead(b.queue, x)| + (if deadline.Some? && OnTrack(b, deadline.value) then 0 else 1)
  }

  lemma BudgetKept(before: Bucket, after: Bucket, x: nat, deadline: Option<nat>)
    requires Advanced(before, after, x)
    ensures Budget(after, x, deadline) <= Budget(before, x, deadline)
  {
    SubsetSize(Ahead(after.queue, x), Ahead(before.queue, x));
  }

  lemma BudgetSpent(before: Bucket, after: Bucket, x: nat, deadline: Option<nat>, handed: nat, now: nat)
    requires Advanced(before, after, x)
    requires OnTrack(after, handed)
    requires deadline.Some? && OnTrack(before, deadline.value) && deadline.value <= now ==>
               Ahead(after.queue, x) != Ahead(before.queue, x)
    ensures (if deadline.Some? && deadline.value <= now then 1 else 0) + Budget(after, x, Some(handed))
            <= Budget(before, x, deadline)
  {
    SubsetSize(Ahead(after.queue, x), Ahead(before.queue, x));
  }

  /** The hypotheses of the theorem, for the rest of a run during which `x` is not served. */
  ghost predicate StillWaiting(l: Limiter, events: seq<Event>, direction: Direction, x: nat, limit: nat) {
    && Queued(l, direction, x, limit)
    && LeavesAlone(events, direction, x, l.Lane(direction).bucket.rate)
    && ArrivalsWithin(events, direction, limit)
    && !Served(l, events, direction, x)
  }

  lemma StillWaitingStep(l: Limiter, events: seq<Event>, direction: Direction, x: nat, limit: nat)
    requires StillWaiting(l, events, direction, x, limit)
    requires events != []
    ensures StillWaiting(Step(l, events[0]), events[1..], direction, x, limit)
    ensures Advanced(l.Lane(direction).bucket, Step(l, events[0]).Lane(direction).bucket, x)
  {
    assert events[0] in events;
    assert forall y :: y in events[1..] ==> y in events;
    EventAdvances(l, events[0], direction, x, limit);
    assert !Served(Step(l, events[0]), events[1..], direction, x);
  }

  lemma BudgetOwnPoll(l: Limiter, e: Event, direction: Direction, x: nat, deadline: Option<nat>, limit: nat, now: nat)
    requires Queued(l, direction, x, limit)
    requires Queued(Step(l, e), direction, x, limit)
    requires Seen(e, direction) == Some(Poll(x, now))
    requires Advanced(l.Lane(direction).bucket, Step(l, e).Lane(direction).bucket, x)
    ensures var before, after := l.Lane(direction).bucket, Step(l, e).Lane(direction).bucket;
            (if deadline.Some? && deadline.value <= now then 1 else 0) + Budget(after, x, NextDeadline(after, now))
            <= Budget(before, x, deadline)
  {
    var before, after := l.Lane(direction).bucket, Step(l, e).Lane(direction).bucket;
    PolledDeadline(l, e, direction, x, limit, if deadline.Some? then deadline.value else 0, now);
    BudgetSpent(before, after, x, deadline, NextDeadline(after, now).value, now);
  }

  /** A wake-up by the waiter's own deadline costs one unit of the budget; other events none. */
  lemma BudgetStep(l: Limiter, e: Event, direction: Direction, x: nat, deadline: Option<nat>, limit: nat)
    requires Queued(l, direction, x, limit)
    requires Queued(Step(l, e), direction, x, limit)
    requires Advanced(l.Lane(direction).bucket, Step(l, e).Lane(direction).bucket, x)
    ensures var before, after := l.Lane(direction).bucket, Step(l, e).Lane(direction).bucket;
            Woken(e, direction, x, deadline) + Budget(after, x, Handed(Step(l, e), e, direction, x, deadline))
            <= Budget(before, x, deadline)
  {
    if OwnPoll(e, direction, x) {
      BudgetOwnPoll(l, e, direction, x, deadline, limit, Seen(e, direction).value.now);
    } else {
      BudgetKept(l.Lane(direction).bucket, Step(l, e).Lane(direction).bucket, x, deadline);
    }
  }

  lemma {:induction false} WakeupsBounded(l: Limiter, events: seq<Event>, direction: Direction, x: nat,
                                          deadline: Option<nat>, limit: nat)
    requires StillWaiting(l, events, direction, x, limit)
    ensures Wakeups(l, events, direction, x, deadline) <= Budget(l.Lane(direction).bucket, x, deadline)
    decreases events
  {
    if events == [] {
    } else {
      var e, rest := events[0], events[1..];
      var next := Step(l, e);
      StillWaitingStep(l, events, direction, x, limit);
      BudgetStep(l, e, direction, x, deadline, limit);
      WakeupsBounded(next, rest, direction, x, Handed(next, e, direction, x, deadline), limit);
    }
  }

  /** Bounded waiting.  From the moment a task sleeps on its deadline, a divisible waiter with
      k waiters ahead of it is served before its (k + 1)-st deadline wake-up is over, whatever
      other tasks do, as long as no policy changes this direction's rate and no allowance is so large that it would take
      the rate more than 2^64 - 1 nanoseconds to pay it off. */
  lemma BoundedWaiting(l: Limiter, events: seq<Event>, direction: Direction, x: nat, limit: nat)
    requires Queued(l, direction, x, limit)
    requires LeavesAlone(events, direction, x, l.Lane(direction).bucket.rate)
    requires ArrivalsWithin(events, direction, limit)
    requires var b := l.Lane(direction).bucket;
             Wakeups(l, events, direction, x, NextDeadline(b, b.lastRefill)) > |Ahead(b.queue, x)|
    ensures Served(l, events, direction, x)
  {
    var b := l.Lane(direction).bucket;
    ReachableBelow(b.rate, b.funds.debt, limit);
    DeadlineOnTrack(b, x);
    if !Served(l, events, direction, x) {
      WakeupsBounded(l, events, direction, x, NextDeadline(b, b.lastRefill), limit);
    }
  }
}
