/** Whole runs of the limiter: what holds in every reachable state, and conservation. */
module BandwidthRuns {
  import opened Basics
  import opened Arithmetic
  import opened BandwidthTypes
  import opened BandwidthFunds
  import opened BandwidthDispatch
  import opened BandwidthBucket
  import opened BandwidthUpdate
  import opened BandwidthLimiter
  import opened BandwidthLedger

  datatype Direction = Upload | Download

  datatype Limiter = Limiter(upload: Lane, download: Lane, nextTicket: nat) {
    function Lane(direction: Direction): Lane {
      if direction.Upload? then upload else download
    }

    function With(direction: Direction, lane: Lane): Limiter {
      if direction.Upload? then this.(upload := lane) else this.(download := lane)
    }
  }

  /** One locked section: an operation on one direction, or a policy change for both. */
  datatype Event =
    | On(direction: Direction, op: Op)
    | UpdatePolicy(upload: Rate, download: Rate, now: nat)

  function NewLimiter(upload: Rate, download: Rate, now: nat): Limiter {
    Limiter(OpenLane(upload, now), OpenLane(download, now), 1)
  }

  function Step(l: Limiter, e: Event): Limiter {
    match e
    case On(direction, op) =>
      var lane := l.Lane(direction);
      l.With(direction, StepLane(lane, l.nextTicket, op)).(nextTicket := NextTicket(lane, l.nextTicket, op))
    case UpdatePolicy(upload, download, now) =>
      Limiter(
        StepLane(l.upload, l.nextTicket, Rerate(upload, now)),
        StepLane(l.download, l.nextTicket, Rerate(download, now)),
        l.nextTicket)
  }

  function Run(l: Limiter, events: seq<Event>): Limiter
    decreases events
  {
    if events == [] then l else Run(Step(l, events[0]), events[1..])
  }

  // ----- one step

  ghost predicate LaneInv(lane: Lane, nextTicket: nat) {
    Sane(lane, nextTicket) && Settled(lane.bucket)
  }

  ghost predicate Inv(l: Limiter) {
    LaneInv(l.upload, l.nextTicket) && LaneInv(l.download, l.nextTicket)
  }

  lemma StepLaneKeeps(l: Lane, nextTicket: nat, op: Op)
    requires LaneInv(l, nextTicket)
    ensures LaneInv(StepLane(l, nextTicket, op), NextTicket(l, nextTicket, op))
  {
    match op
    case Arrive(request, now) =>
      if Enters(l, op) {
        var entered := l.(bucket := Enqueued(l.bucket, nextTicket, Bounded(request)));
        EnqueueSane(l, nextTicket, request);
        DispatchSane(entered, nextTicket + 1, now);
        ClaimSane(DispatchLane(entered, now), nextTicket + 1, nextTicket);
      }
    case Poll(ticket, now) =>
      DispatchSane(l, nextTicket, now);
      ClaimSane(DispatchLane(l, now), nextTicket, ticket);
    case Cancel(ticket, now) =>
      WithdrawSane(l, nextTicket, ticket);
      DispatchSane(WithdrawLane(l, ticket), nextTicket, now);
    case Refund(tickets, now) =>
      if Holds(l, tickets) {
        RefillSane(l, nextTicket, now);
        GiveBackSane(RefillLane(l, now), nextTicket, tickets);
        DispatchSane(GiveBackLane(RefillLane(l, now), tickets), nextTicket, now);
      }
    case Rerate(rate, now) =>
      UpdateSane(l, nextTicket, rate, now);
      DispatchSane(RefillLane(l, now).(bucket := Updated(l.bucket, rate, now)), nextTicket, now);
  }

  lemma ClearHeld(b: Bucket, ticket: nat)
    requires ticket !in Tickets(b.queue)
    ensures Held(b.(completed := b.completed - {ticket})) == Held(b) - {ticket}
  {
    RemoveKeySize(b.completed, ticket);
  }

  lemma PollHeld(b: Bucket, nextTicket: nat, ticket: nat, now: nat)
    requires Valid(b)
    ensures var p := PollBucket(b, nextTicket, ticket, now);
            if p.reply.Done? then ticket in Held(b) && Held(p.bucket) == Held(b) - {ticket}
            else Held(p.bucket) == Held(b)
  {
    DispatchedValid(b, now);
    DispatchedTickets(b, now);
    var d := Dispatched(b, now);
    if ticket in d.completed {
      ClearHeld(d, ticket);
    }
  }

  lemma FreshTicket(b: Bucket, nextTicket: nat)
    requires Counted(b.queue, b.completed, nextTicket)
    ensures nextTicket !in Held(b)
  {
  }

  lemma EnteredHeld(b: Bucket, w: Waiter)
    ensures Held(b.(queue := b.queue + [w])) == Held(b) + {w.ticket}
  {
    TicketsSnoc(b.queue, w);
  }

  lemma ArriveHeld(b: Bucket, nextTicket: nat, request: Request, now: nat)
    requires Valid(b)
    requires Counted(b.queue, b.completed, nextTicket)
    requires Admissible(b, request)
    ensures var p := PollBucket(Enqueued(b, nextTicket, Bounded(request)), nextTicket + 1, nextTicket, now);
            Held(p.bucket) == if p.reply.Wait? then Held(b) + {nextTicket} else Held(b)
  {
    var w := Waiter(nextTicket, Bounded(request), 0);
    AdmittedOnArrival(b.rate, nextTicket, request);
    EnqueuedLined(b.rate, b.queue, b.completed, w);
    EnteredHeld(b, w);
    FreshTicket(b, nextTicket);
    PollHeld(Enqueued(b, nextTicket, Bounded(request)), nextTicket + 1, nextTicket, now);
  }

  lemma RefundHeld(b: Bucket, r: Reservation, now: nat)
    requires Valid(b)
    ensures Held(RefundBucket(b, r, now)) == Held(b)
  {
    RefilledValid(b, now);
    RefundedValid(Refilled(b, now), r);
    DispatchedTickets(Refunded(Refilled(b, now), r), now);
  }

  lemma CancelHeld(b: Bucket, ticket: nat, now: nat)
    requires Valid(b)
    ensures Held(CancelBucket(b, ticket, now)) == Held(b) - {ticket}
  {
    ClearedLined(b.rate, b.queue, b.completed, ticket);
    ClearedHeld(b, ticket);
    assert Valid(Withdrawn(b, ticket));
    DispatchedTickets(Withdrawn(b, ticket), now);
  }

  /** Tickets are accounted for one by one: only an admitted arrival brings one in, only the
      task that claims or cancels it takes one out, and nothing else moves the set at all. */
  lemma StepTickets(l: Lane, nextTicket: nat, op: Op)
    requires LaneInv(l, nextTicket)
    ensures var after := Held(StepLane(l, nextTicket, op).bucket);
            match op
            case Arrive(request, now) =>
              if Enters(l, op) && ArriveBucket(l.bucket, nextTicket, request, now).reply.Wait?
              then after == Held(l.bucket) + {nextTicket}
              else after == Held(l.bucket)
            case Poll(ticket, now) =>
              if PollBucket(l.bucket, nextTicket, ticket, now).reply.Done?
              then ticket in Held(l.bucket) && after == Held(l.bucket) - {ticket}
              else after == Held(l.bucket)
            case Cancel(ticket, now) => after == Held(l.bucket) - {ticket}
            case Refund(_, _) => after == Held(l.bucket)
            case Rerate(_, _) => after == Held(l.bucket)
  {
    StepLaneFollows(l, nextTicket, op);
    match op
    case Arrive(request, now) =>
      if Enters(l, op) {
        ArriveHeld(l.bucket, nextTicket, request, now);
      }
    case Poll(ticket, now) => PollHeld(l.bucket, nextTicket, ticket, now);
    case Cancel(ticket, now) => CancelHeld(l.bucket, ticket, now);
    case Refund(tickets, now) =>
      if Holds(l, tickets) {
        RefundHeld(l.bucket, Merged(l.live, tickets), now);
      }
    case Rerate(rate, now) => UpdateTickets(l.bucket, rate, now);
  }

  lemma SaneLater(l: Lane, nextTicket: nat, later: nat)
    requires LaneInv(l, nextTicket)
    requires nextTicket <= later
    ensures LaneInv(l, later)
  {
  }

  lemma StepKeeps(l: Limiter, e: Event)
    requires Inv(l)
    ensures Inv(Step(l, e))
  {
    match e
    case On(direction, op) =>
      var lane := l.Lane(direction);
      var next := NextTicket(lane, l.nextTicket, op);
      StepLaneKeeps(lane, l.nextTicket, op);
      SaneLater(l.upload, l.nextTicket, next);
      SaneLater(l.download, l.nextTicket, next);
    case UpdatePolicy(upload, download, now) =>
      StepLaneKeeps(l.upload, l.nextTicket, Rerate(upload, now));
      StepLaneKeeps(l.download, l.nextTicket, Rerate(download, now));
  }

  lemma NewLimiterInv(upload: Rate, download: Rate, now: nat)
    ensures Inv(NewLimiter(upload, download, now))
  {
  }

  // ----- whole runs

  lemma {:induction false} RunKeeps(l: Limiter, events: seq<Event>)
    requires Inv(l)
    ensures Inv(Run(l, events))
    decreases events
  {
    if events == [] {
    } else {
      StepKeeps(l, events[0]);
      RunKeeps(Step(l, events[0]), events[1..]);
    }
  }

  /** The state every run reaches: credit within capacity, waiters in ticket order and each
      still admissible, waiting and completed tickets disjoint and at most MAX_PENDING. */
  lemma ReachableStates(upload: Rate, download: Rate, start: nat, events: seq<Event>, direction: Direction)
    ensures var b := Run(NewLimiter(upload, download, start), events).Lane(direction).bucket;
            && b.funds.credit <= Capacity(b.rate)
            && (b.rate.Unlimited? ==> b.queue == [])
            && Ordered(b.queue)
            && AllAdmitted(b.queue, Capacity(b.rate))
            && Tickets(b.queue) !! b.completed.Keys
            && |b.queue| + |b.completed| <= MAX_PENDING
  {
    NewLimiterInv(upload, download, start);
    RunKeeps(NewLimiter(upload, download, start), events);
  }

  /** A ticket that has left a direction never comes back, whatever happens next. */
  lemma {:induction false} TicketsNeverReturn(l: Limiter, events: seq<Event>, direction: Direction, ticket: nat)
    requires Inv(l)
    requires ticket < l.nextTicket
    requires ticket !in Held(l.Lane(direction).bucket)
    ensures ticket !in Held(Run(l, events).Lane(direction).bucket)
    decreases events
  {
    if events == [] {
    } else {
      StepKeeps(l, events[0]);
      match events[0] {
        case On(d, op) =>
          if d == direction {
            StepTickets(l.Lane(d), l.nextTicket, op);
          }
        case UpdatePolicy(upload, download, now) =>
          StepTickets(l.upload, l.nextTicket, Rerate(upload, now));
          StepTickets(l.download, l.nextTicket, Rerate(download, now));
      }
      TicketsNeverReturn(Step(l, events[0]), events[1..], direction, ticket);
    }
  }

  /** A run that never works on a direction leaves it exactly as it was. */
  lemma {:induction false} DirectionsAreIndependent(l: Limiter, events: seq<Event>, direction: Direction)
    requires forall e :: e in events ==> Seen(e, direction).None?
    ensures Run(l, events).Lane(direction) == l.Lane(direction)
    decreases events
  {
    if events == [] {
    } else {
      assert events[0] in events;
      StepOnLane(l, events[0], direction);
      DirectionsAreIndependent(Step(l, events[0]), events[1..], direction);
    }
  }

  // ----- conservation in bytes

  /** Payload bytes that are still charged against a limited rate. */
  function ChargedBytes(live: seq<Grant>): nat {
    if live == [] then 0
    else (if Units(live[0].reservation) > 0 then live[0].reservation.bytes else 0) + ChargedBytes(live[1..])
  }

  lemma {:induction false} ChargedBytesPrice(live: seq<Grant>)
    requires Priced(live)
    ensures TotalUnits(live) == ChargedBytes(live) * BYTE_UNITS
  {
    if live == [] {
    } else {
      assert live[0] in live;
      ChargedBytesPrice(live[1..]);
    }
  }

  /** Units a step earns: the rate in force times the nanoseconds its refill sees. */
  function Earning(l: Lane, op: Op): nat {
    match op
    case Arrive(_, now) => if Enters(l, op) then Earned(l.bucket.rate, l.bucket.lastRefill, now) else 0
    case Refund(tickets, now) => if Holds(l, tickets) then Earned(l.bucket.rate, l.bucket.lastRefill, now) else 0
    case Poll(_, now) => Earned(l.bucket.rate, l.bucket.lastRefill, now)
    case Cancel(_, now) => Earned(l.bucket.rate, l.bucket.lastRefill, now)
    case Rerate(_, now) => Earned(l.bucket.rate, l.bucket.lastRefill, now)
  }

  lemma StepFunds(l: Lane, nextTicket: nat, op: Op)
    ensures StepLane(l, nextTicket, op).funded == l.funded + Earning(l, op)
  {
    match op
    case Refund(_, now) =>
      assert Elapsed(now, now) == 0;
    case Rerate(rate, now) =>
      assert Elapsed(now, now) == 0;
      assert Earned(rate, now, now) == 0;
    case _ =>
  }

  /** The operation an event performs on a direction, if any. */
  function Seen(e: Event, direction: Direction): Option<Op> {
    match e
    case On(d, op) => if d == direction then Some(op) else None
    case UpdatePolicy(upload, download, now) => Some(Rerate(if direction.Upload? then upload else download, now))
  }

  /** What a direction earns over a run: the integral of its rate over the time its refills
      charge. */
  function RunEarning(l: Limiter, events: seq<Event>, direction: Direction): nat
    decreases events
  {
    if events == [] then 0
    else StepEarning(l, events[0], direction) + RunEarning(Step(l, events[0]), events[1..], direction)
  }

  function StepEarning(l: Limiter, e: Event, direction: Direction): nat {
    var op := Seen(e, direction);
    if op.Some? then Earning(l.Lane(direction), op.value) else 0
  }

  lemma StepOnLane(l: Limiter, e: Event, direction: Direction)
    ensures var op := Seen(e, direction);
            Step(l, e).Lane(direction)
            == if op.Some? then StepLane(l.Lane(direction), l.nextTicket, op.value) else l.Lane(direction)
  {
  }

  lemma {:induction false} RunFunds(l: Limiter, events: seq<Event>, direction: Direction)
    ensures Run(l, events).Lane(direction).funded
            == l.Lane(direction).funded + RunEarning(l, events, direction)
    decreases events
  {
    if events == [] {
    } else {
      StepOnLane(l, events[0], direction);
      var op := Seen(events[0], direction);
      if op.Some? {
        StepFunds(l.Lane(direction), l.nextTicket, op.value);
      }
      RunFunds(Step(l, events[0]), events[1..], direction);
    }
  }

  /** Conservation: in every run of arrivals, polls, cancellations, refunds and policy changes,
      the bytes still charged plus the credit left never exceed the opening burst, plus what
      was earned, plus what is owed. */
  lemma Conservation(upload: Rate, download: Rate, start: nat, events: seq<Event>, direction: Direction)
    ensures var opening := NewLimiter(upload, download, start);
            var lane := Run(opening, events).Lane(direction);
            ChargedBytes(lane.live) * BYTE_UNITS + lane.bucket.funds.credit
            <= opening.Lane(direction).bucket.funds.credit
               + RunEarning(opening, events, direction) + lane.bucket.funds.debt
  {
    var opening := NewLimiter(upload, download, start);
    NewLimiterInv(upload, download, start);
    RunKeeps(opening, events);
    RunFunds(opening, events, direction);
    ChargedBytesPrice(Run(opening, events).Lane(direction).live);
  }

  // ----- conservation by the clock

  /** The direction's clock never steps back: no operation sees an instant before the last
      refill; and no rate it is given exceeds `ceiling` bytes per second. */
  ghost predicate Steady(l: Limiter, events: seq<Event>, direction: Direction, ceiling: nat)
    decreases events
  {
    events != [] ==>
      && EventByClock(l.Lane(direction).bucket, events[0], direction, ceiling)
      && Steady(Step(l, events[0]), events[1..], direction, ceiling)
  }

  ghost predicate EventByClock(b: Bucket, e: Event, direction: Direction, ceiling: nat) {
    Seen(e, direction).Some? ==>
      var op := Seen(e, direction).value;
      b.lastRefill <= op.now && (op.Rerate? ==> CapacityBytes(op.rate) <= ceiling)
  }

  /** An operation either refills at its instant or does not touch the direction. */
  lemma StepClock(l: Lane, nextTicket: nat, op: Op)
    ensures var after := StepLane(l, nextTicket, op).bucket;
            || (after == l.bucket && Earning(l, op) == 0)
            || (&& after.lastRefill == op.now
                && Earning(l, op) == Earned(l.bucket.rate, l.bucket.lastRefill, op.now)
                && after.rate == if op.Rerate? then op.rate else l.bucket.rate)
  {
  }

  lemma EarnedByClock(rate: Rate, from: nat, to: nat, ceiling: nat)
    requires CapacityBytes(rate) <= ceiling
    requires from <= to
    ensures Earned(rate, from, to) + from * ceiling <= to * ceiling
  {
    MulMonotone(CapacityBytes(rate), ceiling, to - from);
    MulDistributes(to - from, from, ceiling);
  }

  lemma EarningByClock(l: Lane, nextTicket: nat, op: Op, ceiling: nat)
    requires CapacityBytes(l.bucket.rate) <= ceiling
    requires op.Rerate? ==> CapacityBytes(op.rate) <= ceiling
    requires l.bucket.lastRefill <= op.now
    ensures var after := StepLane(l, nextTicket, op).bucket;
            && l.bucket.lastRefill <= after.lastRefill
            && Earning(l, op) + l.bucket.lastRefill * ceiling <= after.lastRefill * ceiling
            && CapacityBytes(after.rate) <= ceiling
  {
    StepClock(l, nextTicket, op);
    EarnedByClock(l.bucket.rate, l.bucket.lastRefill, op.now, ceiling);
  }

  lemma StepEarningByClock(l: Limiter, e: Event, direction: Direction, ceiling: nat)
    requires CapacityBytes(l.Lane(direction).bucket.rate) <= ceiling
    requires EventByClock(l.Lane(direction).bucket, e, direction, ceiling)
    ensures var before, after := l.Lane(direction).bucket, Step(l, e).Lane(direction).bucket;
            && before.lastRefill <= after.lastRefill
            && CapacityBytes(after.rate) <= ceiling
            && StepEarning(l, e, direction) + before.lastRefill * ceiling <= after.lastRefill * ceiling
  {
    StepOnLane(l, e, direction);
    var op := Seen(e, direction);
    if op.Some? {
      EarningByClock(l.Lane(direction), l.nextTicket, op.value, ceiling);
    }
  }

  lemma {:induction false} RunEarningByClock(l: Limiter, events: seq<Event>, direction: Direction, ceiling: nat)
    requires CapacityBytes(l.Lane(direction).bucket.rate) <= ceiling
    requires Steady(l, events, direction, ceiling)
    ensures var since, until := l.Lane(direction).bucket.lastRefill, Run(l, events).Lane(direction).bucket.lastRefill;
            since <= until && RunEarning(l, events, direction) + since * ceiling <= until * ceiling
    decreases events
  {
    if events == [] {
    } else {
      StepEarningByClock(l, events[0], direction, ceiling);
      RunEarningByClock(Step(l, events[0]), events[1..], direction, ceiling);
    }
  }

  lemma OpeningBurst(upload: Rate, download: Rate, start: nat, direction: Direction, ceiling: nat)
    requires CapacityBytes(NewLimiter(upload, download, start).Lane(direction).bucket.rate) <= ceiling
    ensures var b := NewLimiter(upload, download, start).Lane(direction).bucket;
            b.funds.credit <= BYTE_UNITS * ceiling && b.lastRefill == start
  {
  }

  lemma BurstPlusTime(charged: nat, burst: nat, earning: nat, since: nat, until: nat, ceiling: nat, debt: nat)
    requires charged <= burst + earning + debt
    requires burst <= BYTE_UNITS * ceiling
    requires since <= until
    requires earning + since * ceiling <= until * ceiling
    ensures charged <= (BYTE_UNITS + (until - since)) * ceiling + debt
  {
    MulDistributes(BYTE_UNITS, until - since, ceiling);
    MulDistributes(since, until - since, ceiling);
  }

  /** On a clock that never steps back, the bytes charged in any run are at most one second's
      burst plus the time passed at the highest rate ever set, plus what is owed. */
  lemma ConservationByClock(upload: Rate, download: Rate, start: nat, events: seq<Event>, direction: Direction,
                            ceiling: nat)
    requires var opening := NewLimiter(upload, download, start);
             && CapacityBytes(opening.Lane(direction).bucket.rate) <= ceiling
             && Steady(opening, events, direction, ceiling)
    ensures var lane := Run(NewLimiter(upload, download, start), events).Lane(direction);
            && start <= lane.bucket.lastRefill
            && ChargedBytes(lane.live) * BYTE_UNITS
               <= (BYTE_UNITS + (lane.bucket.lastRefill - start)) * ceiling + lane.bucket.funds.debt
  {
    var opening := NewLimiter(upload, download, start);
    var lane := Run(opening, events).Lane(direction);
    Conservation(upload, download, start, events, direction);
    RunEarningByClock(opening, events, direction, ceiling);
    OpeningBurst(upload, download, start, direction, ceiling);
    BurstPlusTime(
      ChargedBytes(lane.live) * BYTE_UNITS,
      opening.Lane(direction).bucket.funds.credit,
      RunEarning(opening, events, direction),
      start, lane.bucket.lastRefill, ceiling, lane.bucket.funds.debt);
  }
}
