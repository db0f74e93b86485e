/** Runs that leave credit beside debt, one for every rate, and a deadline that is late for
    every rate at which a byte takes longer than half a nanosecond. */
module BandwidthLateDeadline {
  import opened Basics
  import opened Arithmetic
  import opened BandwidthTypes
  import opened BandwidthFunds
  import opened BandwidthDispatch
  import opened BandwidthBucket
  import opened BandwidthLimiter
  import opened BandwidthLedger
  import opened BandwidthRuns
  import opened BandwidthDebt
  import opened BandwidthDeadline

  /** A second is as many nanoseconds as a byte has units. */
  const SECOND: nat := BYTE_UNITS

  function Owed(request: Request, rate: Rate): nat
    requires request.bytes >= CapacityBytes(rate)
  {
    (request.bytes - CapacityBytes(rate)) * BYTE_UNITS
  }

  /** What an item that takes all the credit of a full bucket is charged. */
  function Whole(request: Request, rate: Rate): Reservation
    requires request.bytes >= CapacityBytes(rate)
  {
    Reservation(request.bytes, Capacity(rate), Owed(request, rate))
  }

  lemma OneGrant(kept: seq<Waiter>, grants: seq<Grant>, w: Waiter)
    requires Partitions(kept, grants, [w]) && grants != []
    ensures kept == [] && |grants| == 1 && grants[0].ticket == w.ticket
  {
    assert grants[0].ticket in GrantTickets(grants);
    assert Tickets([w]) == {w.ticket};
  }

  /** An item that no credit is left beside has one possible charge. */
  lemma WholeCharge(r: Reservation, request: Request, rate: Rate)
    requires request.Indivisible? && rate.BytesPerSecond? && request.bytes >= CapacityBytes(rate)
    requires WellFormed(r, request, Capacity(rate))
    ensures r == Whole(request, rate)
  {
  }

  /** A full bucket serves its only waiter, an item of at least its capacity. */
  lemma LoneServed(b: Bucket, w: Waiter)
    requires Valid(b) && b.rate.BytesPerSecond? && b.queue == [w] && b.funds == Funds(Capacity(b.rate), 0)
    requires w.request.Indivisible? && w.request.bytes >= CapacityBytes(b.rate)
    ensures var o := Settle(b);
            && o.kept == [] && o.grants == [Grant(w.ticket, Whole(w.request, b.rate))]
            && o.funds == Funds(0, Owed(w.request, b.rate))
  {
    var o := Settle(b);
    var capacity := Capacity(b.rate);
    CapacityHoldsAByte(b.rate);
    LeastThresholdBounds(b.queue, capacity);
    GrantedIff(b);
    SettleSound(b);
    OneGrant(o.kept, o.grants, w);
    var g := o.grants[0];
    assert g in o.grants;
    WholeCharge(g.reservation, w.request, b.rate);
    RoundsAccounted(b.queue, b.funds, capacity);
  }

  /** A direction with nobody waiting and nothing unclaimed. */
  function Idle(rate: Rate, funds: Funds, now: nat): Bucket {
    Bucket(rate, funds, now, [], map[])
  }

  lemma DispatchesWhole(b: Bucket, w: Waiter, now: nat)
    requires Valid(b) && b.rate.BytesPerSecond? && b.queue == [w]
    requires Refilled(b, now).funds == Funds(Capacity(b.rate), 0)
    requires w.request.Indivisible? && w.request.bytes >= CapacityBytes(b.rate)
    ensures Granted(b, now) == [Grant(w.ticket, Whole(w.request, b.rate))]
    ensures var d := Dispatched(b, now);
            && d.rate == b.rate && d.funds == Funds(0, Owed(w.request, b.rate)) && d.lastRefill == now && d.queue == []
            && d.completed == Record(b.completed, Granted(b, now))
  {
    RefilledValid(b, now);
    LoneServed(Refilled(b, now), w);
  }

  /** A lone grant that is claimed leaves nothing unclaimed. */
  lemma ClaimedAtOnce(completed: map<nat, Completion>, grants: seq<Grant>, ticket: nat)
    requires completed == map[] && |grants| == 1 && grants[0].ticket == ticket
    ensures Record(completed, grants) - {ticket} == map[]
  {
    assert grants[1..] == [];
    assert Record(completed, grants) == completed[ticket := Ok(grants[0].reservation)];
  }

  /** The first look of such an item. */
  lemma LookedWhole(l: Lane, w: Waiter, now: nat)
    requires Valid(l.bucket) && l.bucket.rate.BytesPerSecond? && l.bucket.queue == [w] && l.bucket.completed == map[]
    requires Refilled(l.bucket, now).funds == Funds(Capacity(l.bucket.rate), 0)
    requires w.request.Indivisible? && w.request.bytes >= CapacityBytes(l.bucket.rate)
    ensures var after := Looked(l, w.ticket, now);
            && after.bucket == Idle(l.bucket.rate, Funds(0, Owed(w.request, l.bucket.rate)), now)
            && after.live == l.live + [Grant(w.ticket, Whole(w.request, l.bucket.rate))]
  {
    DispatchesWhole(l.bucket, w, now);
    ClaimedAtOnce(l.bucket.completed, Granted(l.bucket, now), w.ticket);
  }

  /** An item of at least the capacity that finds a full bucket is served on arrival. */
  lemma ArrivesWhole(l: Lane, ticket: nat, request: Request, now: nat)
    requires Sane(l, ticket) && l.bucket == Idle(l.bucket.rate, l.bucket.funds, l.bucket.lastRefill)
    requires l.bucket.rate.BytesPerSecond? && Refilled(l.bucket, now).funds == Funds(Capacity(l.bucket.rate), 0)
    requires request.Indivisible? && !Oversized(request, l.bucket.rate) && request.bytes >= CapacityBytes(l.bucket.rate)
    ensures var after := StepLane(l, ticket, Arrive(request, now));
            && Enters(l, Arrive(request, now))
            && after.bucket == Idle(l.bucket.rate, Funds(0, Owed(request, l.bucket.rate)), now)
            && after.live == l.live + [Grant(ticket, Whole(request, l.bucket.rate))]
  {
    EnqueueSane(l, ticket, request);
    LookedWhole(l.(bucket := Enqueued(l.bucket, ticket, request)), Waiter(ticket, request, 0), now);
  }

  /** A direction in debt keeps a new arrival waiting. */
  lemma ArrivesInDebt(l: Lane, ticket: nat, request: Request)
    requires l.bucket == Idle(l.bucket.rate, l.bucket.funds, l.bucket.lastRefill) && l.bucket.rate.BytesPerSecond?
    requires l.bucket.funds.debt > 0 && l.bucket.funds.credit <= Capacity(l.bucket.rate)
    requires Admissible(l.bucket, request) && Bounded(request) == request
    ensures StepLane(l, ticket, Arrive(request, l.bucket.lastRefill)).bucket
            == l.bucket.(queue := [Waiter(ticket, request, 0)])
  {
    var now := l.bucket.lastRefill;
    var b := Enqueued(l.bucket, ticket, request);
    assert Elapsed(now, now) == 0 && Refilled(b, now) == b && b.queue == [Waiter(ticket, request, 0)];
    assert b.completed - {ticket} == map[];
  }

  /** Giving back a claimed grant when nobody waits. */
  lemma ReturnsIdle(l: Lane, nextTicket: nat, ticket: nat, r: Reservation)
    requires l.bucket == Idle(l.bucket.rate, l.bucket.funds, l.bucket.lastRefill) && l.bucket.rate.BytesPerSecond?
    requires l.bucket.funds.credit <= Capacity(l.bucket.rate) && Lookup(l.live, ticket) == Some(r)
    ensures StepLane(l, nextTicket, Refund([ticket], l.bucket.lastRefill)).bucket
            == Idle(l.bucket.rate, GiveBack(l.bucket.funds, r, Capacity(l.bucket.rate)), l.bucket.lastRefill)
  {
    var now, tickets := l.bucket.lastRefill, [ticket];
    assert tickets[1..] == [] && Elapsed(now, now) == 0;
    assert Entry(l.live, tickets[0]) == r && Merged(l.live, []) == Reservation(0, 0, 0);
    assert Holds(l, tickets) && Merged(l.live, tickets) == r;
  }

  // ----- the run

  /** Items of the capacity and of one byte more, and a byte. */
  function Filling(rate: Rate): Request
    requires rate.BytesPerSecond?
  {
    Indivisible(rate.value, 0)
  }

  function Exceeding(rate: Rate): Request
    requires rate.BytesPerSecond? && rate.value < U64_MAX
  {
    Indivisible(rate.value + 1, 1)
  }

  /** The first item is charged and the upload direction idle with these funds. */
  ghost predicate At(l: Limiter, rate: Rate, funds: Funds, now: nat, nextTicket: nat)
    requires rate.BytesPerSecond?
  {
    && Inv(l) && l.nextTicket == nextTicket
    && l.upload.bucket == Idle(rate, funds, now)
    && Lookup(l.upload.live, 1) == Some(Whole(Filling(rate), rate))
  }

  lemma FirstFound(live: seq<Grant>, g: Grant, ticket: nat)
    requires Lookup(live, ticket).Some?
    ensures Lookup(live + [g], ticket) == Lookup(live, ticket)
  {
    if live[0].ticket == ticket {
    } else {
      assert (live + [g])[1..] == live[1..] + [g];
      FirstFound(live[1..], g, ticket);
    }
  }

  /** An item that takes all the credit, as a step of the limiter. */
  lemma StepsWhole(l: Limiter, rate: Rate, request: Request, now: nat)
    requires Inv(l) && rate.BytesPerSecond? &&
             l.upload.bucket == Idle(rate, l.upload.bucket.funds, l.upload.bucket.lastRefill)
    requires Refilled(l.upload.bucket, now).funds == Funds(Capacity(rate), 0)
    requires request.Indivisible? && !Oversized(request, rate) && request.bytes >= CapacityBytes(rate)
    ensures var after := Step(l, On(Upload, Arrive(request, now)));
            && Inv(after) && after.nextTicket == l.nextTicket + 1
            && after.upload.bucket == Idle(rate, Funds(0, Owed(request, rate)), now)
            && after.upload.live == l.upload.live + [Grant(l.nextTicket, Whole(request, rate))]
  {
    StepKeeps(l, On(Upload, Arrive(request, now)));
    ArrivesWhole(l.upload, l.nextTicket, request, now);
  }

  lemma FullAtFirst(rate: Rate)
    requires rate.BytesPerSecond?
    ensures var b := NewBucket(rate, 0); b == Idle(rate, b.funds, 0) && Refilled(b, 0).funds == Funds(Capacity(rate), 0)
  {
    assert Elapsed(0, 0) == 0;
  }

  /** All the credit is spent. */
  lemma Fills(l: Limiter, rate: Rate)
    requires Inv(l) && rate.BytesPerSecond? && l.upload == OpenLane(rate, 0) && l.nextTicket == 1
    ensures At(Step(l, On(Upload, Arrive(Filling(rate), 0))), rate, Funds(0, 0), 0, 2)
  {
    var g := Grant(1, Whole(Filling(rate), rate));
    FullAtFirst(rate);
    StepsWhole(l, rate, Filling(rate), 0);
    assert [] + [g] == [g];
  }

  lemma FullAfterASecond(b: Bucket, rate: Rate)
    requires rate.BytesPerSecond? && b == Idle(rate, Funds(0, 0), 0)
    ensures Refilled(b, SECOND).funds == Funds(Capacity(rate), 0)
  {
    assert Elapsed(0, SECOND) == SECOND;
  }

  /** A byte of debt. */
  lemma Exceeds(l: Limiter, rate: Rate)
    requires rate.BytesPerSecond? && rate.value < U64_MAX && At(l, rate, Funds(0, 0), 0, 2)
    ensures At(Step(l, On(Upload, Arrive(Exceeding(rate), SECOND))), rate, Funds(0, BYTE_UNITS), SECOND, 3)
  {
    var request := Exceeding(rate);
    FullAfterASecond(l.upload.bucket, rate);
    StepsWhole(l, rate, request, SECOND);
    FirstFound(l.upload.live, Grant(2, Whole(request, rate)), 1);
  }

  /** Credit beside the debt. */
  lemma Returns(l: Limiter, rate: Rate)
    requires rate.BytesPerSecond? && At(l, rate, Funds(0, BYTE_UNITS), SECOND, 3)
    ensures var after := Step(l, On(Upload, Refund([1], SECOND)));
            after.nextTicket == 3 && after.upload.bucket == Idle(rate, Funds(Capacity(rate), BYTE_UNITS), SECOND)
  {
    ReturnsIdle(l.upload, 3, 1, Whole(Filling(rate), rate));
  }

  /** A byte waits behind credit and debt. */
  function Late(rate: Rate): Bucket {
    Idle(rate, Funds(Capacity(rate), BYTE_UNITS), SECOND).(queue := [Waiter(3, Divisible(1), 0)])
  }

  lemma Waits(l: Limiter, rate: Rate)
    requires rate.BytesPerSecond? && l.nextTicket == 3
    requires l.upload.bucket == Idle(rate, Funds(Capacity(rate), BYTE_UNITS), SECOND)
    ensures Step(l, On(Upload, Arrive(Divisible(1), SECOND))).upload.bucket == Late(rate)
  {
    ArrivesInDebt(l.upload, 3, Divisible(1));
  }

  /** Its deadline, and when it can be served. */
  lemma LateBy(rate: Rate, t: nat)
    requires rate.BytesPerSecond? && SECOND <= t
    ensures NextDeadline(Late(rate), SECOND) == Some(SECOND + CeilDiv(2 * BYTE_UNITS, rate.value))
    ensures Granted(Late(rate), t) != [] <==> t >= SECOND + CeilDiv(BYTE_UNITS, rate.value)
  {
    var b := Late(rate);
    CapacityHoldsAByte(rate);
    assert Valid(b);
    assert b.queue[0] in b.queue;
    LeastThresholdBounds(b.queue, Capacity(rate));
    EarliestService(b, t);
    CeilDivLeast(2 * BYTE_UNITS, rate.value, U64_MAX);
  }

  lemma LateIff(rate: nat)
    requires rate >= 1
    ensures CeilDiv(2 * BYTE_UNITS, rate) > CeilDiv(BYTE_UNITS, rate) <==> rate < 2 * BYTE_UNITS
  {
    var t := CeilDiv(BYTE_UNITS, rate);
    CeilDivLeast(BYTE_UNITS, rate, t);
    CeilDivLeast(2 * BYTE_UNITS, rate, t);
    CeilDivLeast(BYTE_UNITS, rate, 0);
    CeilDivLeast(BYTE_UNITS, rate, 1);
    if rate < 2 * BYTE_UNITS && t > 1 {
      CeilDivLeast(BYTE_UNITS, rate, t - 1);
    }
  }

  /** An item takes all the credit; a second later another runs into a byte of debt; the first is
      given back; and a byte has to wait. */
  function LateRun(rate: Rate): seq<Event>
    requires rate.BytesPerSecond? && rate.value < U64_MAX
  {
    [ On(Upload, Arrive(Filling(rate), 0)),
      On(Upload, Arrive(Exceeding(rate), SECOND)),
      On(Upload, Refund([1], SECOND)),
      On(Upload, Arrive(Divisible(1), SECOND)) ]
  }

  lemma RunFirst(l: Limiter, all: seq<Event>, rest: seq<Event>)
    requires all != [] && all[1..] == rest
    ensures Run(l, all) == Run(Step(l, all[0]), rest)
  {
  }

  lemma RunOfFour(l: Limiter, run: seq<Event>)
    requires |run| == 4
    ensures Run(l, run) == Step(Step(Step(Step(l, run[0]), run[1]), run[2]), run[3])
  {
    var l1 := Step(l, run[0]);
    var l2 := Step(l1, run[1]);
    RunFirst(l, run, run[1..]);
    RunFirst(l1, run[1..], run[2..]);
    RunFirst(l2, run[2..], run[3..]);
    RunFirst(Step(l2, run[2]), run[3..], []);
  }

  /** Credit beside debt makes the deadline late.  After this run from a new limiter the deadline
      is the time for two bytes away, the first grant the time for one; so it is late exactly
      below two bytes a nanosecond. */
  lemma CreditBesideDebtIsLate(rate: Rate, other: Rate, t: nat)
    requires rate.BytesPerSecond? && rate.value < U64_MAX && SECOND <= t
    ensures var late := Run(NewLimiter(rate, other, 0), LateRun(rate)).upload.bucket;
            var deadline := SECOND + CeilDiv(2 * BYTE_UNITS, rate.value);
            var first := SECOND + CeilDiv(BYTE_UNITS, rate.value);
            && NextDeadline(late, SECOND) == Some(deadline)
            && (Granted(late, t) != [] <==> t >= first)
            && (first < deadline <==> rate.value < 2 * BYTE_UNITS)
  {
    var l, run := NewLimiter(rate, other, 0), LateRun(rate);
    var l1 := Step(l, run[0]);
    var l2 := Step(l1, run[1]);
    RunOfFour(l, run);
    NewLimiterInv(rate, other, 0);
    Fills(l, rate);
    Exceeds(l1, rate);
    Returns(l2, rate);
    Waits(Step(l2, run[2]), rate);
    LateBy(rate, t);
    LateIff(rate.value);
  }
}
