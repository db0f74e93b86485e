/** The instant a sleeping waiter is woken is the first instant at which anybody can be
    served. */
module BandwidthDeadline {
  import opened Basics
  import opened Arithmetic
  import opened BandwidthTypes
  import opened BandwidthFunds
  import opened BandwidthDispatch
  import opened BandwidthBucket

  /** The cheapest threshold in a queue. */
  ghost function LeastThreshold(queue: seq<Waiter>, capacity: nat): nat
    requires queue != []
  {
    var head := Threshold(queue[0].request, capacity);
    if |queue| == 1 then head else Min(head, LeastThreshold(queue[1..], capacity))
  }

  lemma {:induction false} LeastThresholdIsLeast(queue: seq<Waiter>, capacity: nat)
    requires queue != []
    ensures exists w :: w in queue && Threshold(w.request, capacity) == LeastThreshold(queue, capacity)
    ensures forall w :: w in queue ==> LeastThreshold(queue, capacity) <= Threshold(w.request, capacity)
  {
    assert queue[0] in queue;
    if |queue| > 1 {
      LeastThresholdIsLeast(queue[1..], capacity);
      assert queue == [queue[0]] + queue[1..];
      assert forall w :: w in queue[1..] ==> w in queue;
    }
  }

  lemma {:induction false} LeastNeededIs(queue: seq<Waiter>, credit: nat, capacity: nat)
    requires queue != []
    ensures LeastNeeded(queue, credit, capacity) == SatSub(LeastThreshold(queue, capacity), credit)
  {
    if |queue| > 1 {
      LeastNeededIs(queue[1..], credit, capacity);
    }
  }

  lemma LeastThresholdBounds(queue: seq<Waiter>, capacity: nat)
    requires queue != []
    requires BYTE_UNITS <= capacity
    requires AllAdmitted(queue, capacity)
    ensures BYTE_UNITS <= LeastThreshold(queue, capacity) <= capacity
    ensures (exists w :: w in queue && w.request.Divisible?) ==> LeastThreshold(queue, capacity) == BYTE_UNITS
  {
    LeastThresholdIsLeast(queue, capacity);
    var w :| w in queue && Threshold(w.request, capacity) == LeastThreshold(queue, capacity);
    ThresholdBounds(w, capacity);
  }

  /** Nanoseconds until somebody can be served: pay off the debt, then earn what the cheapest
      waiter still lacks. */
  ghost function ServiceWait(b: Bucket): nat
    requires b.rate.BytesPerSecond? && b.queue != []
  {
    CeilDiv(
      b.funds.debt + SatSub(LeastThreshold(b.queue, Capacity(b.rate)), b.funds.credit),
      b.rate.value)
  }

  lemma EarnReaches(f: Funds, units: nat, capacity: nat, target: nat)
    requires f.credit <= capacity && target <= capacity
    ensures var e := Earn(f, units, capacity);
            e.debt == 0 && target <= e.credit <==> f.debt + SatSub(target, f.credit) <= units
  {
  }

  lemma GrantedIff(b: Bucket)
    requires Valid(b) && b.rate.BytesPerSecond? && b.queue != []
    ensures Settle(b).grants != [] <==>
            b.funds.debt == 0 && LeastThreshold(b.queue, Capacity(b.rate)) <= b.funds.credit
  {
    if b.funds.debt == 0 {
      CapacityHoldsAByte(b.rate);
      RoundsGrantIff(b.queue, b.funds, Capacity(b.rate));
      LeastThresholdIsLeast(b.queue, Capacity(b.rate));
    }
  }

  /** A dispatch serves somebody exactly when ServiceWait has passed. */
  lemma EarliestService(b: Bucket, t: nat)
    requires Valid(b) && b.rate.BytesPerSecond? && b.queue != []
    requires b.lastRefill <= t
    ensures Granted(b, t) != [] <==> t >= b.lastRefill + ServiceWait(b)
  {
    var capacity := Capacity(b.rate);
    var least := LeastThreshold(b.queue, capacity);
    CapacityHoldsAByte(b.rate);
    LeastThresholdBounds(b.queue, capacity);
    RefilledValid(b, t);
    GrantedIff(Refilled(b, t));
    var needed := b.funds.debt + SatSub(least, b.funds.credit);
    EarnReaches(b.funds, Earned(b.rate, b.lastRefill, t), capacity, least);
    CeilDivLeast(needed, b.rate.value, t - b.lastRefill);
  }

  lemma WithinASecond(rate: Rate, needed: nat)
    requires rate.BytesPerSecond?
    requires needed <= Capacity(rate)
    ensures CeilDiv(needed, rate.value) <= BYTE_UNITS
  {
    CeilDivLeast(needed, rate.value, BYTE_UNITS);
  }

  /** Without debt the deadline is the first instant that serves anybody, and it is at most one
      second away. */
  lemma DeadlineExact(b: Bucket, t: nat)
    requires Valid(b) && b.rate.BytesPerSecond? && b.queue != []
    requires b.funds.debt == 0
    requires b.lastRefill <= t
    ensures NextDeadline(b, b.lastRefill) == Some(b.lastRefill + ServiceWait(b))
    ensures ServiceWait(b) <= BYTE_UNITS
    ensures Granted(b, t) != [] <==> t >= NextDeadline(b, b.lastRefill).value
  {
    var capacity := Capacity(b.rate);
    CapacityHoldsAByte(b.rate);
    LeastThresholdBounds(b.queue, capacity);
    LeastNeededIs(b.queue, b.funds.credit, capacity);
    WithinASecond(b.rate, SatSub(LeastThreshold(b.queue, capacity), b.funds.credit));
    EarliestService(b, t);
  }

  /** After a dispatch that leaves no debt, whoever waits has a full deficit and lacks credit. */
  lemma DispatchedMaximal(before: Bucket, now: nat)
    requires Valid(before) && before.rate.BytesPerSecond?
    requires Dispatched(before, now).funds.debt == 0
    ensures var b := Dispatched(before, now);
            forall w :: w in b.queue ==>
              w.deficit == w.request.bytes && b.funds.credit < Threshold(w.request, Capacity(b.rate))
  {
    var full := Refilled(before, now);
    RefilledValid(before, now);
    CapacityHoldsAByte(before.rate);
    if Settle(full).kept != [] {
      SettledWithoutDebt(full);
      RoundsMaximal(full.queue, full.funds, Capacity(full.rate));
    }
  }

  /** After a dispatch that leaves no debt, the deadline lies strictly ahead, and until then a
      dispatch does nothing but refill. */
  lemma DeadlineAfterDispatch(before: Bucket, now: nat, t: nat)
    requires Valid(before) && before.rate.BytesPerSecond?
    requires var b := Dispatched(before, now); b.funds.debt == 0 && b.queue != []
    requires now <= t
    ensures var b := Dispatched(before, now);
            && NextDeadline(b, now).Some?
            && now < NextDeadline(b, now).value <= now + BYTE_UNITS
            && (t < NextDeadline(b, now).value ==> Dispatched(b, t) == Refilled(b, t))
            && (t >= NextDeadline(b, now).value ==> Granted(b, t) != [])
  {
    DispatchedValid(before, now);
    DispatchedMaximal(before, now);
    IdleUntilDeadline(Dispatched(before, now), t);
  }

  lemma IdleUntilDeadline(b: Bucket, t: nat)
    requires Valid(b) && b.rate.BytesPerSecond? && b.queue != []
    requires b.funds.debt == 0 && b.lastRefill <= t
    requires forall w :: w in b.queue ==>
               w.deficit == w.request.bytes && b.funds.credit < Threshold(w.request, Capacity(b.rate))
    ensures var d := NextDeadline(b, b.lastRefill);
            && d.Some?
            && b.lastRefill < d.value <= b.lastRefill + BYTE_UNITS
            && (t < d.value ==> Dispatched(b, t) == Refilled(b, t))
            && (t >= d.value ==> Granted(b, t) != [])
  {
    DeadlineExact(b, t);
    LackingWaits(b);
    if t < NextDeadline(b, b.lastRefill).value {
      RefilledValid(b, t);
      StuckDispatch(Refilled(b, t));
    }
  }

  lemma LackingWaits(b: Bucket)
    requires b.rate.BytesPerSecond? && b.queue != []
    requires forall w :: w in b.queue ==> b.funds.credit < Threshold(w.request, Capacity(b.rate))
    ensures ServiceWait(b) > 0
  {
    var capacity := Capacity(b.rate);
    LeastThresholdIsLeast(b.queue, capacity);
    CeilDivLeast(b.funds.debt + SatSub(LeastThreshold(b.queue, capacity), b.funds.credit), b.rate.value, 0);
  }

  /** Where a dispatch leaves waiters and no debt, it has run its rounds. */
  lemma SettledWithoutDebt(b: Bucket)
    requires Valid(b) && b.rate.BytesPerSecond?
    requires Settle(b).funds.debt == 0 && Settle(b).kept != []
    ensures b.funds.debt == 0
    ensures Settle(b) == Rounds(b.queue, b.funds, Capacity(b.rate))
  {
  }

  /** With every deficit full, a dispatch that grants nothing changes nothing. */
  lemma StuckDispatch(b: Bucket)
    requires Valid(b) && b.rate.BytesPerSecond?
    requires forall w :: w in b.queue ==> w.deficit == w.request.bytes
    requires Settle(b).grants == []
    ensures Settle(b).kept == b.queue && Settle(b).funds == b.funds
  {
    if b.queue != [] && b.funds.debt == 0 {
      CapacityHoldsAByte(b.rate);
      RoundsNone(b.queue, b.funds, Capacity(b.rate));
      PassFull(b.queue, b.funds, Capacity(b.rate));
    }
  }

  lemma {:induction false} PassFull(queue: seq<Waiter>, f: Funds, capacity: nat)
    requires AllAdmitted(queue, capacity) && BYTE_UNITS <= capacity
    requires forall w :: w in queue ==> w.deficit == w.request.bytes && f.credit < Threshold(w.request, capacity)
    ensures Pass(queue, f, capacity) == Outcome(queue, [], f, false)
  {
    if queue == [] {
    } else {
      assert queue[0] in queue;
      assert TopUp(queue[0]) == queue[0];
      RefusedOnlyForCredit(queue[0], f, capacity);
      PassFull(queue[1..], f, capacity);
      assert queue == [queue[0]] + queue[1..];
    }
  }

  /** The deadline of a bucket in debt is not cut short at the largest machine word. */
  predicate Reachable(rate: Rate, debt: nat) {
    rate.BytesPerSecond? ==> debt + BYTE_UNITS <= U64_MAX * rate.value
  }

  /** In debt, the deadline is an instant by which the debt is paid and a byte is free, so any
      divisible waiter makes it a grant; with no credit beside the debt nothing is granted
      earlier. */
  lemma DeadlineInDebt(b: Bucket)
    requires Valid(b) && b.rate.BytesPerSecond? && b.queue != []
    requires b.funds.debt > 0
    requires Reachable(b.rate, b.funds.debt)
    ensures NextDeadline(b, b.lastRefill).Some?
    ensures var d := NextDeadline(b, b.lastRefill).value;
            && d > b.lastRefill
            && Refilled(b, d).funds.debt == 0
            && Refilled(b, d).funds.credit >= BYTE_UNITS
            && ((exists w :: w in b.queue && w.request.Divisible?) ==> Granted(b, d) != [])
            && (b.funds.credit == 0 ==> forall t | b.lastRefill <= t < d :: Granted(b, t) == [])
  {
    var capacity := Capacity(b.rate);
    var rate := b.rate.value;
    var needed := b.funds.debt + BYTE_UNITS;
    var wait := CeilDiv(needed, rate);
    CeilDivLeast(needed, rate, U64_MAX);
    CeilDivLeast(needed, rate, wait);
    CeilDivLeast(needed, rate, 0);
    var d := b.lastRefill + wait;
    assert NextDeadline(b, b.lastRefill) == Some(d);
    CapacityHoldsAByte(b.rate);
    EarnReaches(b.funds, Earned(b.rate, b.lastRefill, d), capacity, BYTE_UNITS);
    LeastThresholdBounds(b.queue, capacity);
    RefilledValid(b, d);
    GrantedIff(Refilled(b, d));
    if b.funds.credit == 0 {
      forall t | b.lastRefill <= t < d
        ensures Granted(b, t) == []
      {
        EarliestService(b, t);
        CeilDivMonotone(needed, b.funds.debt + LeastThreshold(b.queue, capacity), rate);
      }
    }
  }

  /** In debt, the deadline is one instant for every queue: it serves somebody exactly when the
      cheapest waiter needs no more than it allows for, and nobody could be served before it
      exactly when the cheapest waiter needs no less. */
  lemma DebtDeadlineExact(b: Bucket)
    requires Valid(b) && b.rate.BytesPerSecond? && b.queue != []
    requires b.funds.debt > 0
    requires Reachable(b.rate, b.funds.debt)
    ensures var wait := CeilDiv(b.funds.debt + BYTE_UNITS, b.rate.value);
            && NextDeadline(b, b.lastRefill) == Some(b.lastRefill + wait)
            && (Granted(b, b.lastRefill + wait) != [] <==> ServiceWait(b) <= wait)
            && ((forall t | b.lastRefill <= t < b.lastRefill + wait :: Granted(b, t) == []) <==> wait <= ServiceWait(b))
  {
    var wait := CeilDiv(b.funds.debt + BYTE_UNITS, b.rate.value);
    CeilDivLeast(b.funds.debt + BYTE_UNITS, b.rate.value, U64_MAX);
    EarliestService(b, b.lastRefill + wait);
    forall t | b.lastRefill <= t
      ensures Granted(b, t) != [] <==> t >= b.lastRefill + ServiceWait(b)
    {
      EarliestService(b, t);
    }
    if ServiceWait(b) < wait {
      assert Granted(b, b.lastRefill + ServiceWait(b)) != [];
    }
  }

  /** A debt that takes longer to repay than 64 bits of nanoseconds puts the deadline as far away
      as they reach. */
  lemma CappedDeadline(b: Bucket)
    requires Valid(b) && b.rate.BytesPerSecond? && b.queue != []
    requires b.funds.debt > 0 && !Reachable(b.rate, b.funds.debt)
    ensures NextDeadline(b, b.lastRefill) == Some(b.lastRefill + 0xFFFF_FFFF_FFFF_FFFF)
    ensures (forall t | b.lastRefill <= t < b.lastRefill + U64_MAX :: Granted(b, t) == []) <==>
            U64_MAX <= ServiceWait(b)
  {
    CeilDivLeast(b.funds.debt + BYTE_UNITS, b.rate.value, U64_MAX);
    forall t | b.lastRefill <= t
      ensures Granted(b, t) != [] <==> t >= b.lastRefill + ServiceWait(b)
    {
      EarliestService(b, t);
    }
    if ServiceWait(b) < U64_MAX {
      assert Granted(b, b.lastRefill + ServiceWait(b)) != [];
    }
  }

  lemma CeilDivMonotone(a: nat, b: nat, d: nat)
    requires a <= b && d >= 1
    ensures CeilDiv(a, d) <= CeilDiv(b, d)
  {
    CeilDivLeast(b, d, CeilDiv(b, d));
    CeilDivLeast(a, d, CeilDiv(b, d));
  }
}
