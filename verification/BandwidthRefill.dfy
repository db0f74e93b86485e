/** Refilling is drift-free, and giving a reservation back undoes it at any later time. */
module BandwidthRefill {
  import opened Basics
  import opened Arithmetic
  import opened BandwidthTypes
  import opened BandwidthFunds
  import opened BandwidthBucket

  function RefilledAt(b: Bucket, instants: seq<nat>): Bucket
    decreases instants
  {
    if instants == [] then b else RefilledAt(Refilled(b, instants[0]), instants[1..])
  }

  ghost predicate Nondecreasing(from: nat, instants: seq<nat>) {
    && (instants != [] ==> from <= instants[0])
    && (forall i, j :: 0 <= i < j < |instants| ==> instants[i] <= instants[j])
  }

  function Last(from: nat, instants: seq<nat>): nat {
    if instants == [] then from else instants[|instants| - 1]
  }

  /** Time charged by a series of refills: only forward movement counts. */
  function ChargedTime(from: nat, instants: seq<nat>): nat
    decreases instants
  {
    if instants == [] then 0
    else Elapsed(from, instants[0]) + ChargedTime(instants[0], instants[1..])
  }

  lemma RefillTwice(b: Bucket, s: nat, t: nat)
    requires Valid(b)
    requires b.lastRefill <= s <= t
    ensures Refilled(Refilled(b, s), t) == Refilled(b, t)
  {
    if b.rate.BytesPerSecond? {
      var a, c := Earned(b.rate, b.lastRefill, s), Earned(b.rate, s, t);
      MulDistributes(s - b.lastRefill, t - s, b.rate.value);
      EarnCompose(b.funds, a, c, Capacity(b.rate));
    }
  }

  /** Refilling in any number of steps is refilling once: no rounding is ever lost. */
  lemma {:induction false} RefillDriftFree(b: Bucket, instants: seq<nat>)
    requires Valid(b)
    requires instants != []
    requires Nondecreasing(b.lastRefill, instants)
    ensures RefilledAt(b, instants) == Refilled(b, Last(b.lastRefill, instants))
    decreases instants
  {
    if |instants| > 1 {
      var rest := instants[1..];
      RefilledValid(b, instants[0]);
      RefillDriftFree(Refilled(b, instants[0]), rest);
      assert Last(b.lastRefill, instants) == Last(instants[0], rest);
      RefillTwice(b, instants[0], Last(b.lastRefill, instants));
    }
  }

  /** The time charged by a series of refills is the time that passed exactly when no instant
      precedes its predecessor; every step back is charged a second time. */
  lemma {:induction false} ChargedTimeIsWallClock(from: nat, instants: seq<nat>)
    ensures ChargedTime(from, instants) >= Last(from, instants) - from
    ensures ChargedTime(from, instants) == Last(from, instants) - from <==> Nondecreasing(from, instants)
    decreases instants
  {
    if instants == [] {
    } else {
      var rest := instants[1..];
      ChargedTimeIsWallClock(instants[0], rest);
      assert Last(from, instants) == Last(instants[0], rest);
      assert Nondecreasing(from, instants) <==> from <= instants[0] && Nondecreasing(instants[0], rest) by {
        NondecreasingTail(from, instants);
      }
    }
  }

  lemma EarnTwice(f: Funds, a: nat, b: nat, rate: nat, capacity: nat)
    requires f.credit <= capacity
    ensures Earn(Earn(f, a * rate, capacity), b * rate, capacity) == Earn(f, (a + b) * rate, capacity)
  {
    MulDistributes(a, b, rate);
    EarnCompose(f, a * rate, b * rate, capacity);
  }

  /** Whatever the instants, a series of refills credits the charged time at the rate. */
  lemma {:induction false} ChargedTimeIsCredited(b: Bucket, instants: seq<nat>)
    requires Valid(b) && b.rate.BytesPerSecond?
    ensures RefilledAt(b, instants).funds
            == Earn(b.funds, ChargedTime(b.lastRefill, instants) * b.rate.value, Capacity(b.rate))
    decreases instants
  {
    if instants == [] {
      assert RefilledAt(b, instants) == b;
    } else {
      var first, rest := Refilled(b, instants[0]), instants[1..];
      var elapsed, later := Elapsed(b.lastRefill, instants[0]), ChargedTime(instants[0], rest);
      RefilledValid(b, instants[0]);
      ChargedTimeIsCredited(first, rest);
      EarnTwice(b.funds, elapsed, later, b.rate.value, Capacity(b.rate));
    }
  }

  /** A series of refills credits the time passed at the rate if and only if no instant precedes
      its predecessor; otherwise it credits more. */
  lemma CreditedByTheClock(b: Bucket, instants: seq<nat>)
    requires Valid(b) && b.rate.BytesPerSecond?
    ensures var units := ChargedTime(b.lastRefill, instants) * b.rate.value;
            && RefilledAt(b, instants).funds == Earn(b.funds, units, Capacity(b.rate))
            && units >= (Last(b.lastRefill, instants) - b.lastRefill) * b.rate.value
            && (units == (Last(b.lastRefill, instants) - b.lastRefill) * b.rate.value <==>
               Nondecreasing(b.lastRefill, instants))
  {
    var charged, passed := ChargedTime(b.lastRefill, instants), Last(b.lastRefill, instants) - b.lastRefill;
    ChargedTimeIsCredited(b, instants);
    ChargedTimeIsWallClock(b.lastRefill, instants);
    MulDistributes(charged - passed, passed, b.rate.value);
    if charged > passed {
      MulMonotone(1, charged - passed, b.rate.value);
    }
  }

  lemma NondecreasingTail(from: nat, instants: seq<nat>)
    requires instants != []
    ensures Nondecreasing(from, instants) <==> from <= instants[0] && Nondecreasing(instants[0], instants[1..])
  {
    var rest := instants[1..];
    if from <= instants[0] && Nondecreasing(instants[0], rest) {
      forall i, j | 0 <= i < j < |instants|
        ensures instants[i] <= instants[j]
      {
        assert instants[j] == rest[j - 1];
        assert rest[0] <= rest[j - 1];
        if i > 0 {
          assert instants[i] == rest[i - 1];
        }
      }
    }
    if Nondecreasing(from, instants) {
      assert forall i :: 0 <= i < |rest| ==> rest[i] == instants[i + 1];
    }
  }

  /** The excess is real: a drained bucket refilled at an earlier instant `s` and then again
      at `t` has earned the time from `s` to `t` although no time has passed. */
  lemma BackwardInstantEarnsTwice(b: Bucket, s: nat, t: nat)
    requires b.rate.BytesPerSecond? && b.funds == Funds(0, 0)
    requires s < b.lastRefill == t <= s + BYTE_UNITS
    ensures Refilled(b, t).funds == Funds(0, 0)
    ensures Refilled(Refilled(b, s), t).funds == Funds((t - s) * b.rate.value, 0)
    ensures (t - s) * b.rate.value > 0
  {
    MulMonotone(t - s, BYTE_UNITS, b.rate.value);
    MulMonotone(1, t - s, b.rate.value);
    assert Elapsed(b.lastRefill, s) == 0 && Elapsed(b.lastRefill, t) == 0;
    assert Refilled(b, s).funds == Funds(0, 0);
  }

  lemma UndoFunds(request: Request, deficit: nat, f: Funds, capacity: nat, before: nat, after: nat)
    requires f.credit <= capacity && f.debt == 0
    requires TryReserve(request, deficit, f, capacity).Reserved?
    ensures var a := TryReserve(request, deficit, f, capacity);
            Earn(GiveBack(Earn(a.funds, before, capacity), a.reservation, capacity), after, capacity)
            == Earn(f, before + after, capacity)
  {
  }

  lemma ReservedValid(b: Bucket, request: Request, deficit: nat)
    requires Valid(b) && b.rate.BytesPerSecond? && b.funds.debt == 0
    requires 1 <= request.bytes
    requires TryReserve(request, deficit, b.funds, Capacity(b.rate)).Reserved?
    ensures Valid(b.(funds := TryReserve(request, deficit, b.funds, Capacity(b.rate)).funds))
  {
    CapacityHoldsAByte(b.rate);
    ReservedShape(request, deficit, b.funds, Capacity(b.rate));
  }

  /** Giving a reservation back at `s` leaves, at every later `t`, the bucket that never made
      it. */
  lemma RefundUndoesOnce(b: Bucket, request: Request, deficit: nat, s: nat, t: nat)
    requires Valid(b) && b.rate.BytesPerSecond? && b.funds.debt == 0
    requires TryReserve(request, deficit, b.funds, Capacity(b.rate)).Reserved?
    requires b.lastRefill <= s <= t
    ensures var a := TryReserve(request, deficit, b.funds, Capacity(b.rate));
            Refilled(Refunded(Refilled(b.(funds := a.funds), s), a.reservation), t) == Refilled(b, t)
  {
    var x, y := Earned(b.rate, b.lastRefill, s), Earned(b.rate, s, t);
    MulDistributes(s - b.lastRefill, t - s, b.rate.value);
    UndoFunds(request, deficit, b.funds, Capacity(b.rate), x, y);
  }

  /** A reservation given back after any refills, and followed by any further refills, leaves
      exactly the bucket that never made it.  This covers reservations that ran into debt,
      whether or not that debt has meanwhile been repaid. */
  lemma RefundUndoes(b: Bucket, request: Request, deficit: nat, before: seq<nat>, after: seq<nat>)
    requires Valid(b) && b.rate.BytesPerSecond? && b.funds.debt == 0
    requires 1 <= request.bytes
    requires TryReserve(request, deficit, b.funds, Capacity(b.rate)).Reserved?
    requires Nondecreasing(b.lastRefill, before + after)
    ensures var a := TryReserve(request, deficit, b.funds, Capacity(b.rate));
            RefilledAt(Refunded(RefilledAt(b.(funds := a.funds), before), a.reservation), after)
            == RefilledAt(b, before + after)
  {
    var a := TryReserve(request, deficit, b.funds, Capacity(b.rate));
    var reserved := b.(funds := a.funds);
    ReservedValid(b, request, deficit);
    NondecreasingSplit(b.lastRefill, before, after);
    var s := Last(b.lastRefill, before);
    var t := Last(s, after);
    RefilledAtOnce(reserved, before);
    RefilledValid(reserved, s);
    var returned := Refunded(Refilled(reserved, s), a.reservation);
    RefundedValid(Refilled(reserved, s), a.reservation);
    RefilledAtOnce(returned, after);
    RefilledAtOnce(b, before + after);
    RefundUndoesOnce(b, request, deficit, s, t);
  }

  lemma NondecreasingSplit(from: nat, before: seq<nat>, after: seq<nat>)
    requires Nondecreasing(from, before + after)
    ensures Nondecreasing(from, before)
    ensures Nondecreasing(Last(from, before), after)
    ensures from <= Last(from, before) <= Last(Last(from, before), after)
    ensures Last(from, before + after) == Last(Last(from, before), after)
  {
    var all := before + after;
    assert before == all[..|before|] && after == all[|before|..];
    assert forall i :: 0 <= i < |before| ==> before[i] == all[i];
    assert forall i :: 0 <= i < |after| ==> after[i] == all[|before| + i];
  }

  lemma RefilledAtOnce(b: Bucket, instants: seq<nat>)
    requires Valid(b)
    requires Nondecreasing(b.lastRefill, instants)
    ensures RefilledAt(b, instants) == Refilled(b, Last(b.lastRefill, instants))
  {
    if instants == [] {
      assert Elapsed(b.lastRefill, b.lastRefill) == 0;
    } else {
      RefillDriftFree(b, instants);
    }
  }
}
