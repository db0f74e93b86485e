/** Credit arithmetic of one bucket: earning, reserving and giving back. */
module BandwidthFunds {
  import opened Basics
  import opened BandwidthTypes

  /** Earned units repay debt first; only the rest becomes credit, clamped at capacity. */
  function Earn(f: Funds, units: nat, capacity: nat): Funds {
    var repaid := Min(units, f.debt);
    Funds(Min(f.credit + (units - repaid), capacity), f.debt - repaid)
  }

  function GiveBack(f: Funds, r: Reservation, capacity: nat): Funds {
    Funds(
      Min(f.credit + r.creditUnits, capacity),
      if f.debt >= r.debtUnits then f.debt - r.debtUnits else 0)
  }

  datatype Attempt = Refused | Reserved(reservation: Reservation, funds: Funds)

  /** One attempt to serve a request whose accumulated deficit is `deficit`. */
  function TryReserve(request: Request, deficit: nat, f: Funds, capacity: nat): Attempt {
    match request
    case Divisible(bytes) =>
      var grant := Min(Min(Min(bytes, QUANTUM), deficit), f.credit / BYTE_UNITS);
      if grant == 0 then
        Refused
      else
        Reserved(
          Reservation(grant, grant * BYTE_UNITS, 0),
          Funds(f.credit - grant * BYTE_UNITS, f.debt))
    case Indivisible(bytes, maxDebt) =>
      var requested := bytes * BYTE_UNITS;
      if deficit < bytes then
        Refused
      else if requested <= capacity then
        if f.credit < requested then
          Refused
        else
          Reserved(Reservation(bytes, requested, 0), Funds(f.credit - requested, f.debt))
      else if f.credit < capacity then
        Refused
      else if requested - capacity > maxDebt * BYTE_UNITS then
        Refused
      else
        Reserved(Reservation(bytes, capacity, requested - capacity), Funds(0, requested - capacity))
  }

  // ----- earning

  lemma EarnCompose(f: Funds, a: nat, b: nat, capacity: nat)
    requires f.credit <= capacity
    ensures Earn(Earn(f, a, capacity), b, capacity) == Earn(f, a + b, capacity)
  {
  }

  /** Balance = credit - debt rises by no more than what was earned. */
  lemma EarnBalance(f: Funds, units: nat, capacity: nat)
    ensures var e := Earn(f, units, capacity);
            e.credit - e.debt <= f.credit - f.debt + units
  {
  }

  lemma GiveBackBalance(f: Funds, r: Reservation, capacity: nat)
    ensures var e := GiveBack(f, r, capacity);
            e.credit - e.debt <= f.credit - f.debt + Units(r)
  {
  }

  function Plus(a: Reservation, b: Reservation): Reservation {
    Reservation(a.bytes + b.bytes, a.creditUnits + b.creditUnits, a.debtUnits + b.debtUnits)
  }

  lemma PlusAssociates(a: Reservation, b: Reservation, c: Reservation)
    ensures Plus(Plus(a, b), c) == Plus(a, Plus(b, c))
  {
  }

  /** Giving back two reservations one after the other is giving them back merged. */
  lemma GiveBackTwice(f: Funds, r: Reservation, q: Reservation, capacity: nat)
    ensures GiveBack(GiveBack(f, r, capacity), q, capacity) == GiveBack(f, Plus(r, q), capacity)
  {
  }

  // ----- reserving

  /** What a reservation may look like. */
  predicate WellFormed(r: Reservation, request: Request, capacity: nat) {
    && 1 <= r.bytes <= request.bytes
    && Units(r) == r.bytes * BYTE_UNITS
    && r.debtUnits <= Allowance(request)
    && r.creditUnits <= capacity
    && (r.debtUnits > 0 ==> r.creditUnits == capacity)
    && (request.Divisible? ==> r.bytes <= QUANTUM)
    && (request.Indivisible? ==> r.bytes == request.bytes)
  }

  /** While a dispatch is serving waiters, a bucket in debt has no credit left. */
  predicate Serving(f: Funds, capacity: nat) {
    && f.credit <= capacity
    && (f.debt > 0 ==> f.credit == 0)
  }

  /** A reservation takes exactly its own units out of the balance, and creates debt only
      from a full bucket that owes nothing. */
  lemma ReservedShape(request: Request, deficit: nat, f: Funds, capacity: nat)
    requires 1 <= request.bytes
    requires BYTE_UNITS <= capacity
    requires Serving(f, capacity)
    ensures match TryReserve(request, deficit, f, capacity)
            case Refused => true
            case Reserved(r, g) =>
              && WellFormed(r, request, capacity)
              && Serving(g, capacity)
              && f.debt == 0
              && g.credit < f.credit
              && g.debt == r.debtUnits
              && g.credit - g.debt + Units(r) == f.credit - f.debt
              && Threshold(request, capacity) <= f.credit
  {
  }

  /** The refusal for exceeding the debt allowance never decides anything: an admitted
      request with a full deficit is refused only for want of credit. */
  lemma RefusedOnlyForCredit(w: Waiter, f: Funds, capacity: nat)
    requires Admitted(w, capacity)
    requires BYTE_UNITS <= capacity
    requires w.deficit == w.request.bytes
    ensures TryReserve(w.request, w.deficit, f, capacity).Refused? <==> f.credit < Threshold(w.request, capacity)
  {
  }

  lemma ThresholdBounds(w: Waiter, capacity: nat)
    requires Admitted(w, capacity)
    requires BYTE_UNITS <= capacity
    ensures BYTE_UNITS <= Threshold(w.request, capacity) <= capacity
  {
  }
}
