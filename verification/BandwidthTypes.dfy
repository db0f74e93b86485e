/** The entities of the route bandwidth scheduler as values.

    Credit and debt are counted in byte units: one byte is BYTE_UNITS units, so a rate of
    r bytes per second earns exactly r units per nanosecond.  Instants are nanoseconds.
 */
module BandwidthTypes {
  import opened Basics

  const QUANTUM: nat := 16 * 1024
  const MAX_PENDING: nat := 1024
  const BYTE_UNITS: nat := 1_000_000_000
  const U128_MAX: nat := 0xFFFF_FFFF_FFFF_FFFF_FFFF_FFFF_FFFF_FFFF

  type PositiveWord = n: nat | 1 <= n <= U64_MAX witness 1

  datatype Rate = Unlimited | BytesPerSecond(value: PositiveWord)

  datatype Request =
    | Divisible(bytes: Word)
    | Indivisible(bytes: Word, maxDebt: Word)

  datatype Waiter = Waiter(ticket: nat, request: Request, deficit: nat)

  datatype Reservation = Reservation(bytes: nat, creditUnits: nat, debtUnits: nat)

  datatype Error =
    | QueueFull(maxPending: nat)
    | IndivisibleDebtLimit(bytes: nat, capacityBytes: nat, maxDebt: nat)

  datatype Completion = Ok(reservation: Reservation) | Err(error: Error)

  /** A reservation together with the ticket it was issued to. */
  datatype Grant = Grant(ticket: nat, reservation: Reservation)

  /** What a bucket owns (`credit`) and owes (`debt`). */
  datatype Funds = Funds(credit: nat, debt: nat)

  datatype Bucket = Bucket(
    rate: Rate,
    funds: Funds,
    lastRefill: nat,
    queue: seq<Waiter>,
    completed: map<nat, Completion>)

  function Min(a: int, b: int): int {
    if a <= b then a else b
  }

  function CapacityBytes(rate: Rate): (n: nat)
    ensures n <= U64_MAX
    ensures rate.BytesPerSecond? ==> n >= 1
  {
    match rate
    case Unlimited => 0
    case BytesPerSecond(value) => value
  }

  function Capacity(rate: Rate): nat {
    CapacityBytes(rate) * BYTE_UNITS
  }

  function Units(r: Reservation): nat {
    r.creditUnits + r.debtUnits
  }

  function TotalUnits(grants: seq<Grant>): nat {
    if grants == [] then 0 else Units(grants[0].reservation) + TotalUnits(grants[1..])
  }

  ghost function Tickets(queue: seq<Waiter>): set<nat> {
    set w | w in queue :: w.ticket
  }

  ghost function GrantTickets(grants: seq<Grant>): set<nat> {
    set g | g in grants :: g.ticket
  }

  /** The allowance an indivisible request may owe, in units. */
  function Allowance(request: Request): nat {
    match request
    case Divisible(_) => 0
    case Indivisible(_, maxDebt) => maxDebt * BYTE_UNITS
  }

  /** Credit that must be present before `request` can be served: one byte for a divisible
      request, the whole item, or a full bucket for an item larger than the bucket. */
  function Threshold(request: Request, capacity: nat): nat {
    match request
    case Divisible(_) => BYTE_UNITS
    case Indivisible(bytes, _) => Min(bytes * BYTE_UNITS, capacity)
  }

  /** What the scheduler maintains about each queued waiter of a limited bucket. */
  predicate Admitted(w: Waiter, capacity: nat) {
    && 1 <= w.request.bytes
    && w.deficit <= w.request.bytes
    && match w.request
       case Divisible(bytes) => bytes <= QUANTUM
       case Indivisible(bytes, maxDebt) => bytes * BYTE_UNITS <= capacity + maxDebt * BYTE_UNITS
  }

  ghost predicate AllAdmitted(queue: seq<Waiter>, capacity: nat) {
    forall w :: w in queue ==> Admitted(w, capacity)
  }

  /** Tickets are handed out in increasing order and queues never reorder. */
  ghost predicate Ordered(queue: seq<Waiter>) {
    forall i, j :: 0 <= i < j < |queue| ==> queue[i].ticket < queue[j].ticket
  }

  lemma {:induction false} TotalUnitsAppend(a: seq<Grant>, b: seq<Grant>)
    ensures TotalUnits(a + b) == TotalUnits(a) + TotalUnits(b)
  {
    if a == [] {
      assert a + b == b;
    } else {
      assert (a + b)[1..] == a[1..] + b;
      TotalUnitsAppend(a[1..], b);
    }
  }
}
