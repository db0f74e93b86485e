/** The locked sections of the limiter as transitions, a ledger of the grants that are still
    charged, and runs: arbitrary interleavings of those transitions by any number of tasks.
 */
module BandwidthLimiter {
  import opened Basics
  import opened BandwidthTypes
  import opened BandwidthFunds
  import opened BandwidthDispatch
  import opened BandwidthBucket
  import opened BandwidthUpdate

  // ----- the locked sections, on one bucket

  datatype Reply = Done(completion: Completion) | Wait(deadline: Option<nat>)

  datatype Polled = Polled(bucket: Bucket, nextTicket: nat, queued: Option<nat>, reply: Reply)

  /** Limited grants never exceed one quantum, so divisible requests are cut down to it. */
  function Bounded(request: Request): Request {
    match request
    case Divisible(bytes) => Divisible(if bytes < QUANTUM then bytes else QUANTUM)
    case Indivisible(_, _) => request
  }

  function Enqueued(b: Bucket, ticket: nat, request: Request): Bucket {
    b.(queue := b.queue + [Waiter(ticket, request, 0)])
  }

  /** A task that already holds `ticket` dispatches and collects its completion, if any. */
  function PollBucket(b: Bucket, nextTicket: nat, ticket: nat, now: nat): Polled {
    var d := Dispatched(b, now);
    if ticket in d.completed then
      Polled(d.(completed := d.completed - {ticket}), nextTicket, None, Done(d.completed[ticket]))
    else
      Polled(d, nextTicket, Some(ticket), Wait(NextDeadline(d, now)))
  }

  predicate Admissible(b: Bucket, request: Request) {
    && request.bytes > 0
    && b.rate.BytesPerSecond?
    && !Oversized(request, b.rate)
    && |b.queue| + |b.completed| < MAX_PENDING
  }

  /** A task's first attempt: answered at once, refused, or enqueued and polled. */
  function ArriveBucket(b: Bucket, nextTicket: nat, request: Request, now: nat): Polled {
    if request.bytes == 0 then
      Polled(b, nextTicket, None, Done(Ok(Reservation(0, 0, 0))))
    else if b.rate.Unlimited? then
      Polled(b, nextTicket, None, Done(Ok(Reservation(request.bytes, 0, 0))))
    else if Oversized(request, b.rate) then
      Polled(b, nextTicket, None,
        Done(Err(IndivisibleDebtLimit(request.bytes, CapacityBytes(b.rate), request.maxDebt))))
    else if |b.queue| + |b.completed| >= MAX_PENDING then
      Polled(b, nextTicket, None, Done(Err(QueueFull(MAX_PENDING))))
    else
      PollBucket(Enqueued(b, nextTicket, Bounded(request)), nextTicket + 1, nextTicket, now)
  }

  function Without(queue: seq<Waiter>, ticket: nat): seq<Waiter> {
    if queue == [] then []
    else if queue[0].ticket == ticket then queue[1..]
    else [queue[0]] + Without(queue[1..], ticket)
  }

  /** The part of a cancellation before its dispatch: the waiter leaves the queue, and an
      unclaimed reservation is given back. */
  function Withdrawn(b: Bucket, ticket: nat): Bucket {
    var cleared := Cleared(b, ticket);
    if ticket in b.completed && b.completed[ticket].Ok? then
      Refunded(cleared, b.completed[ticket].reservation)
    else
      cleared
  }

  function Cleared(b: Bucket, ticket: nat): Bucket {
    b.(queue := Without(b.queue, ticket), completed := b.completed - {ticket})
  }

  function CancelBucket(b: Bucket, ticket: nat, now: nat): Bucket {
    Dispatched(Withdrawn(b, ticket), now)
  }

  function RefundBucket(b: Bucket, r: Reservation, now: nat): Bucket {
    Dispatched(Refunded(Refilled(b, now), r), now)
  }

  function RerateBucket(b: Bucket, rate: Rate, now: nat): Bucket {
    Dispatched(Updated(b, rate, now), now)
  }

  // ----- one direction with its ledger

  /** `live` holds the grants that are still charged: granted, and neither cancelled nor
      given back.  `funded` is the opening credit plus everything ever earned. */
  datatype Lane = Lane(bucket: Bucket, live: seq<Grant>, funded: nat)

  datatype Op =
    | Arrive(request: Request, now: nat)
    | Poll(ticket: nat, now: nat)
    | Cancel(ticket: nat, now: nat)
    | Refund(tickets: seq<nat>, now: nat)
    | Rerate(rate: Rate, now: nat)

  function OpenLane(rate: Rate, now: nat): Lane {
    Lane(NewBucket(rate, now), [], Capacity(rate))
  }

  function Strike(live: seq<Grant>, ticket: nat): seq<Grant> {
    if live == [] then []
    else if live[0].ticket == ticket then live[1..]
    else [live[0]] + Strike(live[1..], ticket)
  }

  function Lookup(live: seq<Grant>, ticket: nat): Option<Reservation> {
    if live == [] then None
    else if live[0].ticket == ticket then Some(live[0].reservation)
    else Lookup(live[1..], ticket)
  }

  /** Dispatches `b` and enters its grants in the ledger. */
  function DispatchLane(l: Lane, now: nat): Lane {
    Lane(
      Dispatched(l.bucket, now),
      l.live + Granted(l.bucket, now),
      l.funded + Earned(l.bucket.rate, l.bucket.lastRefill, now))
  }

  function RefillLane(l: Lane, now: nat): Lane {
    l.(bucket := Refilled(l.bucket, now), funded := l.funded + Earned(l.bucket.rate, l.bucket.lastRefill, now))
  }

  function Claimed(l: Lane, ticket: nat): Lane {
    l.(bucket := l.bucket.(completed := l.bucket.completed - {ticket}))
  }

  function WithdrawLane(l: Lane, ticket: nat): Lane {
    Lane(
      Withdrawn(l.bucket, ticket),
      if ticket in l.bucket.completed && l.bucket.completed[ticket].Ok? then Strike(l.live, ticket) else l.live,
      l.funded)
  }

  /** The tickets name charged and claimed grants, each once. */
  predicate Charged(live: seq<Grant>, completed: map<nat, Completion>, tickets: seq<nat>)
    decreases tickets
  {
    tickets == []
    || (&& Lookup(live, tickets[0]).Some? && tickets[0] !in completed
        && Charged(Strike(live, tickets[0]), completed, tickets[1..]))
  }

  /** Whoever holds claimed grants may give them back, merged into one; nobody else holds them.
      A grant that cost nothing has no ticket here. */
  predicate Holds(l: Lane, tickets: seq<nat>) {
    Charged(l.live, l.bucket.completed, tickets)
  }

  function Entry(live: seq<Grant>, ticket: nat): Reservation {
    var r := Lookup(live, ticket);
    if r.Some? then r.value else Reservation(0, 0, 0)
  }

  /** The reservations of several grants in one. */
  function Merged(live: seq<Grant>, tickets: seq<nat>): Reservation
    decreases tickets
  {
    if tickets == [] then Reservation(0, 0, 0) else Plus(Entry(live, tickets[0]), Merged(live, tickets[1..]))
  }

  lemma TailOfSum(a: seq<nat>, b: seq<nat>)
    requires a != []
    ensures (a + b)[0] == a[0] && (a + b)[1..] == a[1..] + b
  {
  }

  /** Merging tokens adds up what they stand for. */
  lemma {:induction false} MergeAdds(live: seq<Grant>, a: seq<nat>, b: seq<nat>)
    ensures Merged(live, a + b) == Plus(Merged(live, a), Merged(live, b))
    decreases a
  {
    if a == [] {
      assert a + b == b;
      assert Plus(Reservation(0, 0, 0), Merged(live, b)) == Merged(live, b);
    } else {
      MergeAdds(live, a[1..], b);
      TailOfSum(a, b);
      PlusAssociates(Entry(live, a[0]), Merged(live, a[1..]), Merged(live, b));
    }
  }

  function StrikeAll(live: seq<Grant>, tickets: seq<nat>): seq<Grant>
    decreases tickets
  {
    if tickets == [] then live else StrikeAll(Strike(live, tickets[0]), tickets[1..])
  }

  function GiveBackLane(l: Lane, tickets: seq<nat>): Lane {
    Lane(Refunded(l.bucket, Merged(l.live, tickets)), StrikeAll(l.live, tickets), l.funded)
  }

  predicate Enters(l: Lane, op: Op) {
    op.Arrive? && Admissible(l.bucket, op.request)
  }

  function Arrived(l: Lane, nextTicket: nat, request: Request, now: nat): Lane {
    Claimed(DispatchLane(l.(bucket := Enqueued(l.bucket, nextTicket, Bounded(request))), now), nextTicket)
  }

  function Looked(l: Lane, ticket: nat, now: nat): Lane {
    Claimed(DispatchLane(l, now), ticket)
  }

  function Cancelled(l: Lane, ticket: nat, now: nat): Lane {
    DispatchLane(WithdrawLane(l, ticket), now)
  }

  function Returned(l: Lane, tickets: seq<nat>, now: nat): Lane {
    DispatchLane(GiveBackLane(RefillLane(l, now), tickets), now)
  }

  function Rerated(l: Lane, rate: Rate, now: nat): Lane {
    DispatchLane(RefillLane(l, now).(bucket := Updated(l.bucket, rate, now)), now)
  }

  function StepLane(l: Lane, nextTicket: nat, op: Op): Lane {
    match op
    case Arrive(request, now) => if Enters(l, op) then Arrived(l, nextTicket, request, now) else l
    case Poll(ticket, now) => Looked(l, ticket, now)
    case Cancel(ticket, now) => Cancelled(l, ticket, now)
    case Refund(tickets, now) => if Holds(l, tickets) then Returned(l, tickets, now) else l
    case Rerate(rate, now) => Rerated(l, rate, now)
  }

  function NextTicket(l: Lane, nextTicket: nat, op: Op): nat {
    if Enters(l, op) then nextTicket + 1 else nextTicket
  }

  /** The ledger rides along: the bucket moves as the locked sections move it. */
  lemma StepLaneFollows(l: Lane, nextTicket: nat, op: Op)
    ensures var after := StepLane(l, nextTicket, op).bucket;
            match op
            case Arrive(request, now) =>
              var p := ArriveBucket(l.bucket, nextTicket, request, now);
              after == p.bucket && NextTicket(l, nextTicket, op) == p.nextTicket
            case Poll(ticket, now) => after == PollBucket(l.bucket, nextTicket, ticket, now).bucket
            case Cancel(ticket, now) => after == CancelBucket(l.bucket, ticket, now)
            case Refund(tickets, now) =>
              Holds(l, tickets) ==> after == RefundBucket(l.bucket, Merged(l.live, tickets), now)
            case Rerate(rate, now) => after == RerateBucket(l.bucket, rate, now)
  {
    match op
    case Arrive(request, now) =>
      if Enters(l, op) {
        MissingKey(Dispatched(Enqueued(l.bucket, nextTicket, Bounded(request)), now).completed, nextTicket);
      }
    case Poll(ticket, now) =>
      MissingKey(Dispatched(l.bucket, now).completed, ticket);
    case _ =>
  }

  lemma MissingKey(m: map<nat, Completion>, k: nat)
    ensures k !in m ==> m - {k} == m
  {
  }
}
