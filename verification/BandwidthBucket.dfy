/** One direction's bucket as a value: refill, dispatch, rate change, refund and deadline,
    written over unbounded integers.  BandwidthState implements these with the machine's
    saturating operations.
 */
module BandwidthBucket {
  import opened Basics
  import opened Arithmetic
  import opened BandwidthTypes
  import opened BandwidthFunds
  import opened BandwidthDispatch

  function Elapsed(from: nat, to: nat): nat {
    if from <= to then to - from else 0
  }

  /** Units earned at `rate` between two instants. */
  function Earned(rate: Rate, from: nat, to: nat): nat {
    match rate
    case Unlimited => 0
    case BytesPerSecond(value) => Elapsed(from, to) * value
  }

  function NewBucket(rate: Rate, now: nat): Bucket {
    Bucket(rate, Funds(Capacity(rate), 0), now, [], map[])
  }

  function Refilled(b: Bucket, now: nat): Bucket {
    match b.rate
    case Unlimited => b.(lastRefill := now)
    case BytesPerSecond(_) =>
      b.(lastRefill := now, funds := Earn(b.funds, Earned(b.rate, b.lastRefill, now), Capacity(b.rate)))
  }

  /** The grants made by a dispatch at `now`. */
  function Granted(b: Bucket, now: nat): seq<Grant> {
    Settle(Refilled(b, now)).grants
  }

  function Dispatched(b: Bucket, now: nat): Bucket {
    var full := Refilled(b, now);
    var o := Settle(full);
    full.(funds := o.funds, queue := o.kept, completed := Record(full.completed, o.grants))
  }

  function Refunded(b: Bucket, r: Reservation): Bucket {
    b.(funds := GiveBack(b.funds, r, Capacity(b.rate)))
  }

  /** An indivisible item that no bucket of this capacity may ever serve. */
  predicate Oversized(request: Request, rate: Rate) {
    && rate.BytesPerSecond?
    && request.Indivisible?
    && request.bytes > CapacityBytes(rate) + request.maxDebt
  }

  function Retained(queue: seq<Waiter>, rate: Rate): seq<Waiter> {
    if queue == [] then []
    else if Oversized(queue[0].request, rate) then Retained(queue[1..], rate)
    else [queue[0]] + Retained(queue[1..], rate)
  }

  function Rejected(queue: seq<Waiter>, rate: Rate, completed: map<nat, Completion>): map<nat, Completion>
    decreases queue
  {
    if queue == [] then completed
    else if Oversized(queue[0].request, rate) then
      var request := queue[0].request;
      Rejected(queue[1..], rate, completed[queue[0].ticket :=
        Err(IndivisibleDebtLimit(request.bytes, CapacityBytes(rate), request.maxDebt))])
    else Rejected(queue[1..], rate, completed)
  }

  function Updated(b: Bucket, rate: Rate, now: nat): Bucket {
    var full := Refilled(b, now);
    Bucket(
      rate,
      full.funds.(credit := Min(full.funds.credit, Capacity(rate))),
      now,
      Retained(full.queue, rate),
      Rejected(full.queue, rate, full.completed))
  }

  function SatSub(a: nat, b: nat): nat {
    if b <= a then a - b else 0
  }

  /** The least credit any waiter still lacks. */
  function LeastNeeded(queue: seq<Waiter>, credit: nat, capacity: nat): nat
    requires queue != []
  {
    var head := SatSub(Threshold(queue[0].request, capacity), credit);
    if |queue| == 1 then head else Min(head, LeastNeeded(queue[1..], credit, capacity))
  }

  function NextDeadline(b: Bucket, now: nat): Option<nat> {
    if b.rate.Unlimited? || b.queue == [] then
      None
    else
      var needed :=
        if b.funds.debt > 0 then b.funds.debt + BYTE_UNITS
        else LeastNeeded(b.queue, b.funds.credit, Capacity(b.rate));
      Some(now + Min(CeilDiv(needed, b.rate.value), U64_MAX))
  }

  // ----- the bucket invariant

  ghost predicate Solvent(rate: Rate, funds: Funds) {
    && funds.credit <= Capacity(rate)
    && funds.debt <= U64_MAX * BYTE_UNITS
  }

  ghost predicate Lined(rate: Rate, queue: seq<Waiter>, completed: map<nat, Completion>) {
    && Ordered(queue)
    && (rate.BytesPerSecond? ==> AllAdmitted(queue, Capacity(rate)))
    && Tickets(queue) !! completed.Keys
  }

  ghost predicate Valid(b: Bucket) {
    Solvent(b.rate, b.funds) && Lined(b.rate, b.queue, b.completed)
  }

  /** Every operation ends with a dispatch, so an unlimited bucket keeps nobody waiting. */
  ghost predicate Settled(b: Bucket) {
    b.rate.Unlimited? ==> b.queue == []
  }

  lemma CapacityHoldsAByte(rate: Rate)
    requires rate.BytesPerSecond?
    ensures BYTE_UNITS <= Capacity(rate)
  {
  }

  lemma RefilledValid(b: Bucket, now: nat)
    requires Valid(b)
    ensures Valid(Refilled(b, now))
  {
  }

  lemma RefundedValid(b: Bucket, r: Reservation)
    requires Valid(b)
    ensures Valid(Refunded(b, r))
  {
  }

  lemma {:induction false} ReleasePartitions(queue: seq<Waiter>)
    requires Ordered(queue)
    ensures Partitions([], Release(queue), queue)
    ensures TotalUnits(Release(queue)) == 0
  {
    if queue == [] {
    } else {
      ReleasePartitions(queue[1..]);
      PartitionGrant(queue, [], Release(queue[1..]), Reservation(queue[0].request.bytes, 0, 0));
    }
  }

  lemma GrantsHead(grants: seq<Grant>)
    requires Distinct(grants) && grants != []
    ensures Distinct(grants[1..])
    ensures GrantTickets(grants) == {grants[0].ticket} + GrantTickets(grants[1..])
    ensures grants[0].ticket !in GrantTickets(grants[1..])
    ensures forall g :: g in grants <==> g == grants[0] || g in grants[1..]
  {
    assert grants == [grants[0]] + grants[1..];
    GrantTicketsAppend([grants[0]], grants[1..]);
    assert GrantTickets([grants[0]]) == {grants[0].ticket};
  }

  lemma {:induction false} RecordLookup(completed: map<nat, Completion>, grants: seq<Grant>)
    requires Distinct(grants)
    ensures var m := Record(completed, grants);
            && m.Keys == completed.Keys + GrantTickets(grants)
            && (forall g :: g in grants ==> m[g.ticket] == Ok(g.reservation))
            && (forall t :: t in completed && t !in GrantTickets(grants) ==> m[t] == completed[t])
    decreases grants
  {
    if grants == [] {
    } else {
      var g := grants[0];
      GrantsHead(grants);
      RecordLookup(completed[g.ticket := Ok(g.reservation)], grants[1..]);
    }
  }

  /** The facts about a dispatch that the rest of the model uses. */
  lemma SettleSound(b: Bucket)
    requires Valid(b)
    ensures var o := Settle(b);
            && Partitions(o.kept, o.grants, b.queue)
            && Descends(o.kept, b.queue)
            && (b.rate.BytesPerSecond? ==> AllAdmitted(o.kept, Capacity(b.rate)))
            && (b.rate.BytesPerSecond? ==> Fits(o.grants, b.queue, Capacity(b.rate)))
            && o.funds.credit <= Capacity(b.rate)
            && o.funds.debt <= U64_MAX * BYTE_UNITS
            && o.funds.credit - o.funds.debt + TotalUnits(o.grants) == b.funds.credit - b.funds.debt
            && (o.grants == [] ==> o.funds == b.funds)
            && NoOvertaking(o)
            && (b.rate.Unlimited? ==> o.kept == [])
  {
    if b.queue == [] {
      assert Partitions([], [], b.queue);
    } else if b.rate.Unlimited? {
      ReleasePartitions(b.queue);
    } else if b.funds.debt > 0 {
      assert GrantTickets([]) == {};
    } else {
      var capacity := Capacity(b.rate);
      CapacityHoldsAByte(b.rate);
      RoundsSound(b.queue, b.funds, capacity);
      RoundsAccounted(b.queue, b.funds, capacity);
      RoundsNoOvertaking(b.queue, b.funds, capacity);
      var o := Rounds(b.queue, b.funds, capacity);
      if o.grants != [] {
        var g := o.grants[|o.grants| - 1];
        assert g in o.grants;
      }
    }
  }

  lemma {:induction false} DistinctSize(grants: seq<Grant>)
    requires Distinct(grants)
    ensures |GrantTickets(grants)| == |grants|
  {
    if grants == [] {
      assert GrantTickets(grants) == {};
    } else {
      DistinctSize(grants[1..]);
      GrantsHead(grants);
    }
  }

  lemma DispatchedValid(b: Bucket, now: nat)
    requires Valid(b)
    ensures Valid(Dispatched(b, now))
    ensures Settled(Dispatched(b, now))
  {
    var full := Refilled(b, now);
    var o := Settle(full);
    RefilledValid(b, now);
    SettleSound(full);
    RecordLookup(b.completed, o.grants);
  }

  lemma MoveSets(kept: set<nat>, moved: set<nat>, from: set<nat>, to: set<nat>)
    requires kept + moved == from
    requires from !! to
    ensures kept + (to + moved) == from + to
    ensures |to + moved| == |to| + |moved|
  {
    assert moved !! to;
  }

  /** Recording the grants of a partition moves tickets without losing or inventing one. */
  lemma RecordPartition(completed: map<nat, Completion>, kept: seq<Waiter>, grants: seq<Grant>, queue: seq<Waiter>)
    requires Partitions(kept, grants, queue)
    requires Tickets(queue) !! completed.Keys
    ensures var m := Record(completed, grants);
            && Tickets(kept) + m.Keys == Tickets(queue) + completed.Keys
            && |kept| + |m| == |queue| + |completed|
            && completed.Keys <= m.Keys
            && (forall t :: t in completed ==> m[t] == completed[t])
  {
    var m := Record(completed, grants);
    RecordLookup(completed, grants);
    DistinctSize(grants);
    MoveSets(Tickets(kept), GrantTickets(grants), Tickets(queue), completed.Keys);
    assert |m| == |m.Keys| && |completed| == |completed.Keys|;
  }

  /** Dispatch moves tickets from the queue to the completed table, changing no completion
      that was already there. */
  lemma DispatchedTickets(b: Bucket, now: nat)
    requires Valid(b)
    ensures var d := Dispatched(b, now);
            && Tickets(d.queue) + d.completed.Keys == Tickets(b.queue) + b.completed.Keys
            && |d.queue| + |d.completed| == |b.queue| + |b.completed|
            && b.completed.Keys <= d.completed.Keys
            && (forall t :: t in b.completed ==> d.completed[t] == b.completed[t])
  {
    var full := Refilled(b, now);
    var o := Settle(full);
    RefilledValid(b, now);
    SettleSound(full);
    RecordPartition(b.completed, o.kept, o.grants, b.queue);
  }
}
