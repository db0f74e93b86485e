/** What dropping an acquisition undoes: everything. */
module BandwidthCancel {
  import opened Basics
  import opened Arithmetic
  import opened BandwidthTypes
  import opened BandwidthFunds
  import opened BandwidthDispatch
  import opened BandwidthBucket
  import opened BandwidthLimiter
  import opened BandwidthLedger
  import opened BandwidthRefill

  // ----- a ticket that waits or was refused

  lemma {:induction false} WithoutAt(queue: seq<Waiter>, i: nat)
    requires Ordered(queue) && i < |queue|
    ensures Without(queue, queue[i].ticket) == queue[..i] + queue[i + 1..]
  {
    if i == 0 {
      assert queue[..0] + queue[1..] == queue[1..];
    } else {
      var rest := queue[1..];
      WithoutAt(rest, i - 1);
      assert [queue[0]] + (rest[..i - 1] + rest[i..]) == queue[..i] + queue[i + 1..];
    }
  }

  lemma {:induction false} WithoutNobody(queue: seq<Waiter>, ticket: nat)
    requires ticket !in Tickets(queue)
    ensures Without(queue, ticket) == queue
  {
    if queue == [] {
    } else {
      assert queue[0].ticket in Tickets(queue);
      assert forall w :: w in queue[1..] ==> w in queue;
      WithoutNobody(queue[1..], ticket);
    }
  }

  /** Cancelling a ticket that still waits takes exactly that waiter out: the funds, the others and
      their deficits, and what is unclaimed stay. */
  lemma CancelWaiting(b: Bucket, i: nat, now: nat)
    requires Valid(b) && i < |b.queue|
    ensures CancelBucket(b, b.queue[i].ticket, now)
            == Dispatched(b.(queue := b.queue[..i] + b.queue[i + 1..]), now)
  {
    var x := b.queue[i].ticket;
    assert x in Tickets(b.queue);
    WithoutAt(b.queue, i);
    assert b.completed - {x} == b.completed;
  }

  /** Cancelling a ticket that was refused, or one that is not held, gives nothing back. */
  lemma CancelUngranted(b: Bucket, ticket: nat, now: nat)
    requires Valid(b) && ticket !in Tickets(b.queue) && (ticket in b.completed ==> b.completed[ticket].Err?)
    ensures CancelBucket(b, ticket, now) == Dispatched(b.(completed := b.completed - {ticket}), now)
  {
    WithoutNobody(b.queue, ticket);
  }

  // ----- a ticket that was granted and not claimed

  /** A reservation taken from `f`, which left `g`. */
  ghost predicate Taken(f: Funds, g: Funds, r: Reservation, capacity: nat) {
    && f.credit <= capacity && f.debt == 0
    && g.credit + r.creditUnits == f.credit && g.debt == r.debtUnits
    && (r.debtUnits > 0 ==> r.creditUnits == capacity)
  }

  /** Giving it back among earnings leaves what there would be without it. */
  lemma TakenBack(f: Funds, g: Funds, r: Reservation, capacity: nat, before: nat, after: nat)
    requires Taken(f, g, r, capacity)
    ensures Earn(GiveBack(Earn(g, before, capacity), r, capacity), after, capacity) == Earn(f, before + after, capacity)
  {
  }

  /** A dispatch that grants one ticket takes its reservation out of the funds. */
  lemma GrantTakes(b: Bucket, x: nat, r: Reservation, now: nat)
    requires Valid(b) && b.rate.BytesPerSecond? && Granted(b, now) == [Grant(x, r)]
    ensures Taken(Refilled(b, now).funds, Dispatched(b, now).funds, r, Capacity(b.rate))
  {
    var full, capacity := Refilled(b, now), Capacity(b.rate);
    var o := Settle(full);
    RefilledValid(b, now);
    CapacityHoldsAByte(b.rate);
    RoundsSound(full.queue, full.funds, capacity);
    RoundsAccounted(full.queue, full.funds, capacity);
    assert Grant(x, r) in o.grants;
    assert TotalUnits(o.grants) == Units(r) by {
      assert o.grants[1..] == [];
    }
  }

  // ----- the others

  lemma SameHeads(a: seq<Waiter>, b: seq<Waiter>)
    requires Ordered(a) && Ordered(b) && Tickets(a) == Tickets(b) && a != [] && b != []
    ensures a[0].ticket == b[0].ticket && Tickets(a[1..]) == Tickets(b[1..])
  {
    assert a[0].ticket in Tickets(a) && b[0].ticket in Tickets(b);
    OrderedHead(a);
    OrderedHead(b);
    assert a == [a[0]] + a[1..] && b == [b[0]] + b[1..];
    TicketsCons(a[0], a[1..]);
    TicketsCons(b[0], b[1..]);
  }

  ghost predicate Agree(a: seq<Waiter>, b: seq<Waiter>) {
    forall v, w :: v in a && w in b && v.ticket == w.ticket ==> v == w
  }

  lemma {:induction false} SameWaiters(a: seq<Waiter>, b: seq<Waiter>)
    requires Ordered(a) && Ordered(b) && Tickets(a) == Tickets(b) && Agree(a, b)
    ensures a == b
  {
    assert a != [] ==> a[0].ticket in Tickets(a);
    assert b != [] ==> b[0].ticket in Tickets(b);
    if a == [] || b == [] {
    } else {
      SameHeads(a, b);
      assert a[0] in a && b[0] in b;
      assert Agree(a[1..], b[1..]);
      OrderedHead(a);
      OrderedHead(b);
      SameWaiters(a[1..], b[1..]);
      assert a == [a[0]] + a[1..] && b == [b[0]] + b[1..];
    }
  }

  /** Whoever a dispatch without debt keeps is a waiter of `queue`, and may have all its bytes. */
  ghost predicate FullOnes(kept: seq<Waiter>, queue: seq<Waiter>) {
    && Ordered(kept)
    && forall k :: k in kept ==> exists w :: w in queue && k == w.(deficit := w.request.bytes)
  }

  lemma DescendsFull(kept: seq<Waiter>, queue: seq<Waiter>)
    requires Ordered(kept) && Descends(kept, queue) && forall k :: k in kept ==> k.deficit == k.request.bytes
    ensures FullOnes(kept, queue)
  {
    forall k | k in kept
      ensures exists w :: w in queue && k == w.(deficit := w.request.bytes)
    {
      var w :| w in queue && w.ticket == k.ticket && w.request == k.request && w.deficit <= k.deficit;
      assert k == w.(deficit := w.request.bytes);
    }
  }

  lemma KeptFull(b: Bucket, now: nat)
    requires Valid(b) && b.rate.BytesPerSecond? && Refilled(b, now).funds.debt == 0
    ensures var d := Dispatched(b, now);
            FullOnes(d.queue, b.queue) && Tickets(d.queue) == Tickets(b.queue) - GrantTickets(Granted(b, now))
  {
    var full, capacity := Refilled(b, now), Capacity(b.rate);
    var o := Settle(full);
    RefilledValid(b, now);
    CapacityHoldsAByte(b.rate);
    SettleSound(full);
    if b.queue != [] {
      RoundsMaximal(full.queue, full.funds, capacity);
    }
    DescendsFull(o.kept, b.queue);
  }

  lemma FullOnesAgree(a: seq<Waiter>, b: seq<Waiter>, queue: seq<Waiter>, fewer: seq<Waiter>)
    requires Ordered(queue) && FullOnes(a, queue) && FullOnes(b, fewer) && Tickets(a) == Tickets(b)
    requires forall w :: w in fewer ==> w in queue
    ensures a == b
  {
    forall v, w | v in a && w in b && v.ticket == w.ticket
      ensures v == w
    {
      var v' :| v' in queue && v == v'.(deficit := v'.request.bytes);
      var w' :| w' in fewer && w == w'.(deficit := w'.request.bytes);
      SameTicket(queue, v', w');
    }
    SameWaiters(a, b);
  }

  /** The bucket that never queued `x`. */
  function Spared(b: Bucket, x: nat): Bucket {
    b.(queue := Without(b.queue, x))
  }

  /** A dispatch at `now` that grants `x` alone, and nobody if `x` is not there. */
  ghost predicate GrantsOnly(b: Bucket, x: nat, r: Reservation, now: nat) {
    && Valid(b) && b.rate.BytesPerSecond? && b.lastRefill <= now
    && Granted(b, now) == [Grant(x, r)] && Granted(Spared(b, x), now) == []
  }

  lemma SparedValid(b: Bucket, x: nat)
    requires Valid(b)
    ensures Valid(Spared(b, x)) && Tickets(Spared(b, x).queue) == Tickets(b.queue) - {x}
    ensures forall w :: w in Spared(b, x).queue ==> w in b.queue
  {
    WithoutMembers(b.queue, x);
    WithoutOrdered(b.queue, x);
  }

  /** The others are as if `x` had not been there. */
  lemma OthersSame(b: Bucket, x: nat, r: Reservation, now: nat)
    requires GrantsOnly(b, x, r, now)
    ensures Dispatched(b, now).queue == Dispatched(Spared(b, x), now).queue && x !in Tickets(Dispatched(b, now).queue)
  {
    var d, e := Dispatched(b, now), Dispatched(Spared(b, x), now);
    GrantTakes(b, x, r, now);
    SparedValid(b, x);
    KeptFull(b, now);
    KeptFull(Spared(b, x), now);
    assert GrantTickets([Grant(x, r)]) == {x} && GrantTickets([]) == {};
    FullOnesAgree(d.queue, e.queue, b.queue, Spared(b, x).queue);
  }

  lemma RecordOne(completed: map<nat, Completion>, grants: seq<Grant>, x: nat, r: Reservation)
    requires grants == [Grant(x, r)]
    ensures Record(completed, grants) == completed[x := Ok(r)]
  {
    assert grants[1..] == [];
  }

  lemma RecordNone(completed: map<nat, Completion>, grants: seq<Grant>)
    requires grants == []
    ensures Record(completed, grants) == completed
  {
  }

  lemma GrantedWaits(b: Bucket, x: nat, r: Reservation)
    requires Valid(b) && Settle(b).grants == [Grant(x, r)]
    ensures x in Tickets(b.queue) && x !in b.completed
  {
    SettleSound(b);
    assert Grant(x, r).ticket in GrantTickets(Settle(b).grants);
  }

  lemma OnlyCompletion(b: Bucket, x: nat, r: Reservation, now: nat)
    requires GrantsOnly(b, x, r, now)
    ensures Dispatched(b, now).completed == b.completed[x := Ok(r)] && x !in b.completed
    ensures Dispatched(Spared(b, x), now).completed == b.completed
  {
    RefilledValid(b, now);
    GrantedWaits(Refilled(b, now), x, r);
    RecordOne(b.completed, Granted(b, now), x, r);
    RecordNone(b.completed, Granted(Spared(b, x), now));
  }

  /** A bucket that owes no dispatch anything but time. */
  lemma RefilledLater(b: Bucket, f: Funds, r: Reservation, instants: seq<nat>, t: nat)
    requires Valid(b) && b.rate.BytesPerSecond? && Valid(b.(funds := f))
    requires Taken(f, b.funds, r, Capacity(b.rate)) && Nondecreasing(b.lastRefill, instants + [t])
    ensures Refilled(Refunded(RefilledAt(b, instants), r), t) == Refilled(RefilledAt(b.(funds := f), instants), t)
  {
    var a := b.(funds := f);
    NondecreasingSplit(b.lastRefill, instants, [t]);
    var s := Last(b.lastRefill, instants);
    RefilledAtOnce(b, instants);
    RefilledAtOnce(a, instants);
    var x, y := Earned(b.rate, b.lastRefill, s), Earned(b.rate, s, t);
    TakenBack(f, b.funds, r, Capacity(b.rate), x, y);
    EarnCompose(f, x, y, Capacity(b.rate));
  }

  lemma Unclaimed(d: Bucket, e: Bucket, x: nat, r: Reservation, instants: seq<nat>, t: nat)
    requires Valid(d) && Valid(e) && d.rate.BytesPerSecond? && Taken(e.funds, d.funds, r, Capacity(d.rate))
    requires x !in Tickets(e.queue) && x !in e.completed
    requires d == e.(funds := d.funds, completed := e.completed[x := Ok(r)])
    requires Nondecreasing(d.lastRefill, instants + [t])
    ensures CancelBucket(RefilledAt(d, instants), x, t) == Dispatched(RefilledAt(e, instants), t)
  {
    var c := e.(funds := d.funds);
    var s := Last(d.lastRefill, instants);
    NondecreasingSplit(d.lastRefill, instants, [t]);
    RefilledAtOnce(d, instants);
    RefilledAtOnce(c, instants);
    WithoutNobody(e.queue, x);
    assert d.completed - {x} == e.completed;
    assert Withdrawn(RefilledAt(d, instants), x) == Refunded(RefilledAt(c, instants), r);
    RefilledLater(c, e.funds, r, instants, t);
  }

  /** A grant that nobody claims is cancelled without a trace: at any later instant, after any
      refills, the bucket is the one that never queued that ticket, in funds, waiters and
      completions, and the dispatch that follows grants the same.  This holds for grants that ran
      into debt too, whether or not that has meanwhile been repaid. */
  lemma CancelUndoes(b: Bucket, x: nat, r: Reservation, now: nat, instants: seq<nat>, t: nat)
    requires GrantsOnly(b, x, r, now) && Nondecreasing(now, instants + [t])
    ensures CancelBucket(RefilledAt(Dispatched(b, now), instants), x, t)
            == Dispatched(RefilledAt(Dispatched(Spared(b, x), now), instants), t)
  {
    var d, e := Dispatched(b, now), Dispatched(Spared(b, x), now);
    GrantTakes(b, x, r, now);
    SparedValid(b, x);
    OthersSame(b, x, r, now);
    OnlyCompletion(b, x, r, now);
    DispatchedValid(b, now);
    DispatchedValid(Spared(b, x), now);
    assert e.funds == Refilled(b, now).funds by {
      RefilledValid(Spared(b, x), now);
      SettleSound(Refilled(Spared(b, x), now));
    }
    Unclaimed(d, e, x, r, instants, t);
  }

  // ----- a grant that was claimed and is given back

  /** A refund sees the credit of its own instant: an earlier refill makes no difference. */
  lemma ReturnTimeless(b: Bucket, r: Reservation, s: nat, now: nat)
    requires Valid(b) && b.lastRefill <= s <= now
    ensures RefundBucket(Refilled(b, s), r, now) == RefundBucket(b, r, now)
  {
    RefillTwice(b, s, now);
  }

  /** A claimed grant that is given back leaves no trace either. */
  lemma ReturnUndoes(b: Bucket, x: nat, r: Reservation, now: nat, instants: seq<nat>, t: nat)
    requires GrantsOnly(b, x, r, now) && Nondecreasing(now, instants + [t])
    ensures var claimed := Dispatched(b, now).(completed := b.completed);
            RefundBucket(RefilledAt(claimed, instants), r, t)
            == Dispatched(RefilledAt(Dispatched(Spared(b, x), now), instants), t)
  {
    var d, e := Dispatched(b, now), Dispatched(Spared(b, x), now);
    GrantTakes(b, x, r, now);
    SparedValid(b, x);
    OthersSame(b, x, r, now);
    OnlyCompletion(b, x, r, now);
    DispatchedValid(b, now);
    DispatchedValid(Spared(b, x), now);
    assert e.funds == Refilled(b, now).funds by {
      RefilledValid(Spared(b, x), now);
      SettleSound(Refilled(Spared(b, x), now));
    }
    Claimed(e.(funds := d.funds), e.funds, r, instants, t);
  }

  /** Given back at `t`, the reservation is as if it had not been taken. */
  lemma RefundedAt(c: Bucket, f: Funds, r: Reservation, t: nat)
    requires c.rate.BytesPerSecond? && Taken(f, c.funds, r, Capacity(c.rate))
    ensures Refunded(Refilled(c, t), r) == Refilled(c.(funds := f), t)
  {
    var units, capacity := Earned(c.rate, c.lastRefill, t), Capacity(c.rate);
    TakenBack(f, c.funds, r, capacity, units, 0);
    EarnNothing(GiveBack(Earn(c.funds, units, capacity), r, capacity), capacity);
  }

  lemma EarnNothing(f: Funds, capacity: nat)
    requires f.credit <= capacity
    ensures Earn(f, 0, capacity) == f
  {
  }

  lemma Claimed(c: Bucket, f: Funds, r: Reservation, instants: seq<nat>, t: nat)
    requires Valid(c) && c.rate.BytesPerSecond? && Valid(c.(funds := f))
    requires Taken(f, c.funds, r, Capacity(c.rate)) && Nondecreasing(c.lastRefill, instants + [t])
    ensures RefundBucket(RefilledAt(c, instants), r, t) == Dispatched(RefilledAt(c.(funds := f), instants), t)
  {
    var a, s := c.(funds := f), Last(c.lastRefill, instants);
    NondecreasingSplit(c.lastRefill, instants, [t]);
    RefilledAtOnce(c, instants);
    RefilledAtOnce(a, instants);
    RefillTwice(c, s, t);
    RefillTwice(a, s, t);
    RefundedAt(c, f, r, t);
    RefilledValid(a, t);
    RefillTwice(a, t, t);
    SameDispatch(Refilled(a, t), Refilled(a, s), t);
  }

  lemma SameDispatch(a: Bucket, b: Bucket, t: nat)
    requires Refilled(a, t) == Refilled(b, t)
    ensures Dispatched(a, t) == Dispatched(b, t)
  {
  }
}
