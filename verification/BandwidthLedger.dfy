/** What every transition keeps: ticket accounting, the ledger, and conservation of units. */
module BandwidthLedger {
  import opened Basics
  import opened BandwidthTypes
  import opened BandwidthFunds
  import opened BandwidthDispatch
  import opened BandwidthBucket
  import opened BandwidthUpdate
  import opened BandwidthLimiter

  /** The tickets a bucket still knows: waiting, or completed and unclaimed. */
  ghost function Held(b: Bucket): set<nat> {
    Tickets(b.queue) + b.completed.Keys
  }

  /** No more than MAX_PENDING acquisitions are pending, and all tickets were handed out. */
  ghost predicate Counted(queue: seq<Waiter>, completed: map<nat, Completion>, nextTicket: nat) {
    && |queue| + |completed| <= MAX_PENDING
    && (forall w :: w in queue ==> w.ticket < nextTicket)
    && (forall t :: t in completed ==> t < nextTicket)
  }

  /** Each charged grant appears once, under a ticket that was handed out. */
  ghost predicate Entered(live: seq<Grant>, nextTicket: nat) {
    && Distinct(live)
    && (forall g :: g in live ==> g.ticket < nextTicket)
  }

  /** Nobody who still waits is charged, and every unclaimed reservation is. */
  ghost predicate Booked(queue: seq<Waiter>, completed: map<nat, Completion>, live: seq<Grant>) {
    && GrantTickets(live) !! Tickets(queue)
    && (forall t :: t in completed && completed[t].Ok? ==> Grant(t, completed[t].reservation) in live)
  }

  /** A charged grant costs nothing (it was made while unlimited) or exactly its bytes. */
  ghost predicate Priced(live: seq<Grant>) {
    forall g :: g in live ==>
      Units(g.reservation) == 0 || Units(g.reservation) == g.reservation.bytes * BYTE_UNITS
  }

  /** Charged units plus credit never exceed what was funded plus what is owed. */
  ghost predicate Balanced(live: seq<Grant>, funds: Funds, funded: nat) {
    TotalUnits(live) + funds.credit <= funded + funds.debt
  }

  ghost predicate Sane(l: Lane, nextTicket: nat) {
    && Valid(l.bucket)
    && Counted(l.bucket.queue, l.bucket.completed, nextTicket)
    && Entered(l.live, nextTicket)
    && Booked(l.bucket.queue, l.bucket.completed, l.live)
    && Priced(l.live)
    && Balanced(l.live, l.bucket.funds, l.funded)
  }

  // ----- ledger operations

  lemma {:induction false} LookupMember(live: seq<Grant>, ticket: nat, r: Reservation)
    requires Distinct(live)
    ensures Grant(ticket, r) in live <==> Lookup(live, ticket) == Some(r)
  {
    if live == [] {
    } else {
      assert live == [live[0]] + live[1..];
      LookupMember(live[1..], ticket, r);
    }
  }

  lemma {:induction false} StrikeLedger(live: seq<Grant>, ticket: nat)
    requires Distinct(live)
    ensures Distinct(Strike(live, ticket))
    ensures forall g :: g in Strike(live, ticket) <==> g in live && g.ticket != ticket
    ensures TotalUnits(live) == TotalUnits(Strike(live, ticket))
              + (match Lookup(live, ticket) case None => 0 case Some(r) => Units(r))
  {
    if live == [] {
    } else {
      assert live == [live[0]] + live[1..];
      if live[0].ticket != ticket {
        StrikeLedger(live[1..], ticket);
      }
    }
  }

  lemma {:induction false} WithoutMembers(queue: seq<Waiter>, ticket: nat)
    requires Ordered(queue)
    ensures forall w :: w in Without(queue, ticket) <==> w in queue && w.ticket != ticket
    ensures |Without(queue, ticket)| <= |queue|
  {
    if queue == [] {
    } else {
      var head, rest := queue[0], queue[1..];
      assert queue == [head] + rest;
      if head.ticket == ticket {
        OrderedHead(queue);
        assert forall w :: w in rest ==> w.ticket in Tickets(rest);
      } else {
        WithoutMembers(rest, ticket);
      }
    }
  }

  lemma {:induction false} WithoutOrdered(queue: seq<Waiter>, ticket: nat)
    requires Ordered(queue)
    ensures Ordered(Without(queue, ticket))
    ensures Tickets(Without(queue, ticket)) == Tickets(queue) - {ticket}
  {
    WithoutMembers(queue, ticket);
    if queue != [] && queue[0].ticket != ticket {
      OrderedHead(queue);
      WithoutOrdered(queue[1..], ticket);
      OrderedCons(queue[0], Without(queue[1..], ticket));
    }
  }

  // ----- each primitive keeps the lane sane

  lemma RefillSane(l: Lane, nextTicket: nat, now: nat)
    requires Sane(l, nextTicket)
    ensures Sane(RefillLane(l, now), nextTicket)
  {
    RefilledValid(l.bucket, now);
    RefillBalanced(l, now);
  }

  lemma RefillBalanced(l: Lane, now: nat)
    requires Balanced(l.live, l.bucket.funds, l.funded)
    ensures var after := RefillLane(l, now);
            Balanced(after.live, after.bucket.funds, after.funded)
  {
    if l.bucket.rate.BytesPerSecond? {
      EarnBalance(l.bucket.funds, Earned(l.bucket.rate, l.bucket.lastRefill, now), Capacity(l.bucket.rate));
    }
  }

  lemma SettlePrices(b: Bucket)
    requires Valid(b)
    ensures Priced(Settle(b).grants)
  {
    var o := Settle(b);
    if b.rate.Unlimited? {
      ReleasePrices(b.queue);
    } else {
      SettleSound(b);
      forall g | g in o.grants
        ensures Units(g.reservation) == g.reservation.bytes * BYTE_UNITS
      {
        var w :| w in b.queue && w.ticket == g.ticket && WellFormed(g.reservation, w.request, Capacity(b.rate));
      }
    }
  }

  lemma {:induction false} ReleasePrices(queue: seq<Waiter>)
    ensures Priced(Release(queue))
  {
    if queue == [] {
    } else {
      ReleasePrices(queue[1..]);
    }
  }

  lemma EnterGrants(live: seq<Grant>, grants: seq<Grant>, queue: seq<Waiter>, nextTicket: nat)
    requires Entered(live, nextTicket) && Distinct(grants)
    requires GrantTickets(live) !! Tickets(queue)
    requires GrantTickets(grants) <= Tickets(queue)
    requires forall w :: w in queue ==> w.ticket < nextTicket
    ensures Entered(live + grants, nextTicket)
  {
    assert forall g :: g in live ==> g.ticket in GrantTickets(live);
    assert forall g :: g in grants ==> g.ticket in GrantTickets(grants);
  }

  lemma BookGrants(queue: seq<Waiter>, completed: map<nat, Completion>, live: seq<Grant>, kept: seq<Waiter>,
                   grants: seq<Grant>)
    requires Booked(queue, completed, live)
    requires Partitions(kept, grants, queue)
    ensures Booked(kept, Record(completed, grants), live + grants)
  {
    var m := Record(completed, grants);
    RecordLookup(completed, grants);
    GrantTicketsAppend(live, grants);
    forall t | t in m && m[t].Ok?
      ensures Grant(t, m[t].reservation) in live + grants
    {
      if t in GrantTickets(grants) {
        var g :| g in grants && g.ticket == t;
        assert m[t] == Ok(g.reservation);
      }
    }
  }

  lemma CountGrants(queue: seq<Waiter>, completed: map<nat, Completion>, kept: seq<Waiter>, grants: seq<Grant>,
                    nextTicket: nat)
    requires Counted(queue, completed, nextTicket)
    requires Tickets(queue) !! completed.Keys
    requires Partitions(kept, grants, queue)
    ensures Counted(kept, Record(completed, grants), nextTicket)
    ensures Tickets(kept) + Record(completed, grants).Keys == Tickets(queue) + completed.Keys
  {
    RecordPartition(completed, kept, grants, queue);
    var m := Record(completed, grants);
    forall t | t in Tickets(kept) + m.Keys
      ensures t < nextTicket
    {
      assert t in Tickets(queue) + completed.Keys;
    }
    assert forall w :: w in kept ==> w.ticket in Tickets(kept);
  }

  lemma DispatchSane(l: Lane, nextTicket: nat, now: nat)
    requires Sane(l, nextTicket)
    ensures Sane(DispatchLane(l, now), nextTicket)
    ensures Settled(DispatchLane(l, now).bucket)
    ensures Held(DispatchLane(l, now).bucket) == Held(l.bucket)
  {
    var full := RefillLane(l, now);
    var o := Settle(full.bucket);
    RefilledValid(l.bucket, now);
    RefillBalanced(l, now);
    SettleSound(full.bucket);
    SettlePrices(full.bucket);
    TotalUnitsAppend(l.live, o.grants);
    EnterGrants(l.live, o.grants, l.bucket.queue, nextTicket);
    BookGrants(l.bucket.queue, l.bucket.completed, l.live, o.kept, o.grants);
    CountGrants(l.bucket.queue, l.bucket.completed, o.kept, o.grants, nextTicket);
    DispatchedValid(l.bucket, now);
  }

  lemma RemoveKeySize(m: map<nat, Completion>, k: nat)
    ensures (m - {k}).Keys == m.Keys - {k}
    ensures |m - {k}| <= |m|
  {
    assert |m - {k}| == |(m - {k}).Keys| && |m| == |m.Keys|;
  }

  lemma ClaimSane(l: Lane, nextTicket: nat, ticket: nat)
    requires Sane(l, nextTicket)
    ensures Sane(Claimed(l, ticket), nextTicket)
  {
    RemoveKeySize(l.bucket.completed, ticket);
  }

  lemma TicketsSnoc(queue: seq<Waiter>, w: Waiter)
    ensures Tickets(queue + [w]) == Tickets(queue) + {w.ticket}
  {
    assert w in queue + [w];
    assert forall x :: x in queue ==> x in queue + [w];
  }

  lemma OrderedSnoc(queue: seq<Waiter>, w: Waiter)
    requires Ordered(queue)
    requires forall t :: t in Tickets(queue) ==> t < w.ticket
    ensures Ordered(queue + [w])
  {
    forall i | 0 <= i < |queue|
      ensures queue[i].ticket < w.ticket
    {
      assert queue[i].ticket in Tickets(queue);
    }
  }

  /** Validation at arrival is what keeps the debt limit from ever being hit at service. */
  lemma AdmittedOnArrival(rate: Rate, ticket: nat, request: Request)
    requires rate.BytesPerSecond?
    requires request.bytes > 0 && !Oversized(request, rate)
    ensures Admitted(Waiter(ticket, Bounded(request), 0), Capacity(rate))
  {
  }

  lemma EnqueuedLined(rate: Rate, queue: seq<Waiter>, completed: map<nat, Completion>, w: Waiter)
    requires Lined(rate, queue, completed)
    requires Admitted(w, Capacity(rate))
    requires Counted(queue, completed, w.ticket)
    ensures Lined(rate, queue + [w], completed)
    ensures Tickets(queue + [w]) == Tickets(queue) + {w.ticket}
  {
    TicketsSnoc(queue, w);
    assert forall t :: t in Tickets(queue) ==> t < w.ticket;
    OrderedSnoc(queue, w);
  }

  lemma EnqueueSane(l: Lane, nextTicket: nat, request: Request)
    requires Sane(l, nextTicket)
    requires Admissible(l.bucket, request)
    ensures Sane(l.(bucket := Enqueued(l.bucket, nextTicket, Bounded(request))), nextTicket + 1)
    ensures Held(Enqueued(l.bucket, nextTicket, Bounded(request))) == Held(l.bucket) + {nextTicket}
  {
    var b := l.bucket;
    var w := Waiter(nextTicket, Bounded(request), 0);
    AdmittedOnArrival(b.rate, nextTicket, request);
    EnqueuedLined(b.rate, b.queue, b.completed, w);
    assert Entered(l.live, nextTicket + 1);
    assert Booked(b.queue + [w], b.completed, l.live);
  }

  lemma ClearedLined(rate: Rate, queue: seq<Waiter>, completed: map<nat, Completion>, ticket: nat)
    requires Lined(rate, queue, completed)
    ensures Lined(rate, Without(queue, ticket), completed - {ticket})
  {
    WithoutMembers(queue, ticket);
    WithoutOrdered(queue, ticket);
  }

  lemma ClearedHeld(b: Bucket, ticket: nat)
    requires Ordered(b.queue)
    ensures Held(Cleared(b, ticket)) == Held(b) - {ticket}
  {
    WithoutOrdered(b.queue, ticket);
    RemoveKeySize(b.completed, ticket);
  }

  lemma ClearedBooked(b: Bucket, live: seq<Grant>, ticket: nat, nextTicket: nat)
    requires Valid(b)
    requires Counted(b.queue, b.completed, nextTicket)
    requires Booked(b.queue, b.completed, live)
    ensures var a := Cleared(b, ticket);
            Counted(a.queue, a.completed, nextTicket) && Booked(a.queue, a.completed, live)
  {
    WithoutMembers(b.queue, ticket);
    WithoutOrdered(b.queue, ticket);
    RemoveKeySize(b.completed, ticket);
  }

  /** Striking a ticket from the ledger is safe once no unclaimed completion refers to it. */
  lemma StrikeBooked(queue: seq<Waiter>, completed: map<nat, Completion>, live: seq<Grant>, ticket: nat,
                     nextTicket: nat)
    requires Entered(live, nextTicket) && Priced(live)
    requires Booked(queue, completed, live)
    requires ticket !in completed
    ensures Entered(Strike(live, ticket), nextTicket) && Priced(Strike(live, ticket))
    ensures Booked(queue, completed, Strike(live, ticket))
  {
    StrikeLedger(live, ticket);
  }

  lemma StrikeBalanced(live: seq<Grant>, funds: Funds, funded: nat, ticket: nat, r: Reservation, capacity: nat)
    requires Distinct(live)
    requires Balanced(live, funds, funded)
    requires Lookup(live, ticket) == Some(r)
    ensures Balanced(Strike(live, ticket), GiveBack(funds, r, capacity), funded)
  {
    StrikeLedger(live, ticket);
    GiveBackBalance(funds, r, capacity);
  }

  lemma WithdrawSane(l: Lane, nextTicket: nat, ticket: nat)
    requires Sane(l, nextTicket)
    ensures Sane(WithdrawLane(l, ticket), nextTicket)
    ensures Held(WithdrawLane(l, ticket).bucket) == Held(l.bucket) - {ticket}
  {
    var b := l.bucket;
    var a := Cleared(b, ticket);
    ClearedLined(b.rate, b.queue, b.completed, ticket);
    ClearedHeld(b, ticket);
    ClearedBooked(b, l.live, ticket, nextTicket);
    if ticket in b.completed && b.completed[ticket].Ok? {
      var r := b.completed[ticket].reservation;
      LookupMember(l.live, ticket, r);
      StrikeBooked(a.queue, a.completed, l.live, ticket, nextTicket);
      StrikeBalanced(l.live, b.funds, l.funded, ticket, r, Capacity(b.rate));
      RefundedValid(a, r);
    }
  }

  /** The ledger after one grant is given back. */
  function GiveBackOne(l: Lane, ticket: nat, r: Reservation): Lane {
    Lane(Refunded(l.bucket, r), Strike(l.live, ticket), l.funded)
  }

  lemma GiveBackOneSane(l: Lane, nextTicket: nat, ticket: nat, r: Reservation)
    requires Sane(l, nextTicket)
    requires Lookup(l.live, ticket) == Some(r) && ticket !in l.bucket.completed
    ensures Sane(GiveBackOne(l, ticket, r), nextTicket)
  {
    var b := l.bucket;
    RefundedValid(b, r);
    StrikeBooked(b.queue, b.completed, l.live, ticket, nextTicket);
    StrikeBalanced(l.live, b.funds, l.funded, ticket, r, Capacity(b.rate));
  }

  lemma {:induction false} StruckLookup(live: seq<Grant>, ticket: nat, other: nat)
    requires Distinct(live)
    ensures Lookup(Strike(live, ticket), other) == if other == ticket then None else Lookup(live, other)
  {
    if live == [] {
    } else {
      StruckLookup(live[1..], ticket, other);
      if live[0].ticket == ticket == other && Lookup(live[1..], other).Some? {
        LookupMember(live[1..], other, Lookup(live[1..], other).value);
      }
    }
  }

  /** A ticket without an entry is not among those charged. */
  lemma {:induction false} ChargedHasEntries(live: seq<Grant>, completed: map<nat, Completion>, ticket: nat,
                                             tickets: seq<nat>)
    requires Distinct(live) && Lookup(live, ticket).None? && Charged(live, completed, tickets)
    ensures ticket !in tickets
    decreases tickets
  {
    if tickets == [] {
    } else {
      StrikeLedger(live, tickets[0]);
      StruckLookup(live, tickets[0], ticket);
      ChargedHasEntries(Strike(live, tickets[0]), completed, ticket, tickets[1..]);
    }
  }

  lemma {:induction false} StruckMerged(live: seq<Grant>, ticket: nat, tickets: seq<nat>)
    requires Distinct(live) && ticket !in tickets
    ensures Merged(Strike(live, ticket), tickets) == Merged(live, tickets)
    decreases tickets
  {
    if tickets == [] {
    } else {
      StruckLookup(live, ticket, tickets[0]);
      StruckMerged(live, ticket, tickets[1..]);
    }
  }

  lemma {:induction false} GiveBackSane(l: Lane, nextTicket: nat, tickets: seq<nat>)
    requires Sane(l, nextTicket)
    requires Holds(l, tickets)
    ensures Sane(GiveBackLane(l, tickets), nextTicket)
    ensures Held(GiveBackLane(l, tickets).bucket) == Held(l.bucket)
    decreases tickets
  {
    if tickets == [] {
      assert GiveBackLane(l, tickets) == l;
    } else {
      var ticket, rest := tickets[0], tickets[1..];
      var r := Lookup(l.live, ticket).value;
      var first := GiveBackOne(l, ticket, r);
      GiveBackOneSane(l, nextTicket, ticket, r);
      GiveBackSane(first, nextTicket, rest);
      StrikeLedger(l.live, ticket);
      StruckLookup(l.live, ticket, ticket);
      ChargedHasEntries(first.live, l.bucket.completed, ticket, rest);
      StruckMerged(l.live, ticket, rest);
      GiveBackTwice(l.bucket.funds, r, Merged(first.live, rest), Capacity(l.bucket.rate));
      assert GiveBackLane(l, tickets) == GiveBackLane(first, rest);
    }
  }

  lemma UpdateBooked(b: Bucket, rate: Rate, live: seq<Grant>, nextTicket: nat)
    requires Valid(b)
    requires Counted(b.queue, b.completed, nextTicket)
    requires Booked(b.queue, b.completed, live)
    ensures var queue, completed := Retained(b.queue, rate), Rejected(b.queue, rate, b.completed);
            && Counted(queue, completed, nextTicket)
            && Booked(queue, completed, live)
            && Tickets(queue) + completed.Keys == Held(b)
  {
    var queue, completed := Retained(b.queue, rate), Rejected(b.queue, rate, b.completed);
    RejectedTickets(b.queue, rate, b.completed);
    RejectedLookup(b.queue, rate, b.completed);
    RetainedOrdered(b.queue, rate);
    RetainedMembers(b.queue, rate);
    assert forall t :: t in completed && completed[t].Ok? ==> t in b.completed;
    forall t | t in completed
      ensures t < nextTicket
    {
      assert t in Tickets(b.queue) + b.completed.Keys;
    }
  }

  lemma UpdateSane(l: Lane, nextTicket: nat, rate: Rate, now: nat)
    requires Sane(l, nextTicket)
    requires Settled(l.bucket)
    ensures Sane(RefillLane(l, now).(bucket := Updated(l.bucket, rate, now)), nextTicket)
    ensures Held(Updated(l.bucket, rate, now)) == Held(l.bucket)
  {
    RefillBalanced(l, now);
    UpdatedValid(l.bucket, rate, now);
    UpdateBooked(l.bucket, rate, l.live, nextTicket);
    var full, updated := Refilled(l.bucket, now), Updated(l.bucket, rate, now);
    assert full.queue == l.bucket.queue && full.completed == l.bucket.completed;
    assert updated.queue == Retained(l.bucket.queue, rate);
    assert updated.completed == Rejected(l.bucket.queue, rate, l.bucket.completed);
  }
}
