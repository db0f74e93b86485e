/** Live rate changes: what they may do to credit, debt and queued tickets. */
module BandwidthUpdate {
  import opened Basics
  import opened BandwidthTypes
  import opened BandwidthFunds
  import opened BandwidthDispatch
  import opened BandwidthBucket

  lemma {:induction false} RetainedMembers(queue: seq<Waiter>, rate: Rate)
    ensures forall w :: w in Retained(queue, rate) <==> w in queue && !Oversized(w.request, rate)
  {
    if queue == [] {
    } else {
      RetainedMembers(queue[1..], rate);
      assert queue == [queue[0]] + queue[1..];
    }
  }

  lemma {:induction false} RetainedOrdered(queue: seq<Waiter>, rate: Rate)
    requires Ordered(queue)
    ensures Ordered(Retained(queue, rate))
    ensures Tickets(Retained(queue, rate)) <= Tickets(queue)
  {
    if queue == [] {
    } else {
      OrderedHead(queue);
      RetainedOrdered(queue[1..], rate);
      assert queue == [queue[0]] + queue[1..];
      TicketsCons(queue[0], queue[1..]);
      if !Oversized(queue[0].request, rate) {
        OrderedCons(queue[0], Retained(queue[1..], rate));
        TicketsCons(queue[0], Retained(queue[1..], rate));
      }
    }
  }

  lemma TicketsHead(queue: seq<Waiter>)
    requires queue != []
    ensures Tickets(queue) == {queue[0].ticket} + Tickets(queue[1..])
  {
    assert queue == [queue[0]] + queue[1..];
    TicketsCons(queue[0], queue[1..]);
  }

  lemma {:induction false} TicketsSize(queue: seq<Waiter>)
    requires Ordered(queue)
    ensures |Tickets(queue)| == |queue|
  {
    if queue == [] {
      assert Tickets(queue) == {};
    } else {
      OrderedHead(queue);
      TicketsSize(queue[1..]);
      TicketsHead(queue);
    }
  }

  /** Rejecting moves exactly the tickets that are not retained. */
  lemma {:induction false} RejectedKeys(queue: seq<Waiter>, rate: Rate, completed: map<nat, Completion>)
    requires Ordered(queue)
    ensures Rejected(queue, rate, completed).Keys
            == completed.Keys + (Tickets(queue) - Tickets(Retained(queue, rate)))
    decreases queue
  {
    if queue == [] {
    } else {
      var head, rest := queue[0], queue[1..];
      OrderedHead(queue);
      assert queue == [head] + rest;
      TicketsCons(head, rest);
      var all, kept, t := Tickets(rest), Tickets(Retained(rest, rate)), head.ticket;
      assert t !in all;
      RetainedOrdered(rest, rate);
      if Oversized(head.request, rate) {
        var more := completed[t :=
          Err(IndivisibleDebtLimit(head.request.bytes, CapacityBytes(rate), head.request.maxDebt))];
        RejectedKeys(rest, rate, more);
        assert (completed.Keys + {t}) + (all - kept) == completed.Keys + (({t} + all) - kept);
      } else {
        RejectedKeys(rest, rate, completed);
        TicketsCons(head, Retained(rest, rate));
        assert all - kept == ({t} + all) - ({t} + kept);
      }
    }
  }

  lemma RejectedTickets(queue: seq<Waiter>, rate: Rate, completed: map<nat, Completion>)
    requires Ordered(queue)
    requires Tickets(queue) !! completed.Keys
    ensures var m := Rejected(queue, rate, completed);
            && Tickets(Retained(queue, rate)) !! m.Keys
            && Tickets(Retained(queue, rate)) + m.Keys == Tickets(queue) + completed.Keys
            && |Retained(queue, rate)| + |m| == |queue| + |completed|
  {
    var kept, all, m := Tickets(Retained(queue, rate)), Tickets(queue), Rejected(queue, rate, completed);
    RejectedKeys(queue, rate, completed);
    RetainedOrdered(queue, rate);
    TicketsSize(queue);
    TicketsSize(Retained(queue, rate));
    assert |m| == |m.Keys| && |completed| == |completed.Keys|;
    DisjointSizes(kept, m.Keys, all, completed.Keys);
  }

  lemma DisjointSizes(a: set<nat>, b: set<nat>, c: set<nat>, d: set<nat>)
    requires a <= c && b == d + (c - a) && c !! d
    ensures a !! b && a + b == c + d
    ensures |a| + |b| == |c| + |d|
  {
    assert a + b == c + d;
    assert |a + b| == |a| + |b|;
    assert |c + d| == |c| + |d|;
  }

  /** An earlier completion survives, and a rejected waiter learns its own request and the
      capacity it exceeds. */
  lemma {:induction false} RejectedLookup(queue: seq<Waiter>, rate: Rate, completed: map<nat, Completion>)
    requires Ordered(queue)
    requires Tickets(queue) !! completed.Keys
    ensures var m := Rejected(queue, rate, completed);
            && (forall t :: t in completed ==> t in m && m[t] == completed[t])
            && (forall t :: t in m && t !in completed ==> m[t].Err?)
            && (forall w :: w in queue && Oversized(w.request, rate) ==>
                  && w.ticket in m
                  && m[w.ticket] == Err(IndivisibleDebtLimit(w.request.bytes, CapacityBytes(rate), w.request.maxDebt)))
    decreases queue
  {
    if queue == [] {
    } else {
      var rest := queue[1..];
      OrderedHead(queue);
      assert queue == [queue[0]] + rest;
      TicketsCons(queue[0], rest);
      var request := queue[0].request;
      if Oversized(request, rate) {
        var more := completed[queue[0].ticket :=
          Err(IndivisibleDebtLimit(request.bytes, CapacityBytes(rate), request.maxDebt))];
        RejectedLookup(rest, rate, more);
      } else {
        RejectedLookup(rest, rate, completed);
      }
    }
  }

  lemma UpdatedValid(b: Bucket, rate: Rate, now: nat)
    requires Valid(b)
    requires b.rate.BytesPerSecond? || b.queue == []
    ensures Valid(Updated(b, rate, now))
  {
    var full := Refilled(b, now);
    RefilledValid(b, now);
    RetainedMembers(full.queue, rate);
    RetainedOrdered(full.queue, rate);
    RejectedTickets(full.queue, rate, full.completed);
  }

  /** A rate change never mints credit: it keeps at most what refilling under the old rate
      gives and at most the new capacity, keeps debt as it is, and re-enabling an unlimited
      direction starts empty. */
  lemma UpdateNeverMints(b: Bucket, rate: Rate, now: nat)
    requires Valid(b)
    ensures var u := Updated(b, rate, now);
            && u.funds.credit <= Refilled(b, now).funds.credit
            && u.funds.credit <= Capacity(rate)
            && u.funds.debt == Refilled(b, now).funds.debt
            && (b.rate.Unlimited? ==> u.funds == Funds(0, b.funds.debt))
            && (rate.Unlimited? ==> u.funds.credit == 0)
            && (Capacity(rate) >= Refilled(b, now).funds.credit ==> u.funds == Refilled(b, now).funds)
            && (Capacity(rate) < Refilled(b, now).funds.credit ==> u.funds.credit == Capacity(rate))
  {
  }

  /** A rate change and the dispatch after it leave each queued ticket either waiting,
      granted, or refused for its size, exactly once. */
  lemma UpdateTickets(b: Bucket, rate: Rate, now: nat)
    requires Valid(b)
    requires b.rate.BytesPerSecond? || b.queue == []
    ensures var d := Dispatched(Updated(b, rate, now), now);
            && Valid(d)
            && Settled(d)
            && Tickets(d.queue) !! d.completed.Keys
            && Tickets(d.queue) + d.completed.Keys == Tickets(b.queue) + b.completed.Keys
            && |d.queue| + |d.completed| == |b.queue| + |b.completed|
            && (forall w :: w in b.queue && Oversized(w.request, rate) ==>
                  && w.ticket in d.completed
                  && d.completed[w.ticket] ==
                     Err(IndivisibleDebtLimit(w.request.bytes, CapacityBytes(rate), w.request.maxDebt)))
  {
    UpdatedValid(b, rate, now);
    RejectedTickets(b.queue, rate, b.completed);
    RejectedLookup(b.queue, rate, b.completed);
    var u := Updated(b, rate, now);
    assert u.queue == Retained(b.queue, rate) && u.completed == Rejected(b.queue, rate, b.completed);
    DispatchedValid(u, now);
    DispatchedTickets(u, now);
  }

  lemma {:induction false} AllRetained(queue: seq<Waiter>, rate: Rate, completed: map<nat, Completion>)
    requires AllAdmitted(queue, Capacity(rate)) && rate.BytesPerSecond?
    ensures Retained(queue, rate) == queue && Rejected(queue, rate, completed) == completed
  {
    if queue == [] {
    } else {
      assert queue[0] in queue;
      assert forall w :: w in queue[1..] ==> w in queue;
      AllRetained(queue[1..], rate, completed);
      assert queue == [queue[0]] + queue[1..];
    }
  }

  /** Setting the rate already in force only refills. */
  lemma SameRateRefills(b: Bucket, now: nat)
    requires Valid(b) && b.rate.BytesPerSecond?
    ensures Updated(b, b.rate, now) == Refilled(b, now)
  {
    RefilledValid(b, now);
    AllRetained(b.queue, b.rate, b.completed);
  }
}
