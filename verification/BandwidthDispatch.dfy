/** Deficit round-robin service of a queue of waiters.

    `Pass` is one round over the queue and `Rounds` repeats rounds while they make progress;
    `Settle` is what a dispatch does to an already refilled bucket.
 */
module BandwidthDispatch {
  import opened Basics
  import opened BandwidthTypes
  import opened BandwidthFunds

  datatype Outcome = Outcome(kept: seq<Waiter>, grants: seq<Grant>, funds: Funds, progress: bool)

  function TopUp(w: Waiter): Waiter {
    w.(deficit := Min(w.deficit + QUANTUM, w.request.bytes))
  }

  /** Termination measure: waiters left plus the deficit they still lack. */
  ghost function Work(queue: seq<Waiter>): nat {
    if queue == [] then 0 else 1 + Lacking(queue[0]) + Work(queue[1..])
  }

  ghost function Lacking(w: Waiter): nat {
    if w.deficit < w.request.bytes then w.request.bytes - w.deficit else 0
  }

  function Pass(queue: seq<Waiter>, f: Funds, capacity: nat): (o: Outcome)
    ensures Work(o.kept) <= Work(queue)
    ensures o.progress ==> Work(o.kept) < Work(queue)
  {
    if queue == [] then
      Outcome([], [], f, false)
    else
      var w := TopUp(queue[0]);
      match TryReserve(w.request, w.deficit, f, capacity)
      case Reserved(r, f') =>
        var rest := Pass(queue[1..], f', capacity);
        Outcome(rest.kept, [Grant(w.ticket, r)] + rest.grants, rest.funds, true)
      case Refused =>
        var rest := Pass(queue[1..], f, capacity);
        Outcome([w] + rest.kept, rest.grants, rest.funds, rest.progress || w.deficit > queue[0].deficit)
  }

  function Rounds(queue: seq<Waiter>, f: Funds, capacity: nat): Outcome
    decreases Work(queue)
  {
    if queue == [] then
      Outcome([], [], f, false)
    else
      var o := Pass(queue, f, capacity);
      if o.progress then
        var rest := Rounds(o.kept, o.funds, capacity);
        Outcome(rest.kept, o.grants + rest.grants, rest.funds, false)
      else
        o
  }

  /** The grants an unlimited bucket gives: every waiter, whole, at no cost. */
  function Release(queue: seq<Waiter>): seq<Grant> {
    if queue == [] then []
    else [Grant(queue[0].ticket, Reservation(queue[0].request.bytes, 0, 0))] + Release(queue[1..])
  }

  function Settle(b: Bucket): Outcome {
    if b.queue == [] then
      Outcome([], [], b.funds, false)
    else if b.rate.Unlimited? then
      Outcome([], Release(b.queue), b.funds, false)
    else if b.funds.debt > 0 then
      Outcome(b.queue, [], b.funds, false)
    else
      Rounds(b.queue, b.funds, Capacity(b.rate))
  }

  function Record(completed: map<nat, Completion>, grants: seq<Grant>): map<nat, Completion>
    decreases grants
  {
    if grants == [] then completed
    else Record(completed[grants[0].ticket := Ok(grants[0].reservation)], grants[1..])
  }

  // ----- what one waiter can become

  /** `kept` waiters are waiters of `queue`, unchanged but for a larger deficit. */
  ghost predicate Descends(kept: seq<Waiter>, queue: seq<Waiter>) {
    forall k :: k in kept ==>
      exists w :: w in queue && w.ticket == k.ticket && w.request == k.request && w.deficit <= k.deficit
  }

  /** Every grant was issued to a waiter of `queue` and fits its request. */
  ghost predicate Fits(grants: seq<Grant>, queue: seq<Waiter>, capacity: nat) {
    forall g :: g in grants ==>
      exists w :: w in queue && w.ticket == g.ticket && WellFormed(g.reservation, w.request, capacity)
  }

  /** Only the last grant may run into debt. */
  ghost predicate DebtLast(grants: seq<Grant>) {
    forall i :: 0 <= i < |grants| - 1 ==> grants[i].reservation.debtUnits == 0
  }

  ghost predicate Ready(queue: seq<Waiter>, f: Funds, capacity: nat) {
    && AllAdmitted(queue, capacity)
    && Ordered(queue)
    && BYTE_UNITS <= capacity
    && Serving(f, capacity)
  }

  /** Every ticket of `queue` is either kept or granted, once, and kept waiters stay in order. */
  ghost predicate Partitions(kept: seq<Waiter>, grants: seq<Grant>, queue: seq<Waiter>) {
    && Ordered(kept)
    && Tickets(kept) + GrantTickets(grants) == Tickets(queue)
    && Tickets(kept) !! GrantTickets(grants)
    && Distinct(grants)
    && |kept| + |grants| == |queue|
  }

  ghost predicate Distinct(grants: seq<Grant>) {
    forall i, j :: 0 <= i < j < |grants| ==> grants[i].ticket != grants[j].ticket
  }

  ghost predicate Traced(o: Outcome, queue: seq<Waiter>, capacity: nat) {
    && AllAdmitted(o.kept, capacity)
    && Descends(o.kept, queue)
    && Fits(o.grants, queue, capacity)
  }

  /** The exact account of a service: the balance falls by the granted units, and debt is
      created at most once, by the last grant, out of a bucket that owed nothing. */
  ghost predicate Accounted(o: Outcome, f: Funds) {
    && o.funds.credit - o.funds.debt + TotalUnits(o.grants) == f.credit - f.debt
    && (o.grants == [] ==> o.funds == f)
    && (o.grants != [] ==> f.debt == 0 && o.funds.credit < f.credit)
    && DebtLast(o.grants)
    && (o.grants != [] ==> o.funds.debt == o.grants[|o.grants| - 1].reservation.debtUnits)
  }

  /** A divisible waiter left in the queue is never overtaken. */
  ghost predicate NoOvertaking(o: Outcome) {
    forall k, g :: k in o.kept && k.request.Divisible? && g in o.grants ==> g.ticket < k.ticket
  }

  // ----- one round

  lemma {:induction false} PassAccounted(queue: seq<Waiter>, f: Funds, capacity: nat)
    requires Ready(queue, f, capacity)
    ensures Serving(Pass(queue, f, capacity).funds, capacity)
    ensures Accounted(Pass(queue, f, capacity), f)
  {
    if queue == [] {
    } else {
      var w := TopUp(queue[0]);
      assert queue[0] in queue;
      ReservedShape(w.request, w.deficit, f, capacity);
      match TryReserve(w.request, w.deficit, f, capacity)
      case Reserved(r, f') =>
        PassAccounted(queue[1..], f', capacity);
      case Refused =>
        PassAccounted(queue[1..], f, capacity);
    }
  }

  lemma TicketsCons(w: Waiter, queue: seq<Waiter>)
    ensures Tickets([w] + queue) == {w.ticket} + Tickets(queue)
  {
    forall t | t in {w.ticket} + Tickets(queue)
      ensures t in Tickets([w] + queue)
    {
      var x :| x in [w] + queue && x.ticket == t;
    }
  }

  lemma GrantTicketsAppend(a: seq<Grant>, b: seq<Grant>)
    ensures GrantTickets(a + b) == GrantTickets(a) + GrantTickets(b)
  {
    forall t | t in GrantTickets(a) + GrantTickets(b)
      ensures t in GrantTickets(a + b)
    {
      var x :| x in a + b && x.ticket == t;
    }
  }

  lemma OrderedHead(queue: seq<Waiter>)
    requires Ordered(queue) && queue != []
    ensures Ordered(queue[1..])
    ensures forall t :: t in Tickets(queue[1..]) ==> queue[0].ticket < t
  {
  }

  lemma OrderedCons(w: Waiter, queue: seq<Waiter>)
    requires Ordered(queue)
    requires forall t :: t in Tickets(queue) ==> w.ticket < t
    ensures Ordered([w] + queue)
  {
    var all := [w] + queue;
    forall i, j | 0 <= i < j < |all|
      ensures all[i].ticket < all[j].ticket
    {
      assert all[j] == queue[j - 1];
      assert queue[j - 1].ticket in Tickets(queue);
    }
  }

  /** A refused waiter rejoins the front of what the rest of the round kept. */
  lemma PartitionKeep(queue: seq<Waiter>, kept: seq<Waiter>, grants: seq<Grant>)
    requires queue != [] && Ordered(queue)
    requires Partitions(kept, grants, queue[1..])
    ensures Partitions([TopUp(queue[0])] + kept, grants, queue)
  {
    var w := TopUp(queue[0]);
    OrderedHead(queue);
    OrderedCons(w, kept);
    assert queue == [queue[0]] + queue[1..];
    TicketsCons(queue[0], queue[1..]);
    TicketsCons(w, kept);
  }

  lemma DistinctCons(g: Grant, grants: seq<Grant>)
    requires Distinct(grants)
    requires g.ticket !in GrantTickets(grants)
    ensures Distinct([g] + grants)
    ensures GrantTickets([g] + grants) == {g.ticket} + GrantTickets(grants)
  {
    GrantTicketsAppend([g], grants);
    assert GrantTickets([g]) == {g.ticket};
    var all := [g] + grants;
    forall i, j | 0 <= i < j < |all|
      ensures all[i].ticket != all[j].ticket
    {
      assert all[j] == grants[j - 1];
      assert grants[j - 1].ticket in GrantTickets(grants);
    }
  }

  /** A granted waiter leaves; its grant precedes those of the rest of the round. */
  lemma PartitionGrant(queue: seq<Waiter>, kept: seq<Waiter>, grants: seq<Grant>, r: Reservation)
    requires queue != [] && Ordered(queue)
    requires Partitions(kept, grants, queue[1..])
    ensures Partitions(kept, [Grant(queue[0].ticket, r)] + grants, queue)
  {
    var rest := queue[1..];
    OrderedHead(queue);
    assert queue == [queue[0]] + rest;
    TicketsCons(queue[0], rest);
    assert queue[0].ticket !in Tickets(rest);
    DistinctCons(Grant(queue[0].ticket, r), grants);
  }

  lemma {:induction false} PassPartitions(queue: seq<Waiter>, f: Funds, capacity: nat)
    requires Ordered(queue)
    ensures var o := Pass(queue, f, capacity);
            Partitions(o.kept, o.grants, queue)
  {
    if queue == [] {
    } else {
      var w := TopUp(queue[0]);
      match TryReserve(w.request, w.deficit, f, capacity)
      case Reserved(r, f') =>
        PassPartitions(queue[1..], f', capacity);
        var o := Pass(queue[1..], f', capacity);
        PartitionGrant(queue, o.kept, o.grants, r);
      case Refused =>
        PassPartitions(queue[1..], f, capacity);
        var o := Pass(queue[1..], f, capacity);
        PartitionKeep(queue, o.kept, o.grants);
    }
  }

  lemma {:induction false} PassTraced(queue: seq<Waiter>, f: Funds, capacity: nat)
    requires Ready(queue, f, capacity)
    ensures Traced(Pass(queue, f, capacity), queue, capacity)
  {
    if queue == [] {
    } else {
      var w := TopUp(queue[0]);
      assert queue[0] in queue;
      assert forall x :: x in queue[1..] ==> x in queue;
      ReservedShape(w.request, w.deficit, f, capacity);
      match TryReserve(w.request, w.deficit, f, capacity)
      case Reserved(r, f') =>
        PassTraced(queue[1..], f', capacity);
      case Refused =>
        PassTraced(queue[1..], f, capacity);
    }
  }

  lemma PassSound(queue: seq<Waiter>, f: Funds, capacity: nat)
    requires Ready(queue, f, capacity)
    ensures var o := Pass(queue, f, capacity);
            && Traced(o, queue, capacity)
            && Partitions(o.kept, o.grants, queue)
            && Ready(o.kept, o.funds, capacity)
  {
    PassTraced(queue, f, capacity);
    PassPartitions(queue, f, capacity);
    PassAccounted(queue, f, capacity);
  }

  /** Less than one byte of credit serves nobody. */
  lemma {:induction false} PassPoor(queue: seq<Waiter>, f: Funds, capacity: nat)
    requires Ready(queue, f, capacity)
    requires forall w :: w in queue ==> f.credit < Threshold(w.request, capacity)
    ensures Pass(queue, f, capacity).grants == []
  {
    if queue == [] {
    } else {
      var w := TopUp(queue[0]);
      assert queue[0] in queue;
      ReservedShape(w.request, w.deficit, f, capacity);
      PassPoor(queue[1..], f, capacity);
    }
  }

  lemma NoOvertakingGrant(queue: seq<Waiter>, o: Outcome, g: Grant, p: bool)
    requires queue != [] && Ordered(queue)
    requires Partitions(o.kept, o.grants, queue[1..])
    requires NoOvertaking(o)
    requires g.ticket == queue[0].ticket
    ensures NoOvertaking(Outcome(o.kept, [g] + o.grants, o.funds, p))
  {
    OrderedHead(queue);
    forall k | k in o.kept
      ensures g.ticket < k.ticket
    {
      assert k.ticket in Tickets(o.kept);
    }
  }

  lemma {:induction false} PassNoOvertaking(queue: seq<Waiter>, f: Funds, capacity: nat)
    requires Ready(queue, f, capacity)
    ensures NoOvertaking(Pass(queue, f, capacity))
  {
    if queue == [] {
    } else {
      var w := TopUp(queue[0]);
      assert queue[0] in queue;
      ReservedShape(w.request, w.deficit, f, capacity);
      match TryReserve(w.request, w.deficit, f, capacity)
      case Reserved(r, f') =>
        PassNoOvertaking(queue[1..], f', capacity);
        PassPartitions(queue[1..], f', capacity);
        NoOvertakingGrant(queue, Pass(queue[1..], f', capacity), Grant(w.ticket, r), true);
      case Refused =>
        PassNoOvertaking(queue[1..], f, capacity);
        if w.request.Divisible? {
          forall x | x in queue[1..]
            ensures f.credit < Threshold(x.request, capacity)
          {
            ThresholdBounds(x, capacity);
          }
          PassPoor(queue[1..], f, capacity);
        }
    }
  }

  /** A round that makes no progress is a round that could not: every waiter already had its
      full deficit and was refused at exactly the credit that remains. */
  lemma {:induction false} PassStuck(queue: seq<Waiter>, f: Funds, capacity: nat)
    requires Ready(queue, f, capacity)
    requires !Pass(queue, f, capacity).progress
    ensures Pass(queue, f, capacity) == Outcome(queue, [], f, false)
    ensures forall w :: w in queue ==> w.deficit == w.request.bytes && f.credit < Threshold(w.request, capacity)
  {
    if queue == [] {
    } else {
      var w := TopUp(queue[0]);
      assert queue[0] in queue;
      RefusedOnlyForCredit(w, f, capacity);
      PassStuck(queue[1..], f, capacity);
      assert queue == [queue[0]] + queue[1..];
    }
  }

  // ----- all rounds

  lemma PartitionCompose(o: Outcome, rest: Outcome, queue: seq<Waiter>)
    requires Partitions(o.kept, o.grants, queue)
    requires Partitions(rest.kept, rest.grants, o.kept)
    ensures Partitions(rest.kept, o.grants + rest.grants, queue)
  {
    GrantTicketsAppend(o.grants, rest.grants);
    assert forall g :: g in o.grants ==> g.ticket in GrantTickets(o.grants);
    assert forall g :: g in rest.grants ==> g.ticket in GrantTickets(rest.grants);
  }

  lemma FitsTransfer(grants: seq<Grant>, kept: seq<Waiter>, queue: seq<Waiter>, capacity: nat)
    requires Descends(kept, queue)
    requires Fits(grants, kept, capacity)
    ensures Fits(grants, queue, capacity)
  {
    forall g | g in grants
      ensures exists w :: w in queue && w.ticket == g.ticket && WellFormed(g.reservation, w.request, capacity)
    {
      var k :| k in kept && k.ticket == g.ticket && WellFormed(g.reservation, k.request, capacity);
      var w :| w in queue && w.ticket == k.ticket && w.request == k.request && w.deficit <= k.deficit;
    }
  }

  /** Serving a queue loses, duplicates and reorders nobody. */
  lemma {:induction false} RoundsSound(queue: seq<Waiter>, f: Funds, capacity: nat)
    requires Ready(queue, f, capacity)
    ensures var o := Rounds(queue, f, capacity);
            && Traced(o, queue, capacity)
            && Partitions(o.kept, o.grants, queue)
            && Ready(o.kept, o.funds, capacity)
    decreases Work(queue)
  {
    if queue == [] {
    } else {
      var o := Pass(queue, f, capacity);
      PassSound(queue, f, capacity);
      if o.progress {
        var rest := Rounds(o.kept, o.funds, capacity);
        RoundsSound(o.kept, o.funds, capacity);
        PartitionCompose(o, rest, queue);
        FitsTransfer(rest.grants, o.kept, queue, capacity);
      }
    }
  }

  lemma AccountedCompose(o: Outcome, rest: Outcome, f: Funds)
    requires Accounted(o, f)
    requires Accounted(rest, o.funds)
    ensures Accounted(Outcome(rest.kept, o.grants + rest.grants, rest.funds, false), f)
  {
    TotalUnitsAppend(o.grants, rest.grants);
    var all := o.grants + rest.grants;
    forall i | 0 <= i < |all| - 1
      ensures all[i].reservation.debtUnits == 0
    {
      if i < |o.grants| {
        assert all[i] == o.grants[i];
      } else {
        assert all[i] == rest.grants[i - |o.grants|];
      }
    }
    if rest.grants == [] {
      assert all == o.grants;
    } else {
      assert all[|all| - 1] == rest.grants[|rest.grants| - 1];
    }
  }

  /** Serving a queue charges exactly the granted units and runs into debt at most once. */
  lemma {:induction false} RoundsAccounted(queue: seq<Waiter>, f: Funds, capacity: nat)
    requires Ready(queue, f, capacity)
    ensures Accounted(Rounds(queue, f, capacity), f)
    decreases Work(queue)
  {
    if queue == [] {
    } else {
      var o := Pass(queue, f, capacity);
      PassSound(queue, f, capacity);
      PassAccounted(queue, f, capacity);
      if o.progress {
        RoundsAccounted(o.kept, o.funds, capacity);
        AccountedCompose(o, Rounds(o.kept, o.funds, capacity), f);
      }
    }
  }

  lemma {:induction false} RoundsNoOvertaking(queue: seq<Waiter>, f: Funds, capacity: nat)
    requires Ready(queue, f, capacity)
    ensures NoOvertaking(Rounds(queue, f, capacity))
    decreases Work(queue)
  {
    if queue == [] {
    } else {
      var o := Pass(queue, f, capacity);
      PassSound(queue, f, capacity);
      PassNoOvertaking(queue, f, capacity);
      if o.progress {
        RoundsNoOvertaking(o.kept, o.funds, capacity);
        RoundsSound(o.kept, o.funds, capacity);
      }
    }
  }

  /** Maximality: whoever is left has its full deficit and could not be served from what
      credit is left. */
  lemma {:induction false} RoundsMaximal(queue: seq<Waiter>, f: Funds, capacity: nat)
    requires Ready(queue, f, capacity)
    ensures var o := Rounds(queue, f, capacity);
            forall w :: w in o.kept ==>
              && w.deficit == w.request.bytes
              && o.funds.credit < Threshold(w.request, capacity)
              && TryReserve(w.request, w.deficit, o.funds, capacity).Refused?
    decreases Work(queue)
  {
    if queue == [] {
    } else {
      var o := Pass(queue, f, capacity);
      PassSound(queue, f, capacity);
      if o.progress {
        RoundsMaximal(o.kept, o.funds, capacity);
      } else {
        PassStuck(queue, f, capacity);
        forall w | w in o.kept
          ensures TryReserve(w.request, w.deficit, o.funds, capacity).Refused?
        {
          RefusedOnlyForCredit(w, f, capacity);
        }
      }
    }
  }

  lemma {:induction false} RoundsPoor(queue: seq<Waiter>, f: Funds, capacity: nat)
    requires Ready(queue, f, capacity)
    requires forall w :: w in queue ==> f.credit < Threshold(w.request, capacity)
    ensures Rounds(queue, f, capacity).grants == []
    decreases Work(queue)
  {
    if queue == [] {
    } else {
      var o := Pass(queue, f, capacity);
      PassSound(queue, f, capacity);
      PassAccounted(queue, f, capacity);
      PassPoor(queue, f, capacity);
      if o.progress {
        RoundsPoor(o.kept, o.funds, capacity);
      }
    }
  }

  lemma RoundsNone(queue: seq<Waiter>, f: Funds, capacity: nat)
    requires Ready(queue, f, capacity)
    requires Rounds(queue, f, capacity).grants == []
    ensures forall w :: w in queue ==> f.credit < Threshold(w.request, capacity)
  {
    var o := Rounds(queue, f, capacity);
    RoundsSound(queue, f, capacity);
    RoundsAccounted(queue, f, capacity);
    RoundsMaximal(queue, f, capacity);
    forall w | w in queue
      ensures f.credit < Threshold(w.request, capacity)
    {
      assert GrantTickets(o.grants) == {};
      assert w.ticket in Tickets(queue);
      var k :| k in o.kept && k.ticket == w.ticket;
      var x :| x in queue && x.ticket == k.ticket && x.request == k.request && x.deficit <= k.deficit;
      SameTicket(queue, w, x);
    }
  }

  lemma SameTicket(queue: seq<Waiter>, v: Waiter, w: Waiter)
    requires Ordered(queue)
    requires v in queue && w in queue && v.ticket == w.ticket
    ensures v == w
  {
  }

  /** Somebody is served exactly when somebody's threshold is within the credit at entry,
      whatever deficits the waiters entered with. */
  lemma RoundsGrantIff(queue: seq<Waiter>, f: Funds, capacity: nat)
    requires Ready(queue, f, capacity)
    ensures Rounds(queue, f, capacity).grants != [] <==>
            exists w :: w in queue && Threshold(w.request, capacity) <= f.credit
  {
    if Rounds(queue, f, capacity).grants == [] {
      RoundsNone(queue, f, capacity);
    } else if forall w :: w in queue ==> f.credit < Threshold(w.request, capacity) {
      RoundsPoor(queue, f, capacity);
    }
  }
}
