/** The deficit round-robin, told by what each waiter gets and when, without its steps.

    In every round a waiter may have one quantum more.  It is served if what those before it in
    the queue have left over is enough, and a divisible one then gets all it may have of that.
 */
module BandwidthRounds {
  import opened Basics
  import opened Arithmetic
  import opened BandwidthTypes
  import opened BandwidthFunds
  import opened BandwidthDispatch
  import opened BandwidthBucket

  // ----- one round

  /** Units granted to tickets below `ticket`. */
  ghost function SpentBefore(grants: seq<Grant>, ticket: nat): nat {
    if grants == [] then 0
    else (if grants[0].ticket < ticket then Units(grants[0].reservation) else 0) + SpentBefore(grants[1..], ticket)
  }

  /** Whether `left` units of credit serve a request that may have `allowed` bytes. */
  ghost predicate Suffices(request: Request, allowed: nat, left: int, capacity: nat) {
    match request
    case Divisible(_) => left >= BYTE_UNITS
    case Indivisible(bytes, _) => bytes <= allowed && left >= Min(bytes * BYTE_UNITS, capacity)
  }

  /** What it is then charged: a divisible request as many bytes as there are, an item all its
      bytes, the part beyond the capacity as debt. */
  ghost function Due(request: Request, left: nat, capacity: nat): Reservation {
    match request
    case Divisible(bytes) =>
      var n := Min(bytes, left / BYTE_UNITS);
      Reservation(n, n * BYTE_UNITS, 0)
    case Indivisible(bytes, _) =>
      var paid := Min(bytes * BYTE_UNITS, capacity);
      Reservation(bytes, paid, bytes * BYTE_UNITS - paid)
  }

  /** The waiter after `k` rounds without a grant. */
  ghost function Grown(w: Waiter, k: nat): Waiter {
    w.(deficit := Min(w.request.bytes, w.deficit + k * QUANTUM))
  }

  /** One attempt, without a look at its branches. */
  lemma AttemptExact(w: Waiter, f: Funds, capacity: nat)
    requires Admitted(w, capacity) && BYTE_UNITS <= capacity && Serving(f, capacity)
    ensures var a := TryReserve(w.request, Min(w.request.bytes, w.deficit + QUANTUM), f, capacity);
            if Suffices(w.request, w.deficit + QUANTUM, f.credit, capacity)
            then a.Reserved? && a.reservation == Due(w.request, f.credit, capacity)
            else a.Refused?
  {
  }

  /** What a round made of `w`. */
  ghost predicate Turn(o: Outcome, w: Waiter, left: int, capacity: nat) {
    if Suffices(w.request, w.deficit + QUANTUM, left, capacity)
    then left >= 0 && Grant(w.ticket, Due(w.request, left, capacity)) in o.grants
    else Grown(w, 1) in o.kept
  }

  lemma {:induction false} NothingBefore(grants: seq<Grant>, ticket: nat)
    requires forall g :: g in grants ==> ticket <= g.ticket
    ensures SpentBefore(grants, ticket) == 0
  {
    if grants == [] {
    } else {
      assert grants[0] in grants;
      NothingBefore(grants[1..], ticket);
    }
  }

  /** The head of the queue finds all the credit. */
  lemma HeadTurn(queue: seq<Waiter>, f: Funds, capacity: nat)
    requires Ready(queue, f, capacity) && queue != []
    ensures var o := Pass(queue, f, capacity);
            SpentBefore(o.grants, queue[0].ticket) == 0 && Turn(o, queue[0], f.credit, capacity)
  {
    var w, o := queue[0], Pass(queue, f, capacity);
    assert w in queue;
    AttemptExact(w, f, capacity);
    PassPartitions(queue, f, capacity);
    forall g | g in o.grants
      ensures w.ticket <= g.ticket
    {
      assert g.ticket in GrantTickets(o.grants);
      var x :| x in queue && x.ticket == g.ticket;
    }
    NothingBefore(o.grants, w.ticket);
  }

  lemma SpentCons(g: Grant, grants: seq<Grant>, ticket: nat)
    ensures SpentBefore([g] + grants, ticket)
            == (if g.ticket < ticket then Units(g.reservation) else 0) + SpentBefore(grants, ticket)
  {
    assert ([g] + grants)[1..] == grants;
  }

  ghost function Left(o: Outcome, f: Funds, w: Waiter): int {
    f.credit - SpentBefore(o.grants, w.ticket)
  }

  /** A turn behind a waiter that was served. */
  lemma TurnBehindGrant(o: Outcome, rest: Outcome, g: Grant, w: Waiter, f: Funds, f': Funds, capacity: nat)
    requires o.grants == [g] + rest.grants && o.kept == rest.kept && g.ticket < w.ticket
    requires Turn(rest, w, Left(rest, f', w), capacity) && BYTE_UNITS <= capacity && 1 <= w.request.bytes
    requires f'.credit - f'.debt + Units(g.reservation) == f.credit
    requires f'.debt > 0 ==> f'.credit == 0 && rest.grants == []
    ensures Turn(o, w, Left(o, f, w), capacity)
  {
    SpentCons(g, rest.grants, w.ticket);
    assert forall x :: x in rest.grants ==> x in o.grants;
  }

  /** A turn behind a waiter that was not. */
  lemma TurnBehindRefusal(o: Outcome, rest: Outcome, k: Waiter, w: Waiter, f: Funds, capacity: nat)
    requires o.grants == rest.grants && o.kept == [k] + rest.kept
    requires Turn(rest, w, Left(rest, f, w), capacity)
    ensures Turn(o, w, Left(o, f, w), capacity)
  {
    assert forall x :: x in rest.kept ==> x in o.kept;
  }

  /** What serving the head leaves to the others. */
  lemma HeadServed(queue: seq<Waiter>, f: Funds, capacity: nat, r: Reservation, f': Funds)
    requires Ready(queue, f, capacity) && queue != []
    requires TryReserve(queue[0].request, TopUp(queue[0]).deficit, f, capacity) == Reserved(r, f')
    ensures var o, rest := Pass(queue, f, capacity), Pass(queue[1..], f', capacity);
            && Ready(queue[1..], f', capacity)
            && o.grants == [Grant(queue[0].ticket, r)] + rest.grants && o.kept == rest.kept
            && f'.credit - f'.debt + Units(r) == f.credit && (f'.debt > 0 ==> f'.credit == 0 && rest.grants == [])
  {
    assert queue[0] in queue;
    assert forall x :: x in queue[1..] ==> x in queue;
    ReservedShape(queue[0].request, TopUp(queue[0]).deficit, f, capacity);
    PassAccounted(queue[1..], f', capacity);
  }

  lemma BehindServed(queue: seq<Waiter>, f: Funds, capacity: nat, w: Waiter, r: Reservation, f': Funds)
    requires Ready(queue, f, capacity) && queue != [] && w in queue[1..]
    requires TryReserve(queue[0].request, TopUp(queue[0]).deficit, f, capacity) == Reserved(r, f')
    requires var rest := Pass(queue[1..], f', capacity); Turn(rest, w, Left(rest, f', w), capacity)
    ensures var o := Pass(queue, f, capacity); Turn(o, w, Left(o, f, w), capacity)
  {
    HeadServed(queue, f, capacity, r, f');
    assert w in queue;
    TurnBehindGrant(Pass(queue, f, capacity), Pass(queue[1..], f', capacity), Grant(queue[0].ticket, r), w, f, f',
                    capacity);
  }

  /** Every waiter is served or not by what those before it have left over, and gets its due. */
  lemma {:induction false} PassExact(queue: seq<Waiter>, f: Funds, capacity: nat, w: Waiter)
    requires Ready(queue, f, capacity) && w in queue
    ensures var o := Pass(queue, f, capacity); Turn(o, w, Left(o, f, w), capacity)
    decreases queue
  {
    var head, others := TopUp(queue[0]), queue[1..];
    if w == queue[0] {
      HeadTurn(queue, f, capacity);
    } else {
      assert w in others;
      match TryReserve(head.request, head.deficit, f, capacity)
      case Reserved(r, f') =>
        HeadServed(queue, f, capacity, r, f');
        PassExact(others, f', capacity, w);
        BehindServed(queue, f, capacity, w, r, f');
      case Refused =>
        assert forall x :: x in others ==> x in queue;
        PassExact(others, f, capacity, w);
        TurnBehindRefusal(Pass(queue, f, capacity), Pass(others, f, capacity), head, w, f, capacity);
    }
  }

  lemma GrantCounts(g: Grant, grants: seq<Grant>)
    requires g in grants
    ensures g.ticket in GrantTickets(grants)
  {
  }

  /** Whoever is not served may have one quantum more. */
  lemma ServedOrGrown(queue: seq<Waiter>, f: Funds, capacity: nat, w: Waiter)
    requires Ready(queue, f, capacity) && w in queue
    ensures var o := Pass(queue, f, capacity); w.ticket in GrantTickets(o.grants) || Grown(w, 1) in o.kept
  {
    var o := Pass(queue, f, capacity);
    PassExact(queue, f, capacity, w);
    if Suffices(w.request, w.deficit + QUANTUM, Left(o, f, w), capacity) {
      GrantCounts(Grant(w.ticket, Due(w.request, Left(o, f, w), capacity)), o.grants);
    }
  }

  /** Being served and being due a grant are one. */
  lemma ServedExactly(queue: seq<Waiter>, f: Funds, capacity: nat, w: Waiter)
    requires Ready(queue, f, capacity) && w in queue
    ensures var o := Pass(queue, f, capacity);
            var left := Left(o, f, w);
            && (w.ticket in GrantTickets(o.grants) <==> Suffices(w.request, w.deficit + QUANTUM, left, capacity))
            && (w.ticket in GrantTickets(o.grants) ==>
                  left >= 0 && Grant(w.ticket, Due(w.request, left, capacity)) in o.grants)
  {
    var o := Pass(queue, f, capacity);
    PassExact(queue, f, capacity, w);
    PassPartitions(queue, f, capacity);
    if Suffices(w.request, w.deficit + QUANTUM, Left(o, f, w), capacity) {
      GrantCounts(Grant(w.ticket, Due(w.request, Left(o, f, w), capacity)), o.grants);
    } else {
      assert Grown(w, 1).ticket in Tickets(o.kept);
    }
  }

  // ----- round after round

  /** What was done before, and one round more. */
  ghost function Onto(o: Outcome, p: Outcome): Outcome {
    Outcome(p.kept, o.grants + p.grants, p.funds, p.progress)
  }

  ghost function Next(o: Outcome, capacity: nat): Outcome {
    Onto(o, Pass(o.kept, o.funds, capacity))
  }

  /** A dispatch after its first `k` rounds. */
  ghost function After(queue: seq<Waiter>, f: Funds, capacity: nat, k: nat): Outcome {
    if k == 0 then Outcome(queue, [], f, true) else Next(After(queue, f, capacity, k - 1), capacity)
  }

  lemma GrownTwice(w: Waiter, k: nat)
    requires w.deficit <= w.request.bytes
    ensures Grown(Grown(w, k), 1) == Grown(w, k + 1)
    ensures Grown(w, 0) == w
  {
    MulDistributes(k, 1, QUANTUM);
  }

  /** `w` has been served, or may have `k` quanta more, up to its request. */
  ghost predicate GrownBy(o: Outcome, k: nat, w: Waiter) {
    w.ticket in GrantTickets(o.grants) || Grown(w, k) in o.kept
  }

  /** The state of a dispatch after `k` rounds. */
  ghost predicate RoundsIn(o: Outcome, queue: seq<Waiter>, capacity: nat, k: nat) {
    Ready(o.kept, o.funds, capacity) && forall w :: w in queue ==> GrownBy(o, k, w)
  }

  lemma NextGrown(o: Outcome, capacity: nat, k: nat, w: Waiter)
    requires Ready(o.kept, o.funds, capacity) && w.deficit <= w.request.bytes && GrownBy(o, k, w)
    ensures GrownBy(Next(o, capacity), k + 1, w)
  {
    GrantTicketsAppend(o.grants, Pass(o.kept, o.funds, capacity).grants);
    if Grown(w, k) in o.kept {
      ServedOrGrown(o.kept, o.funds, capacity, Grown(w, k));
      GrownTwice(w, k);
    }
  }

  lemma RoundsNext(o: Outcome, queue: seq<Waiter>, capacity: nat, k: nat)
    requires AllAdmitted(queue, capacity) && RoundsIn(o, queue, capacity, k)
    ensures RoundsIn(Next(o, capacity), queue, capacity, k + 1)
  {
    PassSound(o.kept, o.funds, capacity);
    forall w | w in queue
      ensures GrownBy(Next(o, capacity), k + 1, w)
    {
      NextGrown(o, capacity, k, w);
    }
  }

  lemma RoundsStart(queue: seq<Waiter>, f: Funds, capacity: nat)
    requires Ready(queue, f, capacity)
    ensures RoundsIn(Outcome(queue, [], f, true), queue, capacity, 0)
  {
    forall w | w in queue
      ensures GrownBy(Outcome(queue, [], f, true), 0, w)
    {
      GrownTwice(w, 0);
    }
  }

  /** Whoever has not been served after `k` rounds may have `k` quanta more, up to its request. */
  lemma {:induction false} AfterGrown(queue: seq<Waiter>, f: Funds, capacity: nat, k: nat)
    requires Ready(queue, f, capacity)
    ensures RoundsIn(After(queue, f, capacity, k), queue, capacity, k)
  {
    if k == 0 {
      RoundsStart(queue, f, capacity);
    } else {
      AfterGrown(queue, f, capacity, k - 1);
      RoundsNext(After(queue, f, capacity, k - 1), queue, capacity, k - 1);
    }
  }

  /** What the next round makes of a waiter that `k` rounds have not served: it is served exactly
      if those before it leave enough credit, and, if it is an item, `k + 1` quanta and the
      deficit it came with cover its bytes; it then gets its due. */
  ghost predicate InTurn(o: Outcome, capacity: nat, k: nat, w: Waiter) {
    var grants := Pass(o.kept, o.funds, capacity).grants;
    var left := o.funds.credit - SpentBefore(grants, w.ticket);
    && (w.ticket in GrantTickets(grants) <==> Suffices(w.request, w.deficit + (k + 1) * QUANTUM, left, capacity))
    && (w.ticket in GrantTickets(grants) ==> left >= 0 && Grant(w.ticket, Due(w.request, left, capacity)) in grants)
  }

  /** Deficit round-robin, for every round of a dispatch and every waiter not yet served. */
  lemma RoundRobin(queue: seq<Waiter>, f: Funds, capacity: nat, k: nat)
    requires Ready(queue, f, capacity)
    ensures var o := After(queue, f, capacity, k);
            forall w :: w in queue && w.ticket !in GrantTickets(o.grants) ==> InTurn(o, capacity, k, w)
  {
    var o := After(queue, f, capacity, k);
    AfterGrown(queue, f, capacity, k);
    forall w | w in queue && w.ticket !in GrantTickets(o.grants)
      ensures InTurn(o, capacity, k, w)
    {
      assert GrownBy(o, k, w);
      NextExact(o, capacity, k, w);
    }
  }

  lemma NextExact(o: Outcome, capacity: nat, k: nat, w: Waiter)
    requires Ready(o.kept, o.funds, capacity) && Grown(w, k) in o.kept
    ensures InTurn(o, capacity, k, w)
  {
    ServedExactly(o.kept, o.funds, capacity, Grown(w, k));
    MulDistributes(k, 1, QUANTUM);
  }

  /** A dispatch is `k` rounds, and another would do nothing. */
  ghost predicate Ends(queue: seq<Waiter>, f: Funds, capacity: nat, k: nat) {
    var o, d := After(queue, f, capacity, k), Rounds(queue, f, capacity);
    && o.kept == d.kept && o.grants == d.grants && o.funds == d.funds
    && !Pass(o.kept, o.funds, capacity).progress
  }

  lemma EndsAtOnce(queue: seq<Waiter>, f: Funds, capacity: nat)
    requires Ready(queue, f, capacity) && !Pass(queue, f, capacity).progress
    ensures Ends(queue, f, capacity, 0)
  {
    PassStuck(queue, f, capacity);
  }

  lemma EndsLater(queue: seq<Waiter>, f: Funds, capacity: nat, k: nat)
    requires queue != [] && Pass(queue, f, capacity).progress
    requires var o := Pass(queue, f, capacity); Ends(o.kept, o.funds, capacity, k)
    ensures Ends(queue, f, capacity, k + 1)
  {
    AfterFirst(queue, f, capacity, k);
  }

  lemma {:induction false} RoundsAre(queue: seq<Waiter>, f: Funds, capacity: nat) returns (k: nat)
    requires Ready(queue, f, capacity)
    ensures Ends(queue, f, capacity, k)
    decreases Work(queue)
  {
    var o := Pass(queue, f, capacity);
    if o.progress {
      PassSound(queue, f, capacity);
      k := RoundsAre(o.kept, o.funds, capacity);
      EndsLater(queue, f, capacity, k);
      k := k + 1;
    } else {
      EndsAtOnce(queue, f, capacity);
      k := 0;
    }
  }

  lemma {:induction false} AfterFirst(queue: seq<Waiter>, f: Funds, capacity: nat, k: nat)
    requires Pass(queue, f, capacity).progress
    ensures var o := Pass(queue, f, capacity);
            After(queue, f, capacity, k + 1) == Onto(o, After(o.kept, o.funds, capacity, k))
  {
    var o := Pass(queue, f, capacity);
    if k == 0 {
      assert [] + o.grants == o.grants + [] == o.grants;
    } else {
      AfterFirst(queue, f, capacity, k - 1);
      var p := After(o.kept, o.funds, capacity, k - 1);
      var q := Pass(p.kept, p.funds, capacity);
      assert (o.grants + p.grants) + q.grants == o.grants + (p.grants + q.grants);
    }
  }

  // ----- how much a divisible request gets

  /** Each divisible request granted got all its bytes, or the credit has run out. */
  ghost predicate WholeOrSpent(grants: seq<Grant>, queue: seq<Waiter>, credit: nat) {
    forall g, w :: g in grants && w in queue && g.ticket == w.ticket && w.request.Divisible? ==>
                     g.reservation.bytes == w.request.bytes || credit < BYTE_UNITS
  }

  lemma WholeAttempt(w: Waiter, f: Funds, capacity: nat)
    requires Admitted(w, capacity) && w.request.Divisible?
    requires TryReserve(w.request, TopUp(w).deficit, f, capacity).Reserved?
    ensures var a := TryReserve(w.request, TopUp(w).deficit, f, capacity);
            a.reservation.bytes == w.request.bytes || a.funds.credit < BYTE_UNITS
  {
  }

  lemma WholeCons(queue: seq<Waiter>, g: Grant, grants: seq<Grant>, credit: nat)
    requires queue != [] && Ordered(queue) && g.ticket == queue[0].ticket
    requires WholeOrSpent(grants, queue[1..], credit) && GrantTickets(grants) <= Tickets(queue[1..])
    requires queue[0].request.Divisible? ==> g.reservation.bytes == queue[0].request.bytes || credit < BYTE_UNITS
    ensures WholeOrSpent([g] + grants, queue, credit)
  {
    OrderedHead(queue);
    forall h, w | h in [g] + grants && w in queue && h.ticket == w.ticket && w.request.Divisible?
      ensures h.reservation.bytes == w.request.bytes || credit < BYTE_UNITS
    {
      assert w == queue[0] || w in queue[1..];
      if h in grants {
        GrantCounts(h, grants);
      } else if w in queue[1..] {
        assert w.ticket in Tickets(queue[1..]);
      }
    }
  }

  lemma WholeKeep(queue: seq<Waiter>, grants: seq<Grant>, credit: nat)
    requires queue != [] && Ordered(queue)
    requires WholeOrSpent(grants, queue[1..], credit) && GrantTickets(grants) <= Tickets(queue[1..])
    ensures WholeOrSpent(grants, queue, credit)
  {
    OrderedHead(queue);
    forall h, w | h in grants && w in queue && h.ticket == w.ticket && w.request.Divisible?
      ensures h.reservation.bytes == w.request.bytes || credit < BYTE_UNITS
    {
      GrantCounts(h, grants);
      assert w == queue[0] || w in queue[1..];
    }
  }

  lemma {:induction false} PassWhole(queue: seq<Waiter>, f: Funds, capacity: nat)
    requires Ready(queue, f, capacity)
    ensures var o := Pass(queue, f, capacity);
            WholeOrSpent(o.grants, queue, o.funds.credit) && o.funds.credit <= f.credit
    decreases queue
  {
    PassAccounted(queue, f, capacity);
    if queue == [] {
    } else {
      var w, others := queue[0], queue[1..];
      assert w in queue;
      assert forall x :: x in others ==> x in queue;
      match TryReserve(w.request, TopUp(w).deficit, f, capacity)
      case Reserved(r, f') =>
        HeadServed(queue, f, capacity, r, f');
        PassWhole(others, f', capacity);
        PassPartitions(others, f', capacity);
        if w.request.Divisible? {
          WholeAttempt(w, f, capacity);
        }
        var rest := Pass(others, f', capacity);
        WholeCons(queue, Grant(w.ticket, r), rest.grants, rest.funds.credit);
      case Refused =>
        PassWhole(others, f, capacity);
        PassPartitions(others, f, capacity);
        var rest := Pass(others, f, capacity);
        WholeKeep(queue, rest.grants, rest.funds.credit);
    }
  }

  lemma WholeCompose(o: Outcome, rest: Outcome, queue: seq<Waiter>)
    requires Ordered(queue) && Descends(o.kept, queue) && Partitions(o.kept, o.grants, queue)
    requires Partitions(rest.kept, rest.grants, o.kept)
    requires WholeOrSpent(o.grants, queue, o.funds.credit) && rest.funds.credit <= o.funds.credit
    requires WholeOrSpent(rest.grants, o.kept, rest.funds.credit)
    ensures WholeOrSpent(o.grants + rest.grants, queue, rest.funds.credit)
  {
    forall g, w | g in o.grants + rest.grants && w in queue && g.ticket == w.ticket && w.request.Divisible?
      ensures g.reservation.bytes == w.request.bytes || rest.funds.credit < BYTE_UNITS
    {
      if g in rest.grants {
        GrantCounts(g, rest.grants);
        var k :| k in o.kept && k.ticket == g.ticket;
        var v :| v in queue && v.ticket == k.ticket && v.request == k.request && v.deficit <= k.deficit;
        SameTicket(queue, v, w);
      }
    }
  }

  /** A dispatch grants every divisible request all its bytes, except that the last may get what
      bytes are left; less than a byte remains then. */
  lemma {:induction false} RoundsWhole(queue: seq<Waiter>, f: Funds, capacity: nat)
    requires Ready(queue, f, capacity)
    ensures var o := Rounds(queue, f, capacity);
            WholeOrSpent(o.grants, queue, o.funds.credit) && o.funds.credit <= f.credit
    decreases Work(queue)
  {
    RoundsAccounted(queue, f, capacity);
    if queue == [] {
    } else {
      var o := Pass(queue, f, capacity);
      PassSound(queue, f, capacity);
      PassWhole(queue, f, capacity);
      if o.progress {
        RoundsSound(o.kept, o.funds, capacity);
        RoundsWhole(o.kept, o.funds, capacity);
        WholeCompose(o, Rounds(o.kept, o.funds, capacity), queue);
      }
    }
  }
}
