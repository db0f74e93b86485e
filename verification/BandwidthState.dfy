/** The scheduler as it runs: buckets and limiter that update their fields in place with the
    machine's saturating arithmetic.  Every method is proved to make exactly the step that the
    value model makes over unbounded integers, so saturation is never observable.
 */
module BandwidthState {
  import opened Basics
  import opened BandwidthTypes
  import opened BandwidthBucket
  import opened BandwidthDispatch
  import opened BandwidthRefill
  import opened BandwidthUpdate
  import opened BandwidthLimiter
  import opened BandwidthLedger
  import opened BandwidthRuns
  import F = BandwidthFunds
  import A = Arithmetic

  // ----- u128 arithmetic

  function SatAdd(a: nat, b: nat): nat {
    Min(a + b, U128_MAX)
  }

  function SatMul(a: nat, b: nat): nat {
    Min(a * b, U128_MAX)
  }

  /** A refill so long that its product saturates still pays off any debt and fills any
      bucket, so the saturated product gives the same funds. */
  lemma SaturatedEarn(f: Funds, units: nat, capacity: nat)
    requires f.debt <= U64_MAX * BYTE_UNITS
    requires f.credit <= capacity <= U64_MAX * BYTE_UNITS
    ensures var refill := Min(units, U128_MAX);
            var repaid := Min(refill, f.debt);
            Funds(Min(SatAdd(f.credit, refill - repaid), capacity), f.debt - repaid) == F.Earn(f, units, capacity)
  {
  }

  lemma CapacityFits(rate: Rate)
    ensures Capacity(rate) <= U64_MAX * BYTE_UNITS < U128_MAX
    ensures SatMul(CapacityBytes(rate), BYTE_UNITS) == Capacity(rate)
  {
  }

  /** What `request` lacks, computed with saturation. */
  function Lack(request: Request, credit: nat, capacity: nat): (n: nat)
    ensures n == SatSub(Threshold(request, capacity), credit)
  {
    match request
    case Divisible(_) => SatSub(BYTE_UNITS, credit)
    case Indivisible(bytes, _) => SatSub(Min(SatMul(bytes, BYTE_UNITS), capacity), credit)
  }

  /** Rounds up, and never sleeps longer than the largest machine word. */
  function WaitNanos(needed: nat, rate: PositiveWord): (n: nat)
    requires needed <= (U64_MAX + 1) * BYTE_UNITS
    ensures n == Min(A.CeilDiv(needed, rate), U64_MAX)
  {
    var wait := SatAdd(needed, rate - 1) / rate;
    if wait <= U64_MAX then wait else U64_MAX
  }

  lemma NoWait(rate: PositiveWord)
    ensures A.CeilDiv(0, rate) == 0
  {
    A.CeilDivLeast(0, rate, 0);
  }

  lemma LeastNeededFits(queue: seq<Waiter>, credit: nat, rate: Rate)
    requires queue != []
    ensures LeastNeeded(queue, credit, Capacity(rate)) <= (U64_MAX + 1) * BYTE_UNITS
  {
    CapacityFits(rate);
  }

  // ----- loop specifications

  /** What a round has done so far, followed by what the rest of it will do. */
  ghost function Join(kept: seq<Waiter>, grants: seq<Grant>, progress: bool, rest: Outcome): Outcome {
    Outcome(kept + rest.kept, grants + rest.grants, rest.funds, progress || rest.progress)
  }

  lemma {:induction false} RecordSnoc(completed: map<nat, Completion>, grants: seq<Grant>, g: Grant)
    ensures Record(completed, grants + [g]) == Record(completed, grants)[g.ticket := Ok(g.reservation)]
    decreases grants
  {
    if grants == [] {
      assert grants + [g] == [g];
    } else {
      assert (grants + [g])[1..] == grants[1..] + [g];
      RecordSnoc(completed[grants[0].ticket := Ok(grants[0].reservation)], grants[1..], g);
    }
  }

  lemma {:induction false} RecordAppend(completed: map<nat, Completion>, a: seq<Grant>, b: seq<Grant>)
    ensures Record(completed, a + b) == Record(Record(completed, a), b)
    decreases a
  {
    if a == [] {
      assert a + b == b;
    } else {
      assert (a + b)[1..] == a[1..] + b;
      RecordAppend(completed[a[0].ticket := Ok(a[0].reservation)], a[1..], b);
    }
  }

  /** Visiting the next waiter of a round moves it from the rest to what is done. */
  lemma JoinStep(queue: seq<Waiter>, f: Funds, capacity: nat, kept: seq<Waiter>, grants: seq<Grant>, progress: bool)
    requires queue != []
    ensures var w := TopUp(queue[0]);
            var rest := queue[1..];
            Join(kept, grants, progress, Pass(queue, f, capacity)) ==
            match F.TryReserve(w.request, w.deficit, f, capacity)
            case Reserved(r, f') =>
              Join(kept, grants + [Grant(w.ticket, r)], true, Pass(rest, f', capacity))
            case Refused =>
              Join(kept + [w], grants, progress || w.deficit > queue[0].deficit, Pass(rest, f, capacity))
  {
    var w := TopUp(queue[0]);
    match F.TryReserve(w.request, w.deficit, f, capacity)
    case Reserved(r, f') =>
      var o := Pass(queue[1..], f', capacity);
      assert grants + ([Grant(w.ticket, r)] + o.grants) == (grants + [Grant(w.ticket, r)]) + o.grants;
    case Refused =>
      var o := Pass(queue[1..], f, capacity);
      assert kept + ([w] + o.kept) == (kept + [w]) + o.kept;
  }

  /** What a round reads and writes. */
  datatype Desk = Desk(
    queue: seq<Waiter>,
    funds: Funds,
    completed: map<nat, Completion>,
    live: seq<Grant>,
    progress: bool,
    granted: bool)

  /** One visit: the front waiter is topped up, and served or sent to the back. */
  ghost function Visit(d: Desk, capacity: nat): Desk {
    if d.queue == [] then d
    else
      var w := TopUp(d.queue[0]);
      match F.TryReserve(w.request, w.deficit, d.funds, capacity)
      case Reserved(r, funds) =>
        Desk(d.queue[1..], funds, d.completed[w.ticket := Ok(r)], d.live + [Grant(w.ticket, r)], true, true)
      case Refused =>
        d.(queue := d.queue[1..] + [w], progress := d.progress || w.deficit > d.queue[0].deficit)
  }

  ghost function Visits(d: Desk, n: nat, capacity: nat): Desk {
    if n == 0 then d else Visit(Visits(d, n - 1, capacity), capacity)
  }

  /** The desk after `n` visits, given whom they kept and what they granted. */
  ghost predicate Midway(d: Desk, n: nat, capacity: nat, v: Desk, kept: seq<Waiter>, grants: seq<Grant>)
    requires n <= |d.queue|
  {
    && v.queue == d.queue[n..] + kept
    && v.completed == Record(d.completed, grants)
    && v.live == d.live + grants
    && v.granted == (grants != [])
    && Pass(d.queue, d.funds, capacity) == Join(kept, grants, v.progress, Pass(d.queue[n..], v.funds, capacity))
  }

  lemma Advanced(queue: seq<Waiter>, n: nat, kept: seq<Waiter>)
    requires n < |queue|
    ensures (queue[n..] + kept)[0] == queue[n] && (queue[n..] + kept)[1..] == queue[n + 1..] + kept
  {
  }

  lemma GrantsSnoc(live: seq<Grant>, grants: seq<Grant>, g: Grant)
    ensures live + (grants + [g]) == (live + grants) + [g]
  {
  }

  lemma VisitServed(d: Desk, n: nat, capacity: nat, v: Desk, kept: seq<Waiter>, grants: seq<Grant>, r: Reservation,
                    f: Funds)
    requires n < |d.queue|
    requires Midway(d, n, capacity, v, kept, grants)
    requires var w := TopUp(d.queue[n]);
             F.TryReserve(w.request, w.deficit, v.funds, capacity) == F.Reserved(r, f)
    ensures Midway(d, n + 1, capacity, Visit(v, capacity), kept, grants + [Grant(d.queue[n].ticket, r)])
  {
    var rest, g := d.queue[n..], Grant(d.queue[n].ticket, r);
    assert rest[1..] == d.queue[n + 1..];
    JoinStep(rest, v.funds, capacity, kept, grants, v.progress);
    Advanced(d.queue, n, kept);
    RecordSnoc(d.completed, grants, g);
    GrantsSnoc(d.live, grants, g);
  }

  lemma Rotated(queue: seq<Waiter>, n: nat, kept: seq<Waiter>, w: Waiter)
    requires n < |queue|
    ensures (queue[n..] + kept)[0] == queue[n]
    ensures (queue[n..] + kept)[1..] + [w] == queue[n + 1..] + (kept + [w])
  {
    assert (queue[n..] + kept)[1..] == queue[n + 1..] + kept;
  }

  lemma VisitKept(d: Desk, n: nat, capacity: nat, v: Desk, kept: seq<Waiter>, grants: seq<Grant>)
    requires n < |d.queue|
    requires Midway(d, n, capacity, v, kept, grants)
    requires var w := TopUp(d.queue[n]); F.TryReserve(w.request, w.deficit, v.funds, capacity).Refused?
    ensures Midway(d, n + 1, capacity, Visit(v, capacity), kept + [TopUp(d.queue[n])], grants)
  {
    var rest, w := d.queue[n..], TopUp(d.queue[n]);
    assert rest[1..] == d.queue[n + 1..];
    JoinStep(rest, v.funds, capacity, kept, grants, v.progress);
    Rotated(d.queue, n, kept, w);
  }

  lemma VisitMidway(d: Desk, n: nat, capacity: nat, v: Desk, kept: seq<Waiter>, grants: seq<Grant>)
    returns (kept': seq<Waiter>, grants': seq<Grant>)
    requires n < |d.queue|
    requires Midway(d, n, capacity, v, kept, grants)
    ensures Midway(d, n + 1, capacity, Visit(v, capacity), kept', grants')
  {
    var w := TopUp(d.queue[n]);
    match F.TryReserve(w.request, w.deficit, v.funds, capacity)
    case Reserved(r, f) =>
      kept', grants' := kept, grants + [Grant(w.ticket, r)];
      VisitServed(d, n, capacity, v, kept, grants, r, f);
    case Refused =>
      kept', grants' := kept + [w], grants;
      VisitKept(d, n, capacity, v, kept, grants);
  }

  lemma {:induction false} VisitsMidway(d: Desk, n: nat, capacity: nat)
    returns (kept: seq<Waiter>, grants: seq<Grant>)
    requires n <= |d.queue| && !d.progress && !d.granted
    ensures Midway(d, n, capacity, Visits(d, n, capacity), kept, grants)
  {
    if n == 0 {
      kept, grants := [], [];
      var o := Pass(d.queue, d.funds, capacity);
      assert d.queue[0..] == d.queue && [] + o.kept == o.kept && [] + o.grants == o.grants;
    } else {
      kept, grants := VisitsMidway(d, n - 1, capacity);
      kept, grants := VisitMidway(d, n - 1, capacity, Visits(d, n - 1, capacity), kept, grants);
    }
  }

  /** The grants made so far are all entered. */
  ghost predicate Tallied(d: Desk, v: Desk, grants: seq<Grant>) {
    && v.completed == Record(d.completed, grants)
    && v.live == d.live + grants
    && v.granted == (grants != [])
  }

  /** The grants made so far and those still to come are the grants of all rounds. */
  ghost predicate Remaining(all: Outcome, queue: seq<Waiter>, f: Funds, capacity: nat, progress: bool,
                            grants: seq<Grant>) {
    if progress then
      var rest := Rounds(queue, f, capacity);
      all.kept == rest.kept && all.grants == grants + rest.grants && all.funds == rest.funds
    else
      all.kept == queue && all.grants == grants && all.funds == f
  }

  /** The desk after some rounds of a dispatch that began at desk `d`. */
  ghost predicate Underway(d: Desk, v: Desk, capacity: nat, grants: seq<Grant>) {
    && Tallied(d, v, grants)
    && Remaining(Rounds(d.queue, d.funds, capacity), v.queue, v.funds, capacity, v.progress, grants)
  }

  /** The desk after one more round, keeping note of whether any round granted. */
  ghost function AfterPass(v: Desk, capacity: nat): Desk {
    var o := Pass(v.queue, v.funds, capacity);
    Desk(o.kept, o.funds, Record(v.completed, o.grants), v.live + o.grants, o.progress, v.granted || o.grants != [])
  }

  lemma RemainingStep(all: Outcome, queue: seq<Waiter>, f: Funds, capacity: nat, grants: seq<Grant>)
    requires queue != []
    requires Remaining(all, queue, f, capacity, true, grants)
    ensures var o := Pass(queue, f, capacity);
            Remaining(all, o.kept, o.funds, capacity, o.progress, grants + o.grants)
  {
    var o := Pass(queue, f, capacity);
    if o.progress {
      var rest := Rounds(o.kept, o.funds, capacity);
      assert grants + (o.grants + rest.grants) == (grants + o.grants) + rest.grants;
    }
  }

  lemma TalliedStep(d: Desk, v: Desk, capacity: nat, grants: seq<Grant>, more: seq<Grant>)
    requires Tallied(d, v, grants)
    requires more == Pass(v.queue, v.funds, capacity).grants
    ensures Tallied(d, AfterPass(v, capacity), grants + more)
  {
    RecordAppend(d.completed, grants, more);
    assert d.live + (grants + more) == (d.live + grants) + more;
  }

  lemma UnderwayStep(d: Desk, v: Desk, capacity: nat, grants: seq<Grant>)
    requires v.queue != [] && v.progress
    requires Underway(d, v, capacity, grants)
    ensures Underway(d, AfterPass(v, capacity), capacity, grants + Pass(v.queue, v.funds, capacity).grants)
  {
    TalliedStep(d, v, capacity, grants, Pass(v.queue, v.funds, capacity).grants);
    RemainingStep(Rounds(d.queue, d.funds, capacity), v.queue, v.funds, capacity, grants);
  }

  lemma UnderwayDone(d: Desk, v: Desk, capacity: nat, grants: seq<Grant>)
    requires Underway(d, v, capacity, grants)
    requires !v.progress || v.queue == []
    ensures var o := Rounds(d.queue, d.funds, capacity);
            v.(progress := false)
            == Desk(o.kept, o.funds, Record(d.completed, o.grants), d.live + o.grants, false, o.grants != [])
  {
    assert grants + [] == grants;
  }

  lemma {:induction false} ReleaseSnoc(queue: seq<Waiter>, w: Waiter)
    ensures Release(queue + [w]) == Release(queue) + [Grant(w.ticket, Reservation(w.request.bytes, 0, 0))]
  {
    if queue == [] {
      assert queue + [w] == [w];
    } else {
      assert (queue + [w])[1..] == queue[1..] + [w];
      ReleaseSnoc(queue[1..], w);
    }
  }

  /** As many visits as the queue is long make exactly one round: rotating the queue in place
      leaves the waiters that were kept, in their old order. */
  lemma VisitsMakeAPass(d: Desk, capacity: nat)
    requires !d.progress && !d.granted
    ensures var o := Pass(d.queue, d.funds, capacity);
            Visits(d, |d.queue|, capacity)
            == Desk(o.kept, o.funds, Record(d.completed, o.grants), d.live + o.grants, o.progress, o.grants != [])
  {
    var n := |d.queue|;
    var kept, grants := VisitsMidway(d, n, capacity);
    assert d.queue[n..] == [];
    assert [] + kept == kept && kept + [] == kept && grants + [] == grants;
  }

  /** Two reservations that cost the same, whatever they are good for. */
  predicate Costs(a: Reservation, b: Reservation) {
    a.creditUnits == b.creditUnits && a.debtUnits == b.debtUnits
  }

  lemma SameCost(b: Bucket, r: Reservation, q: Reservation)
    requires Costs(r, q)
    ensures Refunded(b, r) == Refunded(b, q)
  {
  }

  class BucketState {
    var rate: Rate
    var creditUnits: nat
    var debtUnits: nat
    var lastRefill: nat
    var queue: seq<Waiter>
    var completed: map<nat, Completion>
    ghost var live: seq<Grant>
    ghost var funded: nat

    ghost function State(): Bucket
      reads this
    {
      Bucket(rate, Funds(creditUnits, debtUnits), lastRefill, queue, completed)
    }

    ghost function Book(): Lane
      reads this
    {
      Lane(State(), live, funded)
    }

    constructor (rate: Rate, now: nat)
      ensures Book() == OpenLane(rate, now)
    {
      this.rate := rate;
      creditUnits := SatMul(CapacityBytes(rate), BYTE_UNITS);
      debtUnits := 0;
      lastRefill := now;
      queue := [];
      completed := map[];
      live := [];
      funded := Capacity(rate);
      new;
      CapacityFits(rate);
    }

    method Refill(now: nat)
      requires Valid(State())
      modifies this
      ensures Book() == RefillLane(old(Book()), now)
    {
      var elapsed := if lastRefill <= now then now - lastRefill else 0;
      ghost var earned := Earned(rate, lastRefill, now);
      funded := funded + earned;
      lastRefill := now;
      if rate.BytesPerSecond? {
        var refill := SatMul(elapsed, rate.value);
        var capacity := SatMul(CapacityBytes(rate), BYTE_UNITS);
        CapacityFits(rate);
        SaturatedEarn(Funds(creditUnits, debtUnits), earned, capacity);
        var repaid := Min(refill, debtUnits);
        debtUnits := debtUnits - repaid;
        creditUnits := Min(SatAdd(creditUnits, refill - repaid), capacity);
      }
    }

    method TryReserve(request: Request, deficit: nat) returns (r: Option<Reservation>)
      modifies this`creditUnits, this`debtUnits
      ensures match F.TryReserve(request, deficit, old(Funds(creditUnits, debtUnits)), Capacity(rate))
              case Refused => r == None && Funds(creditUnits, debtUnits) == old(Funds(creditUnits, debtUnits))
              case Reserved(reservation, funds) => r == Some(reservation) && Funds(creditUnits, debtUnits) == funds
    {
      CapacityFits(rate);
      match request {
        case Divisible(bytes) =>
          var available := creditUnits / BYTE_UNITS;
          var grant := Min(Min(Min(bytes, QUANTUM), deficit), available);
          if grant == 0 {
            return None;
          }
          var units := SatMul(grant, BYTE_UNITS);
          creditUnits := creditUnits - units;
          return Some(Reservation(if grant <= U64_MAX then grant else QUANTUM, units, 0));
        case Indivisible(bytes, maxDebt) =>
          if deficit < bytes {
            return None;
          }
          var requested := SatMul(bytes, BYTE_UNITS);
          var capacity := SatMul(CapacityBytes(rate), BYTE_UNITS);
          if requested <= capacity {
            if creditUnits < requested {
              return None;
            }
            creditUnits := creditUnits - requested;
            return Some(Reservation(bytes, requested, 0));
          }
          if creditUnits < capacity {
            return None;
          }
          var debt := requested - capacity;
          if debt > SatMul(maxDebt, BYTE_UNITS) {
            return None;
          }
          creditUnits := 0;
          debtUnits := debt;
          return Some(Reservation(bytes, capacity, debt));
      }
    }

    method GiveBack(reservation: Reservation)
      requires Valid(State())
      modifies this`creditUnits, this`debtUnits
      ensures State() == Refunded(old(State()), reservation)
    {
      CapacityFits(rate);
      debtUnits := if debtUnits >= reservation.debtUnits then debtUnits - reservation.debtUnits else 0;
      creditUnits := Min(SatAdd(creditUnits, reservation.creditUnits), SatMul(CapacityBytes(rate), BYTE_UNITS));
    }

    ghost function OnDesk(progress: bool, granted: bool): Desk
      reads this
    {
      Desk(queue, Funds(creditUnits, debtUnits), completed, live, progress, granted)
    }

    method VisitFront(progress: bool, granted: bool) returns (progress': bool, granted': bool)
      requires queue != []
      modifies this`queue, this`creditUnits, this`debtUnits, this`completed, this`live
      ensures OnDesk(progress', granted') == Visit(old(OnDesk(progress, granted)), Capacity(rate))
    {
      var waiter := queue[0];
      queue := queue[1..];
      var previous := waiter.deficit;
      waiter := waiter.(deficit := Min(Min(waiter.deficit + QUANTUM, U64_MAX), waiter.request.bytes));
      progress', granted' := progress || waiter.deficit > previous, granted;
      var reservation := TryReserve(waiter.request, waiter.deficit);
      if reservation.Some? {
        completed := completed[waiter.ticket := Ok(reservation.value)];
        live := live + [Grant(waiter.ticket, reservation.value)];
        granted', progress' := true, true;
      } else {
        queue := queue + [waiter];
      }
    }

    method Round() returns (progress: bool, granted: bool)
      modifies this`queue, this`creditUnits, this`debtUnits, this`completed, this`live
      ensures var o := Pass(old(queue), old(Funds(creditUnits, debtUnits)), Capacity(rate));
              OnDesk(progress, granted)
              == Desk(o.kept, o.funds, Record(old(completed), o.grants), old(live) + o.grants, o.progress,
                o.grants != [])
    {
      progress, granted := false, false;
      ghost var desk := OnDesk(false, false);
      VisitsMakeAPass(desk, Capacity(rate));
      var length := |queue|;
      for i := 0 to length
        invariant OnDesk(progress, granted) == Visits(desk, i, Capacity(rate))
      {
        if queue != [] {
          progress, granted := VisitFront(progress, granted);
        }
      }
    }

    /** Rounds until one makes no progress. */
    method ServeRounds() returns (granted: bool)
      modifies this`queue, this`creditUnits, this`debtUnits, this`completed, this`live
      ensures var o := Rounds(old(queue), old(Funds(creditUnits, debtUnits)), Capacity(rate));
              OnDesk(false, granted)
              == Desk(o.kept, o.funds, Record(old(completed), o.grants), old(live) + o.grants, false, o.grants != [])
    {
      var progress := true;
      granted := false;
      ghost var desk, capacity, grants := OnDesk(true, false), Capacity(rate), [];
      assert desk.live + [] == desk.live;
      while progress && queue != []
        invariant Underway(desk, OnDesk(progress, granted), capacity, grants)
        decreases Work(queue), progress
      {
        ghost var v := OnDesk(progress, granted);
        UnderwayStep(desk, v, capacity, grants);
        var served;
        progress, served := Round();
        granted := granted || served;
        assert OnDesk(progress, granted) == AfterPass(v, capacity);
        grants := grants + Pass(v.queue, v.funds, capacity).grants;
      }
      UnderwayDone(desk, OnDesk(progress, granted), capacity, grants);
    }

    /** Answers everybody in the queue of an unlimited bucket. */
    method ReleaseAll()
      modifies this`queue, this`completed, this`live
      ensures queue == []
      ensures completed == Record(old(completed), Release(old(queue)))
      ensures live == old(live) + Release(old(queue))
    {
      ghost var start, n := queue, 0;
      while queue != []
        invariant 0 <= n <= |start| && queue == start[n..]
        invariant completed == Record(old(completed), Release(start[..n]))
        invariant live == old(live) + Release(start[..n])
        decreases |queue|
      {
        var waiter := queue[0];
        assert start[..n + 1] == start[..n] + [waiter];
        ReleaseSnoc(start[..n], waiter);
        ghost var g := Grant(waiter.ticket, Reservation(waiter.request.bytes, 0, 0));
        RecordSnoc(old(completed), Release(start[..n]), g);
        queue := queue[1..];
        completed := completed[waiter.ticket := Ok(Reservation(waiter.request.bytes, 0, 0))];
        live := live + [g];
        n := n + 1;
      }
      assert start[..n] == start;
    }

    method Dispatch(now: nat) returns (granted: bool)
      requires Valid(State())
      modifies this
      ensures Book() == DispatchLane(old(Book()), now)
      ensures granted <==> Granted(old(State()), now) != []
    {
      Refill(now);
      if queue == [] {
        return false;
      }
      if rate.Unlimited? {
        ReleaseAll();
        return true;
      }
      if debtUnits > 0 {
        return false;
      }
      granted := ServeRounds();
    }

    /** The least credit any waiter still lacks. */
    method ScanNeeded() returns (needed: nat)
      requires queue != []
      ensures needed == LeastNeeded(queue, creditUnits, Capacity(rate))
    {
      CapacityFits(rate);
      var capacity := SatMul(CapacityBytes(rate), BYTE_UNITS);
      needed := Lack(queue[0].request, creditUnits, capacity);
      var i := 1;
      while i < |queue|
        invariant 1 <= i <= |queue|
        invariant LeastNeeded(queue, creditUnits, capacity)
                  == if i == |queue| then needed else Min(needed, LeastNeeded(queue[i..], creditUnits, capacity))
      {
        assert queue[i..][1..] == queue[i + 1..];
        needed := Min(needed, Lack(queue[i].request, creditUnits, capacity));
        i := i + 1;
      }
    }

    /** The units to wait for. */
    method NeededUnits() returns (needed: nat)
      requires Valid(State()) && queue != []
      ensures needed <= (U64_MAX + 1) * BYTE_UNITS
      ensures needed == if debtUnits > 0 then debtUnits + BYTE_UNITS
                        else LeastNeeded(queue, creditUnits, Capacity(rate))
    {
      if debtUnits > 0 {
        needed := SatAdd(debtUnits, BYTE_UNITS);
      } else {
        needed := ScanNeeded();
        LeastNeededFits(queue, creditUnits, rate);
      }
    }

    method NextDeadline(now: nat) returns (deadline: Option<nat>)
      requires Valid(State())
      ensures deadline == BandwidthBucket.NextDeadline(State(), now)
    {
      if rate.Unlimited? || queue == [] {
        return None;
      }
      var needed := NeededUnits();
      if needed == 0 {
        NoWait(rate.value);
        return Some(now);
      }
      return Some(now + WaitNanos(needed, rate.value));
    }

    /** Keeps the queued waiters a bucket of the new rate may serve and refuses the others. */
    method Screen()
      modifies this`queue, this`completed
      ensures queue == Retained(old(queue), rate)
      ensures completed == Rejected(old(queue), rate, old(completed))
    {
      var capacity := CapacityBytes(rate);
      var retained: seq<Waiter> := [];
      ghost var start := queue;
      while queue != []
        invariant retained + Retained(queue, rate) == Retained(start, rate)
        invariant Rejected(queue, rate, completed) == Rejected(start, rate, old(completed))
        decreases |queue|
      {
        var waiter := queue[0];
        ghost var rest := Retained(queue[1..], rate);
        assert retained + ([waiter] + rest) == (retained + [waiter]) + rest;
        queue := queue[1..];
        if waiter.request.Divisible? {
          retained := retained + [waiter];
        } else if rate.Unlimited? || waiter.request.bytes <= SatAdd(capacity, waiter.request.maxDebt) {
          retained := retained + [waiter];
        } else {
          completed := completed[waiter.ticket :=
            Err(IndivisibleDebtLimit(waiter.request.bytes, capacity, waiter.request.maxDebt))];
        }
      }
      assert retained + [] == retained;
      queue := retained;
    }

    method Update(newRate: Rate, now: nat)
      requires Valid(State())
      modifies this
      ensures Book() == RefillLane(old(Book()), now).(bucket := Updated(old(State()), newRate, now))
    {
      Refill(now);
      rate := newRate;
      CapacityFits(newRate);
      creditUnits := Min(creditUnits, SatMul(CapacityBytes(newRate), BYTE_UNITS));
      lastRefill := now;
      Screen();
    }

    /** Dispatches and collects the completion of `ticket`, or says how long to sleep. */
    method Collect(ticket: nat, now: nat) returns (queued: Option<nat>, reply: Reply)
      requires Valid(State())
      modifies this
      ensures Book() == Looked(old(Book()), ticket, now)
      ensures forall next :: var p := PollBucket(old(State()), next, ticket, now);
              queued == p.queued && reply == p.reply
    {
      DispatchedValid(State(), now);
      var granted := Dispatch(now);
      MissingKey(completed, ticket);
      if ticket in completed {
        queued, reply := None, Done(completed[ticket]);
        completed := completed - {ticket};
      } else {
        var deadline := NextDeadline(now);
        queued, reply := Some(ticket), Wait(deadline);
      }
    }

    /** Joins the queue with `ticket` and takes a first look. */
    method Enter(ticket: nat, request: Request, now: nat) returns (queued: Option<nat>, reply: Reply)
      requires Valid(Enqueued(State(), ticket, Bounded(request)))
      modifies this
      ensures Book() == Arrived(old(Book()), ticket, request, now)
      ensures var p := PollBucket(Enqueued(old(State()), ticket, Bounded(request)), ticket + 1, ticket, now);
              queued == p.queued && reply == p.reply
    {
      queue := queue + [Waiter(ticket, Bounded(request), 0)];
      queued, reply := Collect(ticket, now);
    }

    method RemoveWaiter(ticket: nat)
      modifies this`queue
      ensures queue == Without(old(queue), ticket)
    {
      var i := 0;
      while i < |queue| && queue[i].ticket != ticket
        invariant 0 <= i <= |queue|
        invariant Without(queue, ticket) == queue[..i] + Without(queue[i..], ticket)
      {
        assert queue[i..][1..] == queue[i + 1..];
        assert queue[..i] + ([queue[i]] + Without(queue[i + 1..], ticket))
            == queue[..i + 1] + Without(queue[i + 1..], ticket);
        i := i + 1;
      }
      if i < |queue| {
        assert queue[i..][1..] == queue[i + 1..];
        queue := queue[..i] + queue[i + 1..];
      } else {
        assert queue[..i] + [] == queue;
      }
    }

    /** A rate change and the dispatch after it. */
    method Rerate(newRate: Rate, now: nat)
      requires Valid(State()) && Settled(State())
      modifies this
      ensures Book() == Rerated(old(Book()), newRate, now)
    {
      UpdatedValid(State(), newRate, now);
      Update(newRate, now);
      var granted := Dispatch(now);
    }

    /** Gives a reservation, perhaps merged from those of several grants, back and dispatches.
        One that cost nothing leaves no trace but the dispatch. */
    method Return(reservation: Reservation, now: nat, ghost tickets: seq<nat>)
      requires Valid(State())
      requires Holds(Book(), tickets) && Costs(reservation, Merged(live, tickets))
      modifies this
      ensures Book() == Returned(old(Book()), tickets, now)
    {
      ghost var full := RefillLane(Book(), now);
      RefilledValid(State(), now);
      Refill(now);
      RefundedValid(State(), reservation);
      SameCost(full.bucket, reservation, Merged(live, tickets));
      GiveBack(reservation);
      live := StrikeAll(live, tickets);
      assert Book() == GiveBackLane(full, tickets);
      var granted := Dispatch(now);
    }

    /** Takes `ticket` out of the queue, and gives back a reservation it has not claimed. */
    method Withdraw(ticket: nat)
      requires Valid(State())
      modifies this
      ensures Book() == WithdrawLane(old(Book()), ticket)
    {
      ClearedLined(rate, queue, completed, ticket);
      RemoveWaiter(ticket);
      MissingKey(completed, ticket);
      if ticket in completed {
        var completion := completed[ticket];
        completed := completed - {ticket};
        if completion.Ok? {
          GiveBack(completion.reservation);
          live := Strike(live, ticket);
        }
      }
    }

    method Cancel(ticket: nat, now: nat)
      requires Valid(State())
      modifies this
      ensures Book() == Cancelled(old(Book()), ticket, now)
    {
      WithdrawnValid(State(), ticket);
      Withdraw(ticket);
      var granted := Dispatch(now);
    }
  }

  /** Both directions of a route behind one lock.  Each method is one locked section, and is
      proved to be one `Step` of the model, so what is proved about runs holds of it. */
  class RouteBandwidthLimiter {
    const upload: BucketState
    const download: BucketState
    var nextTicket: nat

    ghost function Model(): Limiter
      reads this, upload, download
    {
      Limiter(upload.Book(), download.Book(), nextTicket)
    }

    ghost predicate Consistent()
      reads this, upload, download
    {
      upload != download && Inv(Model())
    }

    constructor (uploadRate: Rate, downloadRate: Rate, now: nat)
      ensures Consistent() && fresh(upload) && fresh(download)
      ensures Model() == NewLimiter(uploadRate, downloadRate, now)
    {
      upload := new BucketState(uploadRate, now);
      download := new BucketState(downloadRate, now);
      nextTicket := 1;
      new;
      NewLimiterInv(uploadRate, downloadRate, now);
    }

    function Bucket(direction: Direction): BucketState {
      if direction.Upload? then upload else download
    }

    method ValidateRequest(direction: Direction, request: Request) returns (error: Option<Error>)
      ensures error == if Oversized(request, Bucket(direction).rate)
                       then Some(IndivisibleDebtLimit(request.bytes, CapacityBytes(Bucket(direction).rate),
                         request.maxDebt))
                       else None
      requires Bucket(direction).rate.BytesPerSecond?
    {
      if request.Divisible? {
        return None;
      }
      var capacity := CapacityBytes(Bucket(direction).rate);
      if request.bytes > SatAdd(capacity, request.maxDebt) {
        return Some(IndivisibleDebtLimit(request.bytes, capacity, request.maxDebt));
      }
      return None;
    }

    /** Answers a first attempt at once, or says that it has to take a ticket. */
    method Answer(direction: Direction, request: Request, ghost now: nat) returns (answer: Option<Completion>)
      ensures var b := Bucket(direction).State();
              if Admissible(b, request) then answer == None
              else
                && answer.Some?
                && ArriveBucket(b, nextTicket, request, now) == Polled(b, nextTicket, None, Done(answer.value))
    {
      var bucket := Bucket(direction);
      if request.bytes == 0 {
        return Some(Ok(Reservation(0, 0, 0)));
      }
      if bucket.rate.Unlimited? {
        return Some(Ok(Reservation(request.bytes, 0, 0)));
      }
      var error := ValidateRequest(direction, Bounded(request));
      if error.Some? {
        return Some(Err(error.value));
      }
      if |bucket.queue| + |bucket.completed| >= MAX_PENDING {
        return Some(Err(QueueFull(MAX_PENDING)));
      }
      return None;
    }

    method FirstLook(direction: Direction, request: Request, now: nat)
      returns (queued: Option<nat>, reply: Reply)
      requires Consistent()
      modifies this, upload, download
      ensures Model() == Step(old(Model()), On(direction, Arrive(request, now)))
      ensures var p := ArriveBucket(old(Bucket(direction).State()), old(nextTicket), request, now);
              queued == p.queued && reply == p.reply
    {
      ghost var before := Model();
      StepArrive(before, direction, request, now);
      var answer := Answer(direction, request, now);
      if answer.Some? {
        return None, Done(answer.value);
      }
      EnteredValid(before, direction, request);
      queued, reply := Bucket(direction).Enter(nextTicket, request, now);
      nextTicket := nextTicket + 1;
      assert Model() == before.With(direction, Bucket(direction).Book()).(nextTicket := nextTicket);
    }

    /** The locked section of one turn of `acquire`: a first attempt, or another look by a task
        that already waits with a ticket. */
    method Acquire(direction: Direction, request: Request, queued: Option<nat>, now: nat)
      returns (queued': Option<nat>, reply: Reply)
      requires Consistent()
      modifies this, upload, download
      ensures Consistent()
      ensures Model() == Step(old(Model()), On(direction,
                if queued.None? then Arrive(request, now) else Poll(queued.value, now)))
      ensures var b := old(Bucket(direction).State());
              var p := if queued.None? then ArriveBucket(b, old(nextTicket), request, now)
                       else PollBucket(b, old(nextTicket), queued.value, now);
              queued' == p.queued && reply == p.reply
    {
      if queued.None? {
        queued', reply := FirstLook(direction, request, now);
      } else {
        queued', reply := Bucket(direction).Collect(queued.value, now);
      }
      StepKeeps(old(Model()), On(direction, if queued.None? then Arrive(request, now) else Poll(queued.value, now)));
    }

    /** A waiting task goes away. */
    method Cancel(direction: Direction, ticket: nat, now: nat)
      requires Consistent()
      modifies upload, download
      ensures Consistent()
      ensures Model() == Step(old(Model()), On(direction, Op.Cancel(ticket, now)))
    {
      Bucket(direction).Cancel(ticket, now);
      assert Model() == Step(old(Model()), On(direction, Op.Cancel(ticket, now)));
      StepKeeps(old(Model()), On(direction, Op.Cancel(ticket, now)));
    }

    /** The holder of grants gives them back, merged into one reservation.  `tickets` names the
        ledger entries they came from; a grant made at once by an unlimited direction has none
        and cost nothing. */
    method RefundReservation(direction: Direction, reservation: Reservation, now: nat, ghost tickets: seq<nat>)
      requires Consistent()
      requires var lane := Model().Lane(direction);
               Holds(lane, tickets) && Costs(reservation, Merged(lane.live, tickets))
      modifies upload, download
      ensures Consistent()
      ensures Model() == Step(old(Model()), On(direction, Refund(tickets, now)))
    {
      Bucket(direction).Return(reservation, now, tickets);
      assert Model() == Step(old(Model()), On(direction, Refund(tickets, now)));
      StepKeeps(old(Model()), On(direction, Refund(tickets, now)));
    }

    method UpdatePolicy(uploadRate: Rate, downloadRate: Rate, now: nat)
      requires Consistent()
      modifies upload, download
      ensures Consistent()
      ensures Model() == Step(old(Model()), Event.UpdatePolicy(uploadRate, downloadRate, now))
    {
      ghost var before := Model();
      upload.Rerate(uploadRate, now);
      ghost var rerated := upload.Book();
      assert download.Book() == before.download;
      download.Rerate(downloadRate, now);
      assert upload.Book() == rerated;
      StepPolicy(before, uploadRate, downloadRate, now);
      StepKeeps(old(Model()), Event.UpdatePolicy(uploadRate, downloadRate, now));
    }
  }

  lemma StepPolicy(l: Limiter, upload: Rate, download: Rate, now: nat)
    ensures Step(l, Event.UpdatePolicy(upload, download, now))
            == Limiter(Rerated(l.upload, upload, now), Rerated(l.download, download, now), l.nextTicket)
  {
  }

  lemma StepArrive(l: Limiter, direction: Direction, request: Request, now: nat)
    ensures var lane := l.Lane(direction);
            var after, p := Step(l, On(direction, Arrive(request, now))),
              ArriveBucket(lane.bucket, l.nextTicket, request, now);
            if Admissible(lane.bucket, request) then
              && after == l.With(direction, Arrived(lane, l.nextTicket, request, now)).(nextTicket := l.nextTicket + 1)
              && p == PollBucket(Enqueued(lane.bucket, l.nextTicket, Bounded(request)), l.nextTicket + 1, l.nextTicket,
                 now)
            else
              after == l
  {
  }

  lemma EnteredValid(l: Limiter, direction: Direction, request: Request)
    requires Inv(l)
    requires Admissible(l.Lane(direction).bucket, request)
    ensures Valid(Enqueued(l.Lane(direction).bucket, l.nextTicket, Bounded(request)))
  {
    EnqueueSane(l.Lane(direction), l.nextTicket, request);
  }

  lemma WithdrawnValid(b: Bucket, ticket: nat)
    requires Valid(b)
    ensures Valid(Withdrawn(b, ticket))
  {
    ClearedLined(b.rate, b.queue, b.completed, ticket);
  }
}
