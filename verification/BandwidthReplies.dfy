/** What a caller is told: the reservation that is charged to it, or the refusal of its own
    request, and nothing else. */
module BandwidthReplies {
  import opened Basics
  import opened BandwidthTypes
  import opened BandwidthFunds
  import opened BandwidthDispatch
  import opened BandwidthBucket
  import opened BandwidthUpdate
  import opened BandwidthLimiter
  import opened BandwidthLedger
  import opened BandwidthRuns

  // ----- requests and what may come of them

  /** What waits for a request: a divisible one is cut down to a quantum. */
  ghost predicate Wanted(waiting: Request, asked: Request) {
    match asked
    case Divisible(bytes) => waiting == Divisible(Min(bytes, QUANTUM))
    case Indivisible(_, _) => waiting == asked
  }

  /** A reservation for a request: some of its bytes, or all of an item's. */
  ghost predicate Fulfils(r: Reservation, asked: Request) {
    match asked
    case Divisible(bytes) => 1 <= r.bytes <= Min(bytes, QUANTUM)
    case Indivisible(bytes, _) => r.bytes == bytes
  }

  /** A refusal of a request, for a capacity that it exceeds. */
  ghost predicate Refuses(e: Error, asked: Request) {
    && asked.Indivisible? && e.IndivisibleDebtLimit?
    && e.bytes == asked.bytes && e.maxDebt == asked.maxDebt && asked.bytes > e.capacityBytes + asked.maxDebt
  }

  ghost predicate Answered(c: Completion, asked: Request) {
    match c
    case Ok(r) => Fulfils(r, asked)
    case Err(e) => Refuses(e, asked)
  }

  type Requests = map<nat, Request>

  ghost predicate QueueAsked(queue: seq<Waiter>, asked: Requests) {
    forall w :: w in queue ==> w.ticket in asked && Wanted(w.request, asked[w.ticket])
  }

  ghost predicate CompletedAsked(completed: map<nat, Completion>, asked: Requests) {
    forall t :: t in completed ==> t in asked && Answered(completed[t], asked[t])
  }

  ghost predicate LiveAsked(live: seq<Grant>, asked: Requests) {
    forall g :: g in live ==> g.ticket in asked && Fulfils(g.reservation, asked[g.ticket])
  }

  /** Whoever is refused is not charged. */
  ghost predicate RefusedFree(completed: map<nat, Completion>, live: seq<Grant>) {
    forall t :: t in completed && completed[t].Err? ==> t !in GrantTickets(live)
  }

  /** Everything a direction holds is for the requests that were made. */
  ghost predicate Answers(l: Lane, asked: Requests) {
    && QueueAsked(l.bucket.queue, asked)
    && CompletedAsked(l.bucket.completed, asked)
    && LiveAsked(l.live, asked)
    && RefusedFree(l.bucket.completed, l.live)
  }

  // ----- a dispatch

  lemma {:induction false} ReleaseWhole(queue: seq<Waiter>)
    ensures |Release(queue)| == |queue|
    ensures forall i :: 0 <= i < |queue| ==>
                          Release(queue)[i] == Grant(queue[i].ticket, Reservation(queue[i].request.bytes, 0, 0))
  {
    if queue == [] {
    } else {
      ReleaseWhole(queue[1..]);
    }
  }

  /** An unlimited direction grants everybody everything at no cost. */
  lemma UnlimitedGrants(b: Bucket, now: nat)
    requires b.rate.Unlimited?
    ensures var grants := Granted(b, now);
            && |grants| == |b.queue| && Dispatched(b, now).queue == [] && Dispatched(b, now).funds == b.funds
            && forall i :: 0 <= i < |b.queue| ==>
                 grants[i] == Grant(b.queue[i].ticket, Reservation(b.queue[i].request.bytes, 0, 0))
  {
    ReleaseWhole(b.queue);
  }

  /** The requests of a queue ask for something. */
  ghost predicate Positive(queue: seq<Waiter>) {
    forall w :: w in queue ==> w.request.bytes > 0
  }

  lemma GrantFulfils(b: Bucket, now: nat, asked: Requests, g: Grant)
    requires Valid(b) && QueueAsked(b.queue, asked) && Positive(b.queue)
    requires g in Granted(b, now)
    ensures g.ticket in asked && Fulfils(g.reservation, asked[g.ticket])
  {
    RefilledValid(b, now);
    SettleSound(Refilled(b, now));
    if b.rate.Unlimited? {
      UnlimitedGrants(b, now);
      var i :| 0 <= i < |b.queue| && Granted(b, now)[i] == g;
      assert b.queue[i] in b.queue;
    } else {
      var w :| w in b.queue && w.ticket == g.ticket && WellFormed(g.reservation, w.request, Capacity(b.rate));
    }
  }

  lemma KeptAsked(kept: seq<Waiter>, queue: seq<Waiter>, asked: Requests)
    requires Descends(kept, queue) && QueueAsked(queue, asked)
    ensures QueueAsked(kept, asked)
  {
    forall k | k in kept
      ensures k.ticket in asked && Wanted(k.request, asked[k.ticket])
    {
      var w :| w in queue && w.ticket == k.ticket && w.request == k.request && w.deficit <= k.deficit;
    }
  }

  lemma RecordAnswers(completed: map<nat, Completion>, grants: seq<Grant>, live: seq<Grant>, asked: Requests)
    requires Distinct(grants) && CompletedAsked(completed, asked) && LiveAsked(live, asked) && LiveAsked(grants, asked)
    requires RefusedFree(completed, live) && GrantTickets(grants) !! completed.Keys
    ensures CompletedAsked(Record(completed, grants), asked) && LiveAsked(live + grants, asked)
    ensures RefusedFree(Record(completed, grants), live + grants)
  {
    RecordLookup(completed, grants);
    GrantTicketsAppend(live, grants);
    forall t | t in Record(completed, grants) && t !in completed
      ensures t in asked && Answered(Record(completed, grants)[t], asked[t]) && Record(completed, grants)[t].Ok?
    {
      var g :| g in grants && g.ticket == t;
    }
  }

  lemma DispatchAnswers(l: Lane, now: nat, asked: Requests)
    requires Valid(l.bucket) && Positive(l.bucket.queue) && Answers(l, asked)
    ensures Answers(DispatchLane(l, now), asked)
  {
    var grants := Granted(l.bucket, now);
    forall g | g in grants
      ensures g.ticket in asked && Fulfils(g.reservation, asked[g.ticket])
    {
      GrantFulfils(l.bucket, now, asked, g);
    }
    RefilledValid(l.bucket, now);
    SettleSound(Refilled(l.bucket, now));
    KeptAsked(Settle(Refilled(l.bucket, now)).kept, l.bucket.queue, asked);
    RecordAnswers(l.bucket.completed, grants, l.live, asked);
  }

  // ----- the operations

  lemma AdmittedPositive(queue: seq<Waiter>, capacity: nat)
    requires AllAdmitted(queue, capacity)
    ensures Positive(queue)
  {
  }

  lemma EnterAnswers(l: Lane, nextTicket: nat, request: Request, asked: Requests)
    requires Sane(l, nextTicket) && Answers(l, asked)
    ensures Answers(l.(bucket := Enqueued(l.bucket, nextTicket, Bounded(request))), asked[nextTicket := request])
  {
  }

  lemma ClaimAnswers(l: Lane, ticket: nat, asked: Requests)
    requires Answers(l, asked)
    ensures Answers(Claimed(l, ticket), asked)
  {
  }

  lemma ArriveAnswers(l: Lane, nextTicket: nat, request: Request, now: nat, asked: Requests)
    requires Sane(l, nextTicket) && Admissible(l.bucket, request) && Answers(l, asked)
    ensures Answers(Arrived(l, nextTicket, request, now), asked[nextTicket := request])
  {
    var entered := l.(bucket := Enqueued(l.bucket, nextTicket, Bounded(request)));
    EnqueueSane(l, nextTicket, request);
    EnterAnswers(l, nextTicket, request, asked);
    AdmittedPositive(entered.bucket.queue, Capacity(l.bucket.rate));
    DispatchAnswers(entered, now, asked[nextTicket := request]);
    ClaimAnswers(DispatchLane(entered, now), nextTicket, asked[nextTicket := request]);
  }

  lemma WithdrawAnswers(l: Lane, nextTicket: nat, ticket: nat, asked: Requests)
    requires Sane(l, nextTicket) && Answers(l, asked)
    ensures Answers(WithdrawLane(l, ticket), asked)
  {
    WithoutMembers(l.bucket.queue, ticket);
    StrikeLedger(l.live, ticket);
  }

  lemma {:induction false} StrikeAllSubset(live: seq<Grant>, tickets: seq<nat>)
    requires Distinct(live)
    ensures forall g :: g in StrikeAll(live, tickets) ==> g in live
    decreases tickets
  {
    if tickets == [] {
    } else {
      StrikeLedger(live, tickets[0]);
      StrikeAllSubset(Strike(live, tickets[0]), tickets[1..]);
    }
  }

  lemma GiveBackAnswers(l: Lane, tickets: seq<nat>, asked: Requests)
    requires Distinct(l.live) && Answers(l, asked)
    ensures Answers(GiveBackLane(l, tickets), asked)
  {
    StrikeAllSubset(l.live, tickets);
  }

  lemma UpdateAnswers(b: Bucket, live: seq<Grant>, rate: Rate, now: nat, asked: Requests, funded: nat)
    requires Valid(b) && Answers(Lane(b, live, funded), asked) && GrantTickets(live) !! Tickets(b.queue)
    ensures Answers(Lane(Updated(b, rate, now), live, funded), asked)
  {
    var m := Rejected(b.queue, rate, b.completed);
    RetainedMembers(b.queue, rate);
    RejectedLookup(b.queue, rate, b.completed);
    RejectedKeys(b.queue, rate, b.completed);
    forall t | t in m && t !in b.completed
      ensures t in asked && m[t].Err? && Refuses(m[t].error, asked[t]) && t !in GrantTickets(live)
    {
      RefusedIsWaiter(b.queue, rate, b.completed, t);
      var w :| w in b.queue && w.ticket == t && Oversized(w.request, rate);
    }
  }

  lemma RefusedIsWaiter(queue: seq<Waiter>, rate: Rate, completed: map<nat, Completion>, t: nat)
    requires Ordered(queue) && Tickets(queue) !! completed.Keys
    requires t in Rejected(queue, rate, completed) && t !in completed
    ensures exists w :: w in queue && w.ticket == t && Oversized(w.request, rate)
  {
    RejectedKeys(queue, rate, completed);
    RetainedMembers(queue, rate);
    var w :| w in queue && w.ticket == t;
    assert w.ticket !in Tickets(Retained(queue, rate));
    if !Oversized(w.request, rate) {
      assert w in Retained(queue, rate);
    }
  }

  lemma LanePositive(l: Lane, nextTicket: nat)
    requires LaneInv(l, nextTicket)
    ensures Positive(l.bucket.queue)
  {
    if l.bucket.rate.BytesPerSecond? {
      AdmittedPositive(l.bucket.queue, Capacity(l.bucket.rate));
    }
  }

  lemma CancelAnswers(l: Lane, nextTicket: nat, ticket: nat, now: nat, asked: Requests)
    requires LaneInv(l, nextTicket) && Answers(l, asked)
    ensures Answers(Cancelled(l, ticket, now), asked)
  {
    LanePositive(l, nextTicket);
    WithdrawSane(l, nextTicket, ticket);
    WithdrawAnswers(l, nextTicket, ticket, asked);
    WithoutMembers(l.bucket.queue, ticket);
    DispatchAnswers(WithdrawLane(l, ticket), now, asked);
  }

  lemma ReturnAnswers(l: Lane, nextTicket: nat, tickets: seq<nat>, now: nat, asked: Requests)
    requires LaneInv(l, nextTicket) && Answers(l, asked) && Holds(l, tickets)
    ensures Answers(Returned(l, tickets, now), asked)
  {
    var full := RefillLane(l, now);
    LanePositive(l, nextTicket);
    RefillSane(l, nextTicket, now);
    GiveBackSane(full, nextTicket, tickets);
    GiveBackAnswers(full, tickets, asked);
    DispatchAnswers(GiveBackLane(full, tickets), now, asked);
  }

  lemma RerateAnswers(l: Lane, nextTicket: nat, rate: Rate, now: nat, asked: Requests)
    requires LaneInv(l, nextTicket) && Answers(l, asked)
    ensures Answers(Rerated(l, rate, now), asked)
  {
    var updated := RefillLane(l, now).(bucket := Updated(l.bucket, rate, now));
    LanePositive(l, nextTicket);
    UpdatedValid(l.bucket, rate, now);
    UpdateAnswers(l.bucket, l.live, rate, now, asked, updated.funded);
    RetainedMembers(l.bucket.queue, rate);
    DispatchAnswers(updated, now, asked);
  }

  /** The requests made, with one more if the operation takes a ticket. */
  function AskedBy(l: Lane, nextTicket: nat, op: Op, asked: Requests): Requests {
    if Enters(l, op) then asked[nextTicket := op.request] else asked
  }

  lemma StepAnswers(l: Lane, nextTicket: nat, op: Op, asked: Requests)
    requires LaneInv(l, nextTicket) && Answers(l, asked)
    ensures Answers(StepLane(l, nextTicket, op), AskedBy(l, nextTicket, op, asked))
  {
    match op
    case Arrive(request, now) =>
      if Enters(l, op) {
        ArriveAnswers(l, nextTicket, request, now, asked);
      }
    case Poll(ticket, now) =>
      LanePositive(l, nextTicket);
      DispatchAnswers(l, now, asked);
      ClaimAnswers(DispatchLane(l, now), ticket, asked);
    case Cancel(ticket, now) => CancelAnswers(l, nextTicket, ticket, now, asked);
    case Refund(tickets, now) =>
      if Holds(l, tickets) {
        ReturnAnswers(l, nextTicket, tickets, now, asked);
      }
    case Rerate(rate, now) => RerateAnswers(l, nextTicket, rate, now, asked);
  }

  // ----- whole runs

  /** The requests made in a run, by their tickets. */
  function AskedIn(l: Limiter, events: seq<Event>, direction: Direction, asked: Requests): Requests
    decreases events
  {
    if events == [] then asked
    else
      var op := Seen(events[0], direction);
      var more := if op.Some? then AskedBy(l.Lane(direction), l.nextTicket, op.value, asked) else asked;
      AskedIn(Step(l, events[0]), events[1..], direction, more)
  }

  lemma {:induction false} RunAnswersFrom(l: Limiter, events: seq<Event>, direction: Direction, asked: Requests)
    requires Inv(l) && Answers(l.Lane(direction), asked)
    ensures Answers(Run(l, events).Lane(direction), AskedIn(l, events, direction, asked))
    decreases events
  {
    if events == [] {
    } else {
      var e, next, op := events[0], Step(l, events[0]), Seen(events[0], direction);
      StepKeeps(l, e);
      StepOnLane(l, e, direction);
      var more := if op.Some? then AskedBy(l.Lane(direction), l.nextTicket, op.value, asked) else asked;
      if op.Some? {
        StepAnswers(l.Lane(direction), l.nextTicket, op.value, asked);
      }
      RunAnswersFrom(next, events[1..], direction, more);
    }
  }

  /** In every run from a new limiter, whatever a direction holds is for a request made in it. */
  lemma RunAnswers(upload: Rate, download: Rate, start: nat, events: seq<Event>, direction: Direction)
    ensures var l := NewLimiter(upload, download, start);
            Answers(Run(l, events).Lane(direction), AskedIn(l, events, direction, map[]))
  {
    var l := NewLimiter(upload, download, start);
    NewLimiterInv(upload, download, start);
    assert GrantTickets([]) == {};
    RunAnswersFrom(l, events, direction, map[]);
  }

  // ----- the replies

  /** What is answered to a ticket that leaves, or does not. */
  ghost predicate Told(reply: Reply, ticket: nat, leaves: bool, live: seq<Grant>, asked: Requests) {
    && (reply.Done? <==> leaves)
    && (forall r :: reply == Done(Ok(r)) <==> leaves && Grant(ticket, r) in live)
    && (reply.Done? ==> ticket in asked && Answered(reply.completion, asked[ticket]))
  }

  /** A completion and the ledger tell the same. */
  lemma ClaimTold(l: Lane, nextTicket: nat, ticket: nat, asked: Requests, reply: Reply)
    requires Sane(l, nextTicket) && Answers(l, asked)
    requires reply.Done? <==> ticket in l.bucket.completed
    requires reply.Done? ==> reply.completion == l.bucket.completed[ticket]
    ensures Told(reply, ticket, ticket in l.bucket.completed, l.live, asked)
  {
  }

  /** A poll is answered with the reservation that is charged to the ticket, or with the refusal
      of the request the ticket stands for, exactly when the ticket leaves. */
  lemma PollTold(l: Lane, nextTicket: nat, ticket: nat, now: nat, asked: Requests)
    requires LaneInv(l, nextTicket) && Answers(l, asked)
    ensures var p, after := PollBucket(l.bucket, nextTicket, ticket, now), StepLane(l, nextTicket, Poll(ticket, now));
            && Told(p.reply, ticket, ticket in Held(l.bucket) && ticket !in Held(after.bucket), after.live, asked)
            && (p.reply.Wait? ==> p.reply.deadline == NextDeadline(after.bucket, now))
            && p.queued == if p.reply.Wait? then Some(ticket) else None
  {
    var d := DispatchLane(l, now);
    var p := PollBucket(l.bucket, nextTicket, ticket, now);
    DispatchSane(l, nextTicket, now);
    LanePositive(l, nextTicket);
    DispatchAnswers(l, now, asked);
    ClaimTold(d, nextTicket, ticket, asked, p.reply);
    PollHeld(l.bucket, nextTicket, ticket, now);
    StepLaneFollows(l, nextTicket, Poll(ticket, now));
  }

  lemma EnteredOk(b: Bucket, nextTicket: nat, now: nat)
    requires Valid(b) && nextTicket !in b.completed
    ensures var d := Dispatched(b, now); nextTicket in d.completed ==> d.completed[nextTicket].Ok?
  {
    var full := Refilled(b, now);
    RefilledValid(b, now);
    SettleSound(full);
    RecordLookup(b.completed, Settle(full).grants);
    if nextTicket in GrantTickets(Settle(full).grants) {
      var g :| g in Settle(full).grants && g.ticket == nextTicket;
    }
  }

  /** An admitted arrival is answered at once with the reservation that is charged to its ticket,
      or keeps the ticket and is told when to look again; it is not refused. */
  lemma ArrivalTold(l: Lane, nextTicket: nat, request: Request, now: nat, asked: Requests)
    requires LaneInv(l, nextTicket) && Answers(l, asked) && Admissible(l.bucket, request)
    ensures var p := ArriveBucket(l.bucket, nextTicket, request, now);
            var after := StepLane(l, nextTicket, Arrive(request, now));
            && Told(p.reply, nextTicket, nextTicket !in Held(after.bucket), after.live, asked[nextTicket := request])
            && (p.reply.Done? ==> p.reply.completion.Ok?)
            && (p.reply.Wait? ==> p.queued == Some(nextTicket) && p.reply.deadline == NextDeadline(after.bucket, now))
  {
    var entered := l.(bucket := Enqueued(l.bucket, nextTicket, Bounded(request)));
    var more := asked[nextTicket := request];
    var p := ArriveBucket(l.bucket, nextTicket, request, now);
    EnqueueSane(l, nextTicket, request);
    EnterAnswers(l, nextTicket, request, asked);
    AdmittedPositive(entered.bucket.queue, Capacity(l.bucket.rate));
    DispatchSane(entered, nextTicket + 1, now);
    DispatchAnswers(entered, now, more);
    ClaimTold(DispatchLane(entered, now), nextTicket + 1, nextTicket, more, p.reply);
    FreshTicket(l.bucket, nextTicket);
    EnteredOk(entered.bucket, nextTicket, now);
    PollHeld(entered.bucket, nextTicket + 1, nextTicket, now);
    StepLaneFollows(l, nextTicket, Arrive(request, now));
  }

  /** Whatever is answered at once without a ticket leaves the direction as it was: nothing for
      nothing, all bytes at no cost from an unlimited direction, a refusal of an item that exceeds
      capacity and allowance, and of any other request exactly when MAX_PENDING tickets are held. */
  lemma ImmediateAnswers(l: Lane, nextTicket: nat, request: Request, now: nat)
    requires LaneInv(l, nextTicket)
    ensures var p := ArriveBucket(l.bucket, nextTicket, request, now);
            var limited := request.bytes > 0 && l.bucket.rate.BytesPerSecond?;
            var fits := request.Divisible? || request.bytes <= CapacityBytes(l.bucket.rate) + request.maxDebt;
            && (!limited ==> p.reply == Done(Ok(Reservation(request.bytes, 0, 0))))
            && (limited && !fits ==> p.reply.Done? && p.reply.completion.Err?
                                     && Refuses(p.reply.completion.error, request)
                                     && p.reply.completion.error.capacityBytes == CapacityBytes(l.bucket.rate))
            && (limited && fits ==>
                  (p.reply == Done(Err(QueueFull(MAX_PENDING))) <==> |Held(l.bucket)| == MAX_PENDING))
            && (Admissible(l.bucket, request) <==> limited && fits && |Held(l.bucket)| < MAX_PENDING)
            && (!Admissible(l.bucket, request) ==>
                  p.bucket == l.bucket && p.nextTicket == nextTicket && p.queued == None && p.reply.Done?)
  {
    HeldSize(l.bucket);
    if Admissible(l.bucket, request) {
      var b := Enqueued(l.bucket, nextTicket, Bounded(request));
      EnqueueSane(l, nextTicket, request);
      FreshTicket(l.bucket, nextTicket);
      EnteredOk(b, nextTicket, now);
    }
  }

  lemma HeldSize(b: Bucket)
    requires Valid(b)
    ensures |Held(b)| == |b.queue| + |b.completed|
  {
    TicketsSize(b.queue);
    assert |b.completed| == |b.completed.Keys|;
  }
}
