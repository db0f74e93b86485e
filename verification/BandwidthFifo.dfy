/** Order of service: queues never reorder, and a divisible waiter is never overtaken. */
module BandwidthFifo {
  import opened Basics
  import opened BandwidthTypes
  import opened BandwidthDispatch
  import opened BandwidthBucket
  import opened BandwidthLimiter
  import opened BandwidthRuns

  /** Waiters that are in both queues stand in the same order in both. */
  ghost predicate SameOrder(before: seq<Waiter>, after: seq<Waiter>) {
    forall i, j, p, q | 0 <= i < |before| && 0 <= j < |before| && 0 <= p < |after| && 0 <= q < |after| ::
      before[i].ticket == after[p].ticket && before[j].ticket == after[q].ticket ==> (i < j <==> p < q)
  }

  lemma TicketOrder(queue: seq<Waiter>, i: nat, j: nat)
    requires Ordered(queue) && i < |queue| && j < |queue|
    ensures i < j <==> queue[i].ticket < queue[j].ticket
  {
    if j < i {
      assert queue[j].ticket < queue[i].ticket;
    }
  }

  lemma OrderedMeansSameOrder(before: seq<Waiter>, after: seq<Waiter>)
    requires Ordered(before) && Ordered(after)
    ensures SameOrder(before, after)
  {
    forall i, j, p, q | 0 <= i < |before| && 0 <= j < |before| && 0 <= p < |after| && 0 <= q < |after|
                        && before[i].ticket == after[p].ticket && before[j].ticket == after[q].ticket
      ensures i < j <==> p < q
    {
      TicketOrder(before, i, j);
      TicketOrder(after, p, q);
    }
  }

  /** A dispatch keeps the order, loses nobody, and while a divisible waiter stays queued grants
      nobody behind it. */
  lemma DispatchIsFifo(b: Bucket, now: nat)
    requires Valid(b)
    ensures var d, grants := Dispatched(b, now), Granted(b, now);
            && SameOrder(b.queue, d.queue)
            && Tickets(d.queue) + GrantTickets(grants) == Tickets(b.queue)
            && Tickets(d.queue) !! GrantTickets(grants)
            && forall w, g :: w in d.queue && w.request.Divisible? && g in grants ==> g.ticket < w.ticket
  {
    RefilledValid(b, now);
    SettleSound(Refilled(b, now));
    OrderedMeansSameOrder(b.queue, Dispatched(b, now).queue);
  }

  /** In every run no step reorders the waiters it leaves queued. */
  lemma RunsNeverReorder(upload: Rate, download: Rate, start: nat, events: seq<Event>, e: Event, direction: Direction)
    ensures var l := Run(NewLimiter(upload, download, start), events);
            SameOrder(l.Lane(direction).bucket.queue, Step(l, e).Lane(direction).bucket.queue)
  {
    var l := Run(NewLimiter(upload, download, start), events);
    NewLimiterInv(upload, download, start);
    RunKeeps(NewLimiter(upload, download, start), events);
    StepKeeps(l, e);
    OrderedMeansSameOrder(l.Lane(direction).bucket.queue, Step(l, e).Lane(direction).bucket.queue);
  }
}
