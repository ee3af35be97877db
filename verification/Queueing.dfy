/** In which order the scheduler hands URLs out, how many it queues, and how long it waits for the next hour. */
module Queueing {
  import opened Common
  import opened Scheduling
  import opened SchedulerRuns

  // ---- Order ------------------------------------------------------------------------------------------------

  predicate NoneReordered(steps: seq<Step>) {
    forall step | step in steps :: !step.Unblocked? && !step.Cancelled?
  }

  /** What was accepted has been handed out, is in hand, or is queued, in this order. */
  predicate InOrder(w: World) {
    w.accepted == w.returned + InHand(w.core.consumer) + w.core.queue
  }

  lemma OrderKept(cfg: Config, w: World, step: Step)
    requires cfg.limit <= 0 && Enabled(cfg, w, step) && NoneReordered([step]) && InOrder(w)
    requires w.core.waiting == [] == Apply(cfg, w, step).core.waiting
    requires !w.core.consumer.PuttingBack?
    ensures InOrder(Apply(cfg, w, step)) && !Apply(cfg, w, step).core.consumer.PuttingBack?
  {
    assert step in [step];
    match step
    case Taken(_) => assert w.core.queue == [w.core.queue[0]] + w.core.queue[1..];
    case Add(item, now) => OrderKeptByAdd(cfg, w, item, now);
    case Finished(i, error, now) => QueueKeptByMark(cfg, w.core, w.outstanding[i].url, now);
    case _ =>
  }

  lemma OrderKeptByAdd(cfg: Config, w: World, item: Item, now: real)
    requires Enabled(cfg, w, Add(item, now)) && InOrder(w)
    requires w.core.waiting == [] == Apply(cfg, w, Add(item, now)).core.waiting
    ensures InOrder(Apply(cfg, w, Add(item, now)))
    ensures Apply(cfg, w, Add(item, now)).core.consumer == w.core.consumer
  {
  }

  lemma QueueKeptByMark(cfg: Config, c: Core, url: string, now: real)
    ensures MarkDone(cfg, c, url, now).queue == c.queue == MarkError(cfg, c, url, now).queue
    ensures MarkDone(cfg, c, url, now).consumer == c.consumer == MarkError(cfg, c, url, now).consumer
  {
  }

  lemma {:induction false} WaitingGrows(cfg: Config, w: World, steps: seq<Step>)
    requires IsRun(cfg, w, steps) && NoneReordered(steps)
    ensures |Outcome(cfg, w, steps).core.waiting| >= |w.core.waiting|
    decreases |steps|
  {
    if steps != [] {
      assert steps[0] in steps;
      assert forall step :: step in steps[1..] ==> step in steps;
      StepWaitingGrows(cfg, w, steps[0]);
      WaitingGrows(cfg, Apply(cfg, w, steps[0]), steps[1..]);
    }
  }

  lemma StepWaitingGrows(cfg: Config, w: World, step: Step)
    requires Enabled(cfg, w, step) && !step.Unblocked?
    ensures |Apply(cfg, w, step).core.waiting| >= |w.core.waiting|
  {
  }

  lemma {:induction false} OrderAlways(cfg: Config, w: World, steps: seq<Step>)
    requires cfg.limit <= 0 && IsRun(cfg, w, steps) && NoneReordered(steps) && InOrder(w)
    requires !w.core.consumer.PuttingBack? && Outcome(cfg, w, steps).core.waiting == []
    ensures InOrder(Outcome(cfg, w, steps))
    decreases |steps|
  {
    if steps != [] {
      assert steps[0] in steps;
      assert forall step :: step in steps[1..] ==> step in steps;
      WaitingGrows(cfg, w, steps);
      WaitingGrows(cfg, Apply(cfg, w, steps[0]), steps[1..]);
      OrderKept(cfg, w, steps[0]);
      OrderAlways(cfg, Apply(cfg, w, steps[0]), steps[1..]);
    }
  }

  /** Without an hourly limit, and as long as the queue has room for every URL and no get_url is cancelled, URLs are
      handed out in the order in which they were accepted. */
  lemma HandedOutInOrder(cfg: Config, w: World, steps: seq<Step>)
    requires cfg.limit <= 0 && Start(w) && IsRun(cfg, w, steps) && NoneReordered(steps)
    requires Outcome(cfg, w, steps).core.waiting == []
    ensures Outcome(cfg, w, steps).returned <= Outcome(cfg, w, steps).accepted
    ensures Outcome(cfg, w, steps).accepted[|Outcome(cfg, w, steps).returned|..]
         == InHand(Outcome(cfg, w, steps).core.consumer) + Outcome(cfg, w, steps).core.queue
  {
    OrderAlways(cfg, w, steps);
  }

  // ---- Room -------------------------------------------------------------------------------------------------

  lemma {:induction false} RoomAlways(cfg: Config, w: World, steps: seq<Step>)
    requires IsRun(cfg, w, steps) && |w.core.queue| <= 10_000
    ensures |Outcome(cfg, w, steps).core.queue| <= 10_000
    decreases |steps|
  {
    if steps != [] {
      RoomKept(cfg, w, steps[0]);
      RoomAlways(cfg, Apply(cfg, w, steps[0]), steps[1..]);
    }
  }

  lemma RoomKept(cfg: Config, w: World, step: Step)
    requires Enabled(cfg, w, step) && |w.core.queue| <= 10_000
    ensures |Apply(cfg, w, step).core.queue| <= 10_000
  {
  }

  /** The queue never holds more than ten thousand URLs. One more is accepted all the same: it goes to the end of the
      queue if there is room, and otherwise waits behind those that wait already. */
  lemma QueueBounded(cfg: Config, w: World, steps: seq<Step>, item: Item, now: real)
    requires Start(w) && IsRun(cfg, w, steps) && Enabled(cfg, Outcome(cfg, w, steps), Add(item, now))
    ensures |Outcome(cfg, w, steps).core.queue| <= 10_000
    ensures var t := Outcome(cfg, w, steps);
            var t' := Apply(cfg, t, Add(item, now));
            t'.accepted != t.accepted ==>
              if |t.core.queue| < 10_000
              then t'.core.queue == t.core.queue + [item] && t'.core.waiting == t.core.waiting
              else t'.core.queue == t.core.queue && t'.core.waiting == t.core.waiting + [item]
  {
    RoomAlways(cfg, w, steps);
  }

  // ---- Waiting for the next hour ----------------------------------------------------------------------------

  /** A consumer turned away by the hourly limit waits until the hour is over. */
  predicate WaitsOutHour(w: World) {
    match w.core.consumer
    case HourPause(until) => until >= w.core.hourStart + 3600.0
    case PuttingBack(_, wait) => w.clock + wait >= w.core.hourStart + 3600.0
    case _ => true
  }

  lemma PutBackWaits(cfg: Config, w: World, now: real, at: real)
    requires Enabled(cfg, w, Resumed(now, at)) && LimitReached(cfg, w.core, now)
    ensures WaitsOutHour(Apply(cfg, w, Resumed(now, at)))
  {
  }

  lemma WaitKept(cfg: Config, w: World, step: Step)
    requires Enabled(cfg, w, step) && WaitsOutHour(w)
    ensures WaitsOutHour(Apply(cfg, w, step))
  {
    match step
    case Resumed(now, at) =>
      if LimitReached(cfg, w.core, now) {
        PutBackWaits(cfg, w, now, at);
      }
    case _ =>
  }

  lemma {:induction false} WaitAlways(cfg: Config, w: World, steps: seq<Step>)
    requires IsRun(cfg, w, steps) && WaitsOutHour(w)
    ensures WaitsOutHour(Outcome(cfg, w, steps))
    decreases |steps|
  {
    if steps != [] {
      WaitKept(cfg, w, steps[0]);
      WaitAlways(cfg, Apply(cfg, w, steps[0]), steps[1..]);
    }
  }

  /** In every run the next URL is only taken once the hour in which the limit was reached is over. */
  lemma HourWaitedOut(cfg: Config, w: World, steps: seq<Step>, now: real)
    requires Start(w) && IsRun(cfg, w, steps) && Enabled(cfg, Outcome(cfg, w, steps), Taken(now))
    requires Outcome(cfg, w, steps).core.consumer.HourPause?
    ensures now - Outcome(cfg, w, steps).core.hourStart >= 3600.0
  {
    WaitAlways(cfg, w, steps);
  }

  /** The wait is not longer than that, but for a second at least, and the URL is queued again behind all others. */
  lemma HourWaitIsShort(cfg: Config, w: World, now: real, at: real)
    requires Enabled(cfg, w, Resumed(now, at)) && LimitReached(cfg, w.core, now)
    ensures var c := Apply(cfg, w, Resumed(now, at)).core;
            if |w.core.queue| < 10_000
            then c.consumer.HourPause? && c.queue == w.core.queue + [w.core.consumer.item]
                 && (c.consumer.until == at + 1.0 || c.consumer.until == c.hourStart + 3600.0)
                 && c.consumer.until >= at + 1.0
            else c.consumer.PuttingBack? && c.queue == w.core.queue && c.consumer.item == w.core.consumer.item
                 && (c.consumer.wait == 1.0 || at + c.consumer.wait == c.hourStart + 3600.0)
                 && c.consumer.wait >= 1.0
  {
  }

  // ---- Marking URLs that were not handed out ----------------------------------------------------------------

  predicate NoneNegative(domains: Domains) {
    forall d | d in domains :: domains[d].pendingCount >= 0
  }

  /** However often a URL is marked, also one that was never handed out, no counter falls below zero; the counter of its
      domain falls by one otherwise, and no other changes. An error is counted as well. */
  lemma MarkedAnyway(cfg: Config, c: Core, url: string, error: bool, now: real, d: string)
    requires NoneNegative(c.domains)
    ensures var domains := if error then MarkError(cfg, c, url, now).domains else MarkDone(cfg, c, url, now).domains;
            && NoneNegative(domains)
            && (d in domains ==>
                  && d in c.domains
                  && domains[d].pendingCount == c.domains[d].pendingCount
                     - (if d == cfg.domainOf(url) && c.domains[d].pendingCount > 0 then 1 else 0)
                  && domains[d].errorCount
                     == c.domains[d].errorCount + (if error && d == cfg.domainOf(url) then 1 else 0))
  {
  }
}
