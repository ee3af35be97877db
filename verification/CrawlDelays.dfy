/** Which delay keeps the requests to a domain apart: the crawl delay last set for it while the scheduler remembers
    the domain, and the configured delay otherwise. */
module CrawlDelays {
  import opened Common
  import opened Scheduling
  import opened SchedulerRuns
  import opened Politeness

  /** A URL of domain d is in hand, asleep for its delay. */
  predicate PausesFor(cfg: Config, w: World, d: string) {
    w.core.consumer.Pausing? && cfg.domainOf(w.core.consumer.item.url) == d
  }

  predicate NotSet(steps: seq<Step>, d: string) {
    forall step | step in steps && step.DelaySet? :: step.domain != d
  }

  /** The step makes the scheduler forget what it knew about d, which it does when the domain is idle and the table is
      full; where a URL of d itself is added, it begins with d afresh. */
  predicate Forgets(cfg: Config, w: World, step: Step, d: string)
    requires Enabled(cfg, w, step)
  {
    d in w.core.domains
    && (|| d !in Apply(cfg, w, step).core.domains
        || (step.Add? && (cfg.maxDepth <= 0 || step.item.depth <= cfg.maxDepth) && |w.core.domains| > 40_000
            && w.core.domains[d].pendingCount == 0 && w.core.domains[d].lastRequestAt < step.now - 3600.0))
  }

  /** No step of the run makes the scheduler forget d. */
  ghost predicate NeverForgotten(cfg: Config, w: World, steps: seq<Step>, d: string)
    requires IsRun(cfg, w, steps)
    decreases |steps|
  {
    steps == []
    || (!Forgets(cfg, w, steps[0], d) && NeverForgotten(cfg, Apply(cfg, w, steps[0]), steps[1..], d))
  }

  /** Nothing of the domain is pending, and its last request is more than an hour ago. */
  predicate IsIdle(s: DomainState, pending: int, now: real) {
    pending == 0 && now - s.lastRequestAt > 3600.0
  }

  /** A domain is forgotten exactly in these steps: when a URL is added or marked while more than 40000 domains are
      known, or a new hour begins for the limit while more than 50000 are, and the domain is idle by then. */
  lemma ForgottenIff(cfg: Config, w: World, step: Step, d: string)
    requires Enabled(cfg, w, step) && d in w.core.domains
    ensures var s, n := w.core.domains[d], |w.core.domains|;
            d !in Apply(cfg, w, step).core.domains
            <==> match step
                 case Add(item, now) =>
                   (cfg.maxDepth <= 0 || item.depth <= cfg.maxDepth) && n > 40_000 && IsIdle(s, s.pendingCount, now)
                   && cfg.domainOf(item.url) != d
                 case Finished(i, _, now) =>
                   var e := cfg.domainOf(w.outstanding[i].url);
                   e in w.core.domains && n > 40_000
                   && IsIdle(s, if d == e && s.pendingCount > 0 then s.pendingCount - 1
                                else if d == e then 0 else s.pendingCount, now)
                 case Resumed(now, _) =>
                   cfg.limit > 0 && now - w.core.hourStart >= 3600.0 && n > 50_000 && IsIdle(s, s.pendingCount, now)
                 case _ => false
  {
    match step
    case Add(item, now) =>
    case Finished(i, error, now) => FinishedForgets(cfg, w, i, error, now, d);
    case Resumed(now, at) => ResumedForgets(cfg, w, now, at, d);
    case _ =>
  }

  lemma MarkedForgets(cfg: Config, c: Core, url: string, now: real, d: string)
    requires d in c.domains
    ensures var e, s := cfg.domainOf(url), c.domains[d];
            d !in MarkDone(cfg, c, url, now).domains
            <==> e in c.domains && |c.domains| > 40_000
                 && IsIdle(s, if d == e && s.pendingCount > 0 then s.pendingCount - 1
                              else if d == e then 0 else s.pendingCount, now)
  {
    var e := cfg.domainOf(url);
    if e in c.domains {
      var pending := if c.domains[e].pendingCount - 1 > 0 then c.domains[e].pendingCount - 1 else 0;
      SameSize(c.domains, e, c.domains[e].(pendingCount := pending));
    }
  }

  lemma SameSize(domains: Domains, e: string, s: DomainState)
    requires e in domains
    ensures |domains[e := s]| == |domains|
  {
    assert domains[e := s].Keys == domains.Keys;
    assert |domains[e := s]| == |domains[e := s].Keys| && |domains| == |domains.Keys|;
  }

  lemma FinishedForgets(cfg: Config, w: World, i: nat, error: bool, now: real, d: string)
    requires Enabled(cfg, w, Finished(i, error, now)) && d in w.core.domains
    ensures var e, s := cfg.domainOf(w.outstanding[i].url), w.core.domains[d];
            d !in Apply(cfg, w, Finished(i, error, now)).core.domains
            <==> e in w.core.domains && |w.core.domains| > 40_000
                 && IsIdle(s, if d == e && s.pendingCount > 0 then s.pendingCount - 1
                              else if d == e then 0 else s.pendingCount, now)
  {
    var url := w.outstanding[i].url;
    var e := cfg.domainOf(url);
    if !error {
      MarkedForgets(cfg, w.core, url, now, d);
    } else if e in w.core.domains {
      var failed := w.core.domains[e].(errorCount := w.core.domains[e].errorCount + 1);
      SameSize(w.core.domains, e, failed);
      MarkedForgets(cfg, w.core.(domains := w.core.domains[e := failed]), url, now, d);
    }
  }

  lemma ResumedForgets(cfg: Config, w: World, now: real, at: real, d: string)
    requires Enabled(cfg, w, Resumed(now, at)) && d in w.core.domains
    ensures d !in Apply(cfg, w, Resumed(now, at)).core.domains
       <==> cfg.limit > 0 && now - w.core.hourStart >= 3600.0 && |w.core.domains| > 50_000
            && IsIdle(w.core.domains[d], w.core.domains[d].pendingCount, now)
  {
  }

  /** The dispatches of d from the n-th on waited for `delay`. */
  predicate DelayedBy(log: seq<Dispatched>, n: nat, d: string, delay: real) {
    forall j | n <= j < |log| && log[j].domain == d :: log[j].delay == delay
  }

  /** The delay is what the table says about d, and what a URL of d in hand waits for. */
  ghost predicate DelayIs(cfg: Config, w: World, d: string, crawl: Option<real>, delay: real) {
    && crawl == (if d in w.core.domains then w.core.domains[d].crawlDelay else None)
    && delay == (if crawl.Some? then crawl.value else cfg.politenessDelay)
    && (PausesFor(cfg, w, d) ==> w.core.consumer.delay == delay)
  }

  lemma TakenDelay(cfg: Config, w: World, now: real, d: string, crawl: Option<real>, delay: real)
    requires Enabled(cfg, w, Taken(now)) && DelayIs(cfg, w, d, crawl, delay)
    ensures DelayIs(cfg, Apply(cfg, w, Taken(now)), d, crawl, delay)
  {
  }

  lemma MarkedDelay(cfg: Config, c: Core, url: string, now: real, d: string)
    requires d in MarkDone(cfg, c, url, now).domains
    ensures d in c.domains && MarkDone(cfg, c, url, now).domains[d].crawlDelay == c.domains[d].crawlDelay
    ensures MarkDone(cfg, c, url, now).consumer == c.consumer
  {
  }

  lemma ErrorDelay(cfg: Config, c: Core, url: string, now: real, d: string)
    requires d in MarkError(cfg, c, url, now).domains
    ensures d in c.domains && MarkError(cfg, c, url, now).domains[d].crawlDelay == c.domains[d].crawlDelay
    ensures MarkError(cfg, c, url, now).consumer == c.consumer
  {
    var e := cfg.domainOf(url);
    if e in c.domains {
      MarkedDelay(cfg, c.(domains := c.domains[e := c.domains[e].(errorCount := c.domains[e].errorCount + 1)]), url,
                  now, d);
    }
  }

  lemma FinishedDelay(
    cfg: Config, w: World, i: nat, error: bool, now: real, d: string, crawl: Option<real>, delay: real
  )
    requires Enabled(cfg, w, Finished(i, error, now)) && DelayIs(cfg, w, d, crawl, delay)
    requires crawl.Some? ==> !Forgets(cfg, w, Finished(i, error, now), d)
    ensures DelayIs(cfg, Apply(cfg, w, Finished(i, error, now)), d, crawl, delay)
  {
    var url := w.outstanding[i].url;
    if d in Apply(cfg, w, Finished(i, error, now)).core.domains {
      if error {
        ErrorDelay(cfg, w.core, url, now, d);
      } else {
        MarkedDelay(cfg, w.core, url, now, d);
      }
    }
  }

  lemma AddedDelay(cfg: Config, w: World, item: Item, now: real, d: string, crawl: Option<real>, delay: real)
    requires Enabled(cfg, w, Add(item, now)) && DelayIs(cfg, w, d, crawl, delay)
    requires crawl.Some? ==> !Forgets(cfg, w, Add(item, now), d)
    ensures DelayIs(cfg, Apply(cfg, w, Add(item, now)), d, crawl, delay)
  {
    var pruned := PruneIfMany(w.core.domains, now);
    assert d in pruned ==> d in w.core.domains && pruned[d] == w.core.domains[d];
  }

  /** A step that does not set the delay and does not forget the domain keeps the delay. */
  lemma DelayKept(cfg: Config, w: World, step: Step, d: string, crawl: Option<real>, delay: real)
    requires Enabled(cfg, w, step) && DelayIs(cfg, w, d, crawl, delay) && NotSet([step], d)
    requires crawl.Some? ==> !Forgets(cfg, w, step, d)
    ensures DelayIs(cfg, Apply(cfg, w, step), d, crawl, delay)
  {
    match step
    case Add(item, now) => AddedDelay(cfg, w, item, now, d, crawl, delay);
    case Taken(now) => TakenDelay(cfg, w, now, d, crawl, delay);
    case Finished(i, error, now) => FinishedDelay(cfg, w, i, error, now, d, crawl, delay);
    case DelaySet(e, _, _) => assert step in [step] && e != d;
    case _ =>
  }

  lemma LogGrows(cfg: Config, w: World, step: Step, d: string, delay: real, n: nat)
    requires Enabled(cfg, w, step) && DelayedBy(w.log, n, d, delay)
    requires PausesFor(cfg, w, d) ==> w.core.consumer.delay == delay
    ensures DelayedBy(Apply(cfg, w, step).log, n, d, delay)
  {
  }

  lemma {:induction false} DelayAlways(
    cfg: Config, w: World, steps: seq<Step>, d: string, crawl: Option<real>, delay: real, n: nat
  )
    requires IsRun(cfg, w, steps) && NotSet(steps, d) && (crawl.Some? ==> NeverForgotten(cfg, w, steps, d))
    requires DelayIs(cfg, w, d, crawl, delay) && DelayedBy(w.log, n, d, delay)
    ensures DelayedBy(Outcome(cfg, w, steps).log, n, d, delay)
    decreases |steps|
  {
    if steps != [] {
      var w' := Apply(cfg, w, steps[0]);
      assert crawl.Some? ==> NeverForgotten(cfg, w', steps[1..], d);
      assert NotSet([steps[0]], d) && NotSet(steps[1..], d);
      DelayKept(cfg, w, steps[0], d, crawl, delay);
      LogGrows(cfg, w, steps[0], d, delay, n);
      DelayAlways(cfg, w', steps[1..], d, crawl, delay, n);
    }
  }

  /** The dispatches of d from the n-th on come at least `delay` after every earlier one. */
  predicate SpacedBy(log: seq<Dispatched>, n: nat, d: string, delay: real) {
    forall i, j | 0 <= i < j < |log| && n <= j && log[i].domain == d && log[j].domain == d ::
      log[j].time - log[i].time >= delay
  }

  lemma InvariantsReached(cfg: Config, w: World, steps: seq<Step>)
    requires cfg.politenessDelay <= DOMAIN_STALE_SECONDS && Start(w) && IsRun(cfg, w, steps)
    ensures PendingInv(cfg, Outcome(cfg, w, steps)) && SpacingInv(cfg, Outcome(cfg, w, steps))
  {
    forall e ensures PendingExactAt(cfg, w, e) {
    }
    PendingAlways(cfg, w, steps);
    SpacingAlways(cfg, w, steps);
  }

  /** Once a crawl delay of x seconds is set, at most a minute of it counts; and until another is set, or the domain is
      forgotten, each URL of the domain that is taken waits for exactly that and comes at least that long after
      every request to the domain before it. */
  lemma CrawlDelayKept(
    cfg: Config, w: World, before: seq<Step>, d: string, x: real, now: real, after: seq<Step>
  )
    requires cfg.politenessDelay <= DOMAIN_STALE_SECONDS && Start(w) && IsRun(cfg, w, before)
    requires Enabled(cfg, Outcome(cfg, w, before), DelaySet(d, x, now))
    requires !PausesFor(cfg, Outcome(cfg, w, before), d)
    requires var u := Apply(cfg, Outcome(cfg, w, before), DelaySet(d, x, now));
             IsRun(cfg, u, after) && NeverForgotten(cfg, u, after, d) && NotSet(after, d)
    ensures var n := |Outcome(cfg, w, before).log|;
            var log := Outcome(cfg, Apply(cfg, Outcome(cfg, w, before), DelaySet(d, x, now)), after).log;
            var delay := if x <= 60.0 then x else 60.0;
            DelayedBy(log, n, d, delay) && SpacedBy(log, n, d, delay)
  {
    var t := Outcome(cfg, w, before);
    var u := Apply(cfg, t, DelaySet(d, x, now));
    var delay := if x <= 60.0 then x else 60.0;
    InvariantsReached(cfg, w, before);
    PendingKept(cfg, t, DelaySet(d, x, now));
    SpacingKept(cfg, t, DelaySet(d, x, now));
    SpacingAlways(cfg, u, after);
    DelayAlways(cfg, u, after, d, Some(delay), delay, |t.log|);
  }

  /** A forgotten domain has no URL in hand, and none is taken or handed out by the step. */
  lemma ForgottenPauses(cfg: Config, w: World, step: Step, d: string)
    requires Enabled(cfg, w, step) && Forgets(cfg, w, step, d) && !PausesFor(cfg, w, d) && NotSet([step], d)
    ensures DelayIs(cfg, Apply(cfg, w, step), d, None, cfg.politenessDelay)
  {
  }

  lemma ForgottenLog(cfg: Config, w: World, step: Step, d: string)
    requires PendingInv(cfg, w) && Enabled(cfg, w, step) && PendingInv(cfg, Apply(cfg, w, step))
    requires d !in w.core.domains || Forgets(cfg, w, step, d)
    ensures DelayedBy(Apply(cfg, w, step).log, |w.log|, d, cfg.politenessDelay)
  {
    if PausesFor(cfg, w, d) {
      HandedNotForgotten(cfg, w, step, d);
    }
  }

  /** A domain with a URL in hand is not forgotten. */
  lemma HandedNotForgotten(cfg: Config, w: World, step: Step, d: string)
    requires PendingInv(cfg, w) && Enabled(cfg, w, step) && PendingInv(cfg, Apply(cfg, w, step)) && PausesFor(cfg, w, d)
    ensures d in w.core.domains && !Forgets(cfg, w, step, d)
  {
    HandedIsPending(cfg, w);
    match step
    case Finished(_, _, _) => HandedIsPending(cfg, Apply(cfg, w, step));
    case Resumed(now, at) => PruneKeepsPending(w.core.domains, MAX_TRACKED_DOMAINS, now, d);
    case Add(_, now) => PruneKeepsPending(w.core.domains, DOMAIN_PRUNE_THRESHOLD, now, d);
    case _ =>
  }

  lemma ForgottenIsIdle(cfg: Config, w: World, step: Step, d: string)
    requires PendingInv(cfg, w) && Enabled(cfg, w, step) && PendingInv(cfg, Apply(cfg, w, step)) && NotSet([step], d)
    requires d !in w.core.domains || Forgets(cfg, w, step, d)
    ensures DelayIs(cfg, Apply(cfg, w, step), d, None, cfg.politenessDelay)
  {
    if PausesFor(cfg, w, d) {
      HandedNotForgotten(cfg, w, step, d);
    }
    if d !in w.core.domains {
      DelayKept(cfg, w, step, d, None, cfg.politenessDelay);
    } else {
      ForgottenPauses(cfg, w, step, d);
    }
  }

  /** From a step at which the scheduler does not know the domain, or forgets it, and until a crawl delay is set for it,
      each of its URLs waits for the configured delay. */
  lemma ConfiguredDelayInForce(cfg: Config, w: World, before: seq<Step>, d: string, step: Step, after: seq<Step>)
    requires cfg.politenessDelay <= DOMAIN_STALE_SECONDS && Start(w) && IsRun(cfg, w, before)
    requires Enabled(cfg, Outcome(cfg, w, before), step) && NotSet([step], d)
    requires d !in Outcome(cfg, w, before).core.domains || Forgets(cfg, Outcome(cfg, w, before), step, d)
    requires IsRun(cfg, Apply(cfg, Outcome(cfg, w, before), step), after) && NotSet(after, d)
    ensures var n := |Outcome(cfg, w, before).log|;
            var log := Outcome(cfg, Apply(cfg, Outcome(cfg, w, before), step), after).log;
            DelayedBy(log, n, d, cfg.politenessDelay) && SpacedBy(log, n, d, cfg.politenessDelay)
  {
    var t := Outcome(cfg, w, before);
    var u := Apply(cfg, t, step);
    InvariantsReached(cfg, w, before);
    PendingKept(cfg, t, step);
    SpacingKept(cfg, t, step);
    SpacingAlways(cfg, u, after);
    ForgottenIsIdle(cfg, t, step, d);
    ForgottenLog(cfg, t, step, d);
    DelayAlways(cfg, u, after, d, None, cfg.politenessDelay, |t.log|);
  }

  // ---- No pause is longer than it must be ----------------------------------------------------------------------

  /** What the table holds of d's last request is a dispatch of the log, or nothing yet. */
  ghost predicate LastIsLogged(w: World, d: string) {
    d in w.core.domains ==>
      || w.core.domains[d].lastRequestAt == 0.0
      || exists x :: x in w.log && x.domain == d && x.time == w.core.domains[d].lastRequestAt
  }

  /** The pause is over at once, or exactly its delay after an earlier request to the domain. Where there was none the
      scheduler reckons with time 0. */
  ghost predicate PauseIsNeeded(cfg: Config, w: World) {
    w.core.consumer.Pausing? ==>
      var Pausing(item, since, until, delay) := w.core.consumer;
      || until == since
      || (until > since
          && (until == delay || exists x :: x in w.log && x.domain == cfg.domainOf(item.url)
                                            && until == x.time + delay))
  }

  lemma LastLoggedKept(cfg: Config, w: World, step: Step, d: string)
    requires Enabled(cfg, w, step) && LastIsLogged(w, d)
    ensures LastIsLogged(Apply(cfg, w, step), d)
  {
    var w' := Apply(cfg, w, step);
    assert forall x :: x in w.log ==> x in w'.log;
    if step.Resumed? && |w'.log| > |w.log| {
      assert w'.log[|w.log|] in w'.log;
    }
  }

  lemma TakenPause(cfg: Config, w: World, now: real)
    requires Enabled(cfg, w, Taken(now)) && LastIsLogged(w, cfg.domainOf(w.core.queue[0].url))
    ensures PauseIsNeeded(cfg, Apply(cfg, w, Taken(now)))
  {
  }

  lemma PauseNeededKept(cfg: Config, w: World, step: Step)
    requires Enabled(cfg, w, step) && (forall d :: LastIsLogged(w, d)) && PauseIsNeeded(cfg, w)
    ensures PauseIsNeeded(cfg, Apply(cfg, w, step))
  {
    if step.Taken? {
      TakenPause(cfg, w, step.now);
    } else {
      assert forall x :: x in w.log ==> x in Apply(cfg, w, step).log;
    }
  }

  lemma {:induction false} PausesNeeded(cfg: Config, w: World, steps: seq<Step>)
    requires IsRun(cfg, w, steps) && (forall d :: LastIsLogged(w, d)) && PauseIsNeeded(cfg, w)
    ensures PauseIsNeeded(cfg, Outcome(cfg, w, steps))
    decreases |steps|
  {
    if steps != [] {
      forall d ensures LastIsLogged(Apply(cfg, w, steps[0]), d) {
        LastLoggedKept(cfg, w, steps[0], d);
      }
      PauseNeededKept(cfg, w, steps[0]);
      PausesNeeded(cfg, Apply(cfg, w, steps[0]), steps[1..]);
    }
  }

  /** In every run each pause is as short as the delay allows. */
  lemma ShortestPauses(cfg: Config, w: World, steps: seq<Step>)
    requires Start(w) && IsRun(cfg, w, steps)
    ensures PauseIsNeeded(cfg, Outcome(cfg, w, steps))
  {
    PausesNeeded(cfg, w, steps);
  }
}
