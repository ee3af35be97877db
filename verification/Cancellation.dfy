/** What a cancellation of get_url costs: the URL in hand is gone, its domain keeps counting it, and a domain that
    has lost as many URLs as it may have pending is refused from then on. */
module Cancellation {
  import opened Common
  import opened Scheduling
  import opened SchedulerRuns
  import opened Politeness

  lemma LastIsCounted(cfg: Config, items: seq<Item>) returns (d: string)
    requires items != []
    ensures CountIf(items, InDomain(cfg, d)) > 0
  {
    d := cfg.domainOf(items[|items| - 1].url);
  }

  lemma LostIsCounted(cfg: Config, t: World, d: string)
    requires PendingInv(cfg, t)
    ensures PendingOf(t.core.domains, d) == Active(cfg, t, d) <==> CountIf(t.lost, InDomain(cfg, d)) == 0
  {
    assert PendingExactAt(cfg, t, d);
  }

  /** The counters are exact, for all domains, precisely in the runs in which no cancellation finds get_url holding
      a URL. */
  lemma CountersExactIff(cfg: Config, w: World, steps: seq<Step>)
    requires Start(w) && IsRun(cfg, w, steps)
    ensures (forall d :: PendingOf(Outcome(cfg, w, steps).core.domains, d) == Active(cfg, Outcome(cfg, w, steps), d))
       <==> DropsNone(cfg, w, steps)
  {
    var t := Outcome(cfg, w, steps);
    LostGrows(cfg, w, steps);
    PendingFromStart(cfg, w, steps);
    if t.lost != [] {
      var d := LastIsCounted(cfg, t.lost);
      LostIsCounted(cfg, t, d);
    } else {
      forall d ensures PendingOf(t.core.domains, d) == Active(cfg, t, d) {
        LostIsCounted(cfg, t, d);
      }
    }
  }

  lemma {:induction false} CountGrows(xs: seq<Item>, ys: seq<Item>, p: Item -> bool)
    requires xs <= ys
    ensures CountIf(xs, p) <= CountIf(ys, p)
    decreases |ys|
  {
    if |xs| < |ys| {
      CountGrows(xs, ys[..|ys| - 1], p);
    } else {
      assert xs == ys;
    }
  }

  /** However a run goes on once a domain has lost as many URLs as it may have pending, the domain is never forgotten
      and every further URL of it is refused. */
  lemma RefusedForEver(cfg: Config, w: World, steps: seq<Step>, later: seq<Step>, item: Item, now: real)
    requires Start(w) && IsRun(cfg, w, steps) && IsRun(cfg, Outcome(cfg, w, steps), later)
    requires 0 < cfg.pendingPerDomain
    requires CountIf(Outcome(cfg, w, steps).lost, InDomain(cfg, cfg.domainOf(item.url))) >= cfg.pendingPerDomain
    ensures var t := Outcome(cfg, Outcome(cfg, w, steps), later);
            && cfg.domainOf(item.url) in t.core.domains
            && !AddUrl(cfg, t.core, item, now).1
  {
    var d := cfg.domainOf(item.url);
    var s := Outcome(cfg, w, steps);
    var t := Outcome(cfg, s, later);
    PendingFromStart(cfg, w, steps);
    PendingAlways(cfg, s, later);
    LostGrows(cfg, s, later);
    CountGrows(s.lost, t.lost, InDomain(cfg, d));
    assert PendingExactAt(cfg, t, d);
    PruneKeepsPending(t.core.domains, DOMAIN_PRUNE_THRESHOLD, now, d);
  }

  // ---- A consumer that gives get_url five seconds ------------------------------------------------------------

  const PATIENCE := 5.0

  /** Since when the consumer has not been in get_url, or was not before its present call, and when that call first took
      a URL. */
  datatype Timer = Idle(since: real) | InCall(since: real, first: real)

  datatype Timed = Timed(w: World, timer: Timer)

  predicate HandsOut(cfg: Config, w: World, step: Step)
    requires Enabled(cfg, w, step)
  {
    step.Resumed? && !LimitReached(cfg, w.core, step.now)
  }

  /** A call that began at some time since the consumer was last outside, and no later than it took a URL, returns
      within five seconds of that time, or is cancelled at their end, during a pause that would have lasted longer. */
  predicate OnTime(cfg: Config, t: Timed, step: Step)
    requires Enabled(cfg, t.w, step)
  {
    && (HandsOut(cfg, t.w, step) && t.timer.InCall? ==> step.at <= t.timer.first + PATIENCE)
    && (step.Cancelled? ==>
          && t.timer.since + PATIENCE <= step.now
          && (t.timer.InCall? ==> step.now <= t.timer.first + PATIENCE)
          && (t.w.core.consumer.Pausing? || t.w.core.consumer.HourPause? ==> step.now < t.w.core.consumer.until))
  }

  function TimerAfter(cfg: Config, t: Timed, step: Step): Timer
    requires Enabled(cfg, t.w, step)
  {
    if step.Cancelled? then Idle(step.now)
    else if HandsOut(cfg, t.w, step) then Idle(step.at)
    else if step.Taken? && t.timer.Idle? then InCall(t.timer.since, step.now)
    else t.timer
  }

  function ApplyTimed(cfg: Config, t: Timed, step: Step): Timed
    requires Enabled(cfg, t.w, step)
  {
    Timed(Apply(cfg, t.w, step), TimerAfter(cfg, t, step))
  }

  /** A step of such a consumer, where no delay above `most` is set and the queue has room for what is put back. */
  predicate CalmStep(cfg: Config, most: real, t: Timed, step: Step) {
    && Enabled(cfg, t.w, step) && OnTime(cfg, t, step)
    && (step.DelaySet? ==> step.delay <= most)
    && !Apply(cfg, t.w, step).core.consumer.PuttingBack?
  }

  ghost predicate CalmRun(cfg: Config, most: real, t: Timed, steps: seq<Step>)
    decreases |steps|
  {
    steps == []
    || (CalmStep(cfg, most, t, steps[0]) && CalmRun(cfg, most, ApplyTimed(cfg, t, steps[0]), steps[1..]))
  }

  ghost function TimedOutcome(cfg: Config, most: real, t: Timed, steps: seq<Step>): Timed
    requires CalmRun(cfg, most, t, steps)
    decreases |steps|
  {
    if steps == [] then t else TimedOutcome(cfg, most, ApplyTimed(cfg, t, steps[0]), steps[1..])
  }

  lemma {:induction false} CalmIsRun(cfg: Config, most: real, t: Timed, steps: seq<Step>)
    requires CalmRun(cfg, most, t, steps)
    ensures IsRun(cfg, t.w, steps) && Outcome(cfg, t.w, steps) == TimedOutcome(cfg, most, t, steps).w
    decreases |steps|
  {
    if steps != [] {
      CalmIsRun(cfg, most, ApplyTimed(cfg, t, steps[0]), steps[1..]);
    }
  }

  /** The steps lead from t to u. */
  ghost predicate Leads(cfg: Config, most: real, t: Timed, steps: seq<Step>, u: Timed) {
    CalmRun(cfg, most, t, steps) && TimedOutcome(cfg, most, t, steps) == u
  }

  lemma {:induction false} LeadsOn(cfg: Config, most: real, t: Timed, steps: seq<Step>, u: Timed, step: Step)
    returns (more: seq<Step>)
    requires Leads(cfg, most, t, steps, u) && CalmStep(cfg, most, u, step)
    ensures Leads(cfg, most, t, more, ApplyTimed(cfg, u, step))
    decreases |steps|
  {
    if steps == [] {
      more := [step];
      assert more[1..] == [];
    } else {
      var rest := LeadsOn(cfg, most, ApplyTimed(cfg, t, steps[0]), steps[1..], u, step);
      more := [steps[0]] + rest;
      assert more[1..] == rest;
    }
  }

  // ---- Delays up to five seconds ------------------------------------------------------------------------------

  /** No request is later than the consumer's last return, no delay is above five seconds, and so no pause ends later
      than five seconds after that return. */
  ghost predicate ShortPauses(cfg: Config, t: Timed) {
    && cfg.politenessDelay <= PATIENCE && 0.0 <= t.timer.since <= t.w.clock
    && (forall d | d in t.w.core.domains :: WithinPatience(t.w.core.domains[d], t.timer.since))
    && !t.w.core.consumer.PuttingBack?
    && (t.w.core.consumer.Pausing? ==>
          t.w.core.consumer.until <= t.w.core.consumer.since
          || t.w.core.consumer.until <= t.timer.since + PATIENCE)
    && t.w.lost == []
  }

  predicate WithinPatience(s: DomainState, since: real) {
    s.lastRequestAt <= since && (s.crawlDelay.Some? ==> s.crawlDelay.value <= PATIENCE)
  }

  lemma PauseIsShort(cfg: Config, t: Timed, now: real)
    requires ShortPauses(cfg, t) && Enabled(cfg, t.w, Taken(now))
    ensures ShortPauses(cfg, ApplyTimed(cfg, t, Taken(now)))
  {
    var d := cfg.domainOf(t.w.core.queue[0].url);
    assert WithinPatience(State(t.w.core.domains, d), t.timer.since);
  }

  lemma CancelledLate(cfg: Config, t: Timed, now: real)
    requires ShortPauses(cfg, t) && CalmStep(cfg, PATIENCE, t, Cancelled(now))
    ensures ShortPauses(cfg, ApplyTimed(cfg, t, Cancelled(now)))
  {
    assert !t.w.core.consumer.Pausing?;
  }

  lemma HandedOut(cfg: Config, t: Timed, now: real, at: real)
    requires ShortPauses(cfg, t) && CalmStep(cfg, PATIENCE, t, Resumed(now, at))
    ensures ShortPauses(cfg, ApplyTimed(cfg, t, Resumed(now, at)))
  {
    var domains := Refreshed(cfg, t.w.core, now).domains;
    forall d | d in domains ensures WithinPatience(domains[d], t.timer.since) {
      assert domains[d] == t.w.core.domains[d];
    }
  }

  lemma AddedShort(cfg: Config, t: Timed, item: Item, now: real)
    requires ShortPauses(cfg, t) && CalmStep(cfg, PATIENCE, t, Add(item, now))
    ensures ShortPauses(cfg, ApplyTimed(cfg, t, Add(item, now)))
  {
    assert WithinPatience(FRESH_DOMAIN, t.timer.since);
  }

  lemma FinishedShort(cfg: Config, t: Timed, i: nat, error: bool, now: real)
    requires ShortPauses(cfg, t) && CalmStep(cfg, PATIENCE, t, Finished(i, error, now))
    ensures ShortPauses(cfg, ApplyTimed(cfg, t, Finished(i, error, now)))
  {
  }

  lemma DelaySetShort(cfg: Config, t: Timed, d: string, delay: real, now: real)
    requires ShortPauses(cfg, t) && CalmStep(cfg, PATIENCE, t, DelaySet(d, delay, now))
    ensures ShortPauses(cfg, ApplyTimed(cfg, t, DelaySet(d, delay, now)))
  {
  }

  lemma ShortPausesKept(cfg: Config, t: Timed, step: Step)
    requires ShortPauses(cfg, t) && CalmStep(cfg, PATIENCE, t, step)
    ensures ShortPauses(cfg, ApplyTimed(cfg, t, step))
  {
    match step
    case Add(item, now) => AddedShort(cfg, t, item, now);
    case Unblocked(_, _) =>
    case Taken(now) => PauseIsShort(cfg, t, now);
    case Resumed(now, at) => HandedOut(cfg, t, now, at);
    case PutBackMade(_) =>
    case Finished(i, error, now) => FinishedShort(cfg, t, i, error, now);
    case DelaySet(d, delay, now) => DelaySetShort(cfg, t, d, delay, now);
    case Cancelled(now) => CancelledLate(cfg, t, now);
  }

  lemma {:induction false} NoneLostSoFar(cfg: Config, t: Timed, steps: seq<Step>)
    requires ShortPauses(cfg, t) && CalmRun(cfg, PATIENCE, t, steps)
    ensures TimedOutcome(cfg, PATIENCE, t, steps).w.lost == []
    decreases |steps|
  {
    if steps != [] {
      ShortPausesKept(cfg, t, steps[0]);
      NoneLostSoFar(cfg, ApplyTimed(cfg, t, steps[0]), steps[1..]);
    }
  }

  /** The beginning: the consumer has not called get_url yet. */
  predicate Begins(t: Timed) {
    Start(t.w) && t.timer == Idle(t.w.clock) && t.w.clock >= 0.0
  }

  /** With no delay in force above five seconds, cancelling after five seconds loses nothing. */
  lemma ShortDelaysLoseNothing(cfg: Config, t: Timed, steps: seq<Step>)
    requires cfg.politenessDelay <= PATIENCE && Begins(t) && CalmRun(cfg, PATIENCE, t, steps)
    ensures IsRun(cfg, t.w, steps) && Outcome(cfg, t.w, steps).lost == []
  {
    NoneLostSoFar(cfg, t, steps);
    CalmIsRun(cfg, PATIENCE, t, steps);
  }

  // ---- A domain that has lost all it may have pending ---------------------------------------------------------

  const URL := Item("a", 0)

  /** For URLs that are their own domain. */
  function Settings(delay: real, limit: int, cap: int): Config {
    Config(delay, limit, cap, 0, url => url)
  }

  function Only(last: real, pending: int): Domains {
    map["a" := DomainState(last, pending, 0, None)]
  }

  function Urls(n: nat): seq<Item> {
    if n == 0 then [] else Urls(n - 1) + [URL]
  }

  /** Nothing is queued or handed out, the domain was last asked at `last` and has lost n URLs. */
  ghost predicate AtRest(t: Timed, last: real, n: nat) {
    && t.w.core.queue == [] && t.w.core.waiting == [] && t.w.core.consumer == Outside && t.w.outstanding == []
    && t.timer == Idle(t.w.clock)
    && t.w.core.domains.Keys <= {"a"} && State(t.w.core.domains, "a") == DomainState(last, n, 0, None)
    && t.w.lost == Urls(n) && t.w.core.hourStart <= t.w.clock
  }

  /** One more URL of the domain is accepted. */
  function Queued(t: Timed, last: real, n: nat, now: real): Timed {
    Timed(t.w.(core := t.w.core.(queue := [URL], domains := Only(last, n + 1)),
               clock := now, accepted := t.w.accepted + [URL]), t.timer)
  }

  lemma UrlAdded(delay: real, limit: int, cap: int, t: Timed, last: real, n: nat, now: real)
    requires n < cap && AtRest(t, last, n) && now >= t.w.clock
    ensures CalmStep(Settings(delay, limit, cap), PATIENCE, t, Add(URL, now))
    ensures ApplyTimed(Settings(delay, limit, cap), t, Add(URL, now)) == Queued(t, last, n, now)
  {
    SubsetSize(t.w.core.domains.Keys, {"a"});
    assert t.w.core.domains["a" := DomainState(last, n + 1, 0, None)] == Only(last, n + 1);
  }

  /** The URL has been taken and its domain's delay is waited for. */
  function Waiting(t: Timed, last: real, n: nat, now: real, until: real, delay: real): Timed {
    Timed(t.w.(core := t.w.core.(queue := [], domains := Only(last, n + 1),
                                 consumer := Pausing(URL, now, until, delay)),
               clock := now, accepted := t.w.accepted + [URL]),
          InCall(t.w.clock, now))
  }

  lemma UrlTaken(delay: real, limit: int, cap: int, t: Timed, last: real, n: nat, now: real)
    requires AtRest(t, last, n) && now >= t.w.clock
    ensures CalmStep(Settings(delay, limit, cap), PATIENCE, Queued(t, last, n, now), Taken(now))
    ensures ApplyTimed(Settings(delay, limit, cap), Queued(t, last, n, now), Taken(now))
         == Waiting(t, last, n, now, if now - last < delay then last + delay else now, delay)
  {
    assert Only(last, n + 1)["a" := DomainState(last, n + 1, 0, None)] == Only(last, n + 1);
  }

  lemma UrlLost(delay: real, limit: int, cap: int, t: Timed, last: real, n: nat)
    requires delay > PATIENCE && AtRest(t, last, n) && t.w.clock == last
    ensures var v := Waiting(t, last, n, last, last + delay, delay);
            && CalmStep(Settings(delay, limit, cap), PATIENCE, v, Cancelled(last + PATIENCE))
            && var z := ApplyTimed(Settings(delay, limit, cap), v, Cancelled(last + PATIENCE));
               AtRest(z, last, n + 1) && z.w.clock == last + PATIENCE
  {
  }

  /** A call made at once after a request is cancelled after five seconds, and a URL is lost. */
  lemma OneLoss(delay: real, limit: int, cap: int, s: Timed, steps: seq<Step>, t: Timed, last: real, n: nat)
    returns (more: seq<Step>, z: Timed)
    requires delay > PATIENCE && n < cap && AtRest(t, last, n) && t.w.clock == last
    requires Leads(Settings(delay, limit, cap), PATIENCE, s, steps, t)
    ensures Leads(Settings(delay, limit, cap), PATIENCE, s, more, z)
    ensures AtRest(z, last, n + 1) && z.w.clock == last + PATIENCE
  {
    var cfg := Settings(delay, limit, cap);
    UrlAdded(delay, limit, cap, t, last, n, last);
    var u := Queued(t, last, n, last);
    more := LeadsOn(cfg, PATIENCE, s, steps, t, Add(URL, last));
    UrlTaken(delay, limit, cap, t, last, n, last);
    var v := Waiting(t, last, n, last, last + delay, delay);
    more := LeadsOn(cfg, PATIENCE, s, more, u, Taken(last));
    UrlLost(delay, limit, cap, t, last, n);
    more := LeadsOn(cfg, PATIENCE, s, more, v, Cancelled(last + PATIENCE));
    z := ApplyTimed(cfg, v, Cancelled(last + PATIENCE));
  }

  /** The URL has been handed out. */
  ghost predicate OneOut(t: Timed, u: Timed, n: nat, now: real) {
    && u.w.core.queue == [] && u.w.core.waiting == [] && u.w.core.consumer == Outside && u.w.outstanding == [URL]
    && u.timer == Idle(now) && u.w.clock == now
    && u.w.core.domains == Only(now, n + 1) && u.w.lost == t.w.lost && u.w.core.hourStart <= now
  }

  /** The hour's limit, if there is one, allows a request now. */
  predicate HourFree(limit: int, c: Core, now: real) {
    limit <= 0 || now - c.hourStart >= 3600.0 || c.hourlyCount == 0
  }

  lemma UrlHandedOut(delay: real, limit: int, cap: int, t: Timed, last: real, n: nat, now: real)
    requires AtRest(t, last, n) && now >= t.w.clock && HourFree(limit, t.w.core, now)
    ensures var v := Waiting(t, last, n, now, now, delay);
            && CalmStep(Settings(delay, limit, cap), PATIENCE, v, Resumed(now, now))
            && OneOut(t, ApplyTimed(Settings(delay, limit, cap), v, Resumed(now, now)), n, now)
  {
    assert |Only(last, n + 1)| == 1;
  }

  lemma UrlFinished(delay: real, limit: int, cap: int, t: Timed, u: Timed, last: real, n: nat, now: real)
    requires AtRest(t, last, n) && OneOut(t, u, n, now)
    ensures CalmStep(Settings(delay, limit, cap), PATIENCE, u, Finished(0, false, now))
    ensures AtRest(ApplyTimed(Settings(delay, limit, cap), u, Finished(0, false, now)), now, n)
    ensures ApplyTimed(Settings(delay, limit, cap), u, Finished(0, false, now)).w.clock == now
  {
    assert |Only(now, n)| == 1;
  }

  /** Once its delay has passed, a URL of the domain is handed out at once and marked done. */
  lemma OneRequest(delay: real, limit: int, cap: int, s: Timed, steps: seq<Step>, t: Timed, last: real, n: nat,
                   now: real)
    returns (more: seq<Step>, z: Timed)
    requires n < cap && AtRest(t, last, n) && now >= t.w.clock && now - last >= delay
    requires HourFree(limit, t.w.core, now)
    requires Leads(Settings(delay, limit, cap), PATIENCE, s, steps, t)
    ensures Leads(Settings(delay, limit, cap), PATIENCE, s, more, z) && AtRest(z, now, n) && z.w.clock == now
  {
    var cfg := Settings(delay, limit, cap);
    UrlAdded(delay, limit, cap, t, last, n, now);
    var u := Queued(t, last, n, now);
    more := LeadsOn(cfg, PATIENCE, s, steps, t, Add(URL, now));
    UrlTaken(delay, limit, cap, t, last, n, now);
    more := LeadsOn(cfg, PATIENCE, s, more, u, Taken(now));
    var v := Waiting(t, last, n, now, now, delay);
    UrlHandedOut(delay, limit, cap, t, last, n, now);
    var x := ApplyTimed(cfg, v, Resumed(now, now));
    more := LeadsOn(cfg, PATIENCE, s, more, v, Resumed(now, now));
    UrlFinished(delay, limit, cap, t, x, last, n, now);
    more := LeadsOn(cfg, PATIENCE, s, more, x, Finished(0, false, now));
    z := ApplyTimed(cfg, x, Finished(0, false, now));
  }

  function Beginning(clock: real): Timed {
    Timed(World(Core(map[], [], [], Outside, 0, clock), clock, [], [], [], [], [], [clock]), Idle(clock))
  }

  /** When to ask next: after the delay, and in a new hour. */
  function Later(delay: real, clock: real): real {
    clock + if delay > 3600.0 then delay else 3600.0
  }

  lemma BeginsAtRest(clock: real)
    requires clock >= 0.0
    ensures AtRest(Beginning(clock), 0.0, 0) && Begins(Beginning(clock))
  {
  }

  /** n URLs of the domain get lost, one after each request. */
  lemma {:induction false} Losses(delay: real, limit: int, cap: int, clock: real, n: nat)
    returns (steps: seq<Step>, t: Timed, last: real)
    requires delay > PATIENCE && clock >= 0.0 && n <= cap
    ensures Leads(Settings(delay, limit, cap), PATIENCE, Beginning(clock), steps, t) && AtRest(t, last, n)
    ensures last >= 0.0 && t.w.clock >= last && (n == 0 ==> last == 0.0 && t.w.core.hourlyCount == 0)
  {
    if n == 0 {
      BeginsAtRest(clock);
      steps, t, last := [], Beginning(clock), 0.0;
    } else {
      var u, v, before;
      steps, u, before := Losses(delay, limit, cap, clock, n - 1);
      last := Later(delay, u.w.clock);
      steps, v := OneRequest(delay, limit, cap, Beginning(clock), steps, u, before, n - 1, last);
      steps, t := OneLoss(delay, limit, cap, Beginning(clock), steps, v, last, n - 1);
    }
  }

  lemma {:induction false} UrlsCount(n: nat, cfg: Config)
    requires cfg.domainOf("a") == "a"
    ensures |Urls(n)| == n && CountIf(Urls(n), InDomain(cfg, "a")) == n
  {
    if n != 0 {
      UrlsCount(n - 1, cfg);
      CountPush(Urls(n - 1), URL, InDomain(cfg, "a"));
    }
  }

  /** For every delay above five seconds, every hourly limit, every cap and every time of the beginning: a run of a
      consumer that gives get_url five seconds, after which nothing of a domain is queued or handed out and yet all its
      URLs are refused, whatever happens then. */
  lemma StarvedDomain(delay: real, limit: int, cap: int, clock: real) returns (t: Timed, steps: seq<Step>)
    requires delay > PATIENCE && cap > 0 && clock >= 0.0
    ensures Begins(t) && t.w.clock == clock
    ensures var cfg := Settings(delay, limit, cap);
            && CalmRun(cfg, PATIENCE, t, steps) && IsRun(cfg, t.w, steps)
            && Outcome(cfg, t.w, steps).core.queue == [] && Outcome(cfg, t.w, steps).core.consumer == Outside
            && Outcome(cfg, t.w, steps).outstanding == [] && |Outcome(cfg, t.w, steps).lost| == cap
            && forall later, now | IsRun(cfg, Outcome(cfg, t.w, steps), later) ::
                 !AddUrl(cfg, Outcome(cfg, Outcome(cfg, t.w, steps), later).core, URL, now).1
  {
    var cfg := Settings(delay, limit, cap);
    var u, last;
    t := Beginning(clock);
    BeginsAtRest(clock);
    steps, u, last := Losses(delay, limit, cap, clock, cap);
    CalmIsRun(cfg, PATIENCE, t, steps);
    UrlsCount(cap, cfg);
    forall later, now | IsRun(cfg, u.w, later) ensures !AddUrl(cfg, Outcome(cfg, u.w, later).core, URL, now).1 {
      RefusedForEver(cfg, t.w, steps, later, URL, now);
    }
  }

  /** A consumer that gives get_url five seconds loses nothing in all runs if and only if the politeness delay is at
      most five seconds: no run sets a longer one for a domain, or finds the queue full when it puts a URL back. */
  lemma PatienceIff(delay: real, limit: int, cap: int)
    requires cap > 0
    ensures delay <= PATIENCE
       <==> forall t, steps | Begins(t) && CalmRun(Settings(delay, limit, cap), PATIENCE, t, steps) ::
              TimedOutcome(Settings(delay, limit, cap), PATIENCE, t, steps).w.lost == []
  {
    var cfg := Settings(delay, limit, cap);
    if delay <= PATIENCE {
      forall t, steps | Begins(t) && CalmRun(cfg, PATIENCE, t, steps)
        ensures TimedOutcome(cfg, PATIENCE, t, steps).w.lost == []
      {
        NoneLostSoFar(cfg, t, steps);
      }
    } else {
      var t, steps := StarvedDomain(delay, limit, cap, 0.0);
      CalmIsRun(cfg, PATIENCE, t, steps);
    }
  }
}
