/** What every run of the scheduler with one consumer guarantees: exact pending counters, spacing of the
    requests to a domain, and a bound on the requests of any hour. */
module Politeness {
  import opened Common
  import opened Scheduling
  import opened SchedulerRuns

  // ---- Spacing ----------------------------------------------------------------------------------------------

  /** The scheduler remembers this dispatch, or it is more than an hour ago. */
  predicate Remembered(domains: Domains, clock: real, x: Dispatched) {
    (x.domain in domains && x.time <= domains[x.domain].lastRequestAt) || clock - x.time > DOMAIN_STALE_SECONDS
  }

  /** The URL in hand will not be dispatched before its delay is over. */
  predicate PauseLongEnough(cfg: Config, c: Core) {
    c.consumer.Pausing? ==>
      var d := cfg.domainOf(c.consumer.item.url);
      && d in c.domains
      && c.consumer.until >= c.domains[d].lastRequestAt + c.consumer.delay
      && c.consumer.delay <= DOMAIN_STALE_SECONDS
  }

  predicate DelaysCapped(domains: Domains) {
    forall d | d in domains && domains[d].crawlDelay.Some? :: domains[d].crawlDelay.value <= MAX_DELAY
  }

  ghost predicate AllRemembered(w: World) {
    forall x | x in w.log :: Remembered(w.core.domains, w.clock, x) && x.time <= w.clock
  }

  /** Any two dispatches to a domain are at least the later one's delay apart. */
  predicate Spaced(log: seq<Dispatched>) {
    forall i, j | 0 <= i < j < |log| && log[i].domain == log[j].domain :: log[j].time - log[i].time >= log[j].delay
  }

  ghost predicate SpacingInv(cfg: Config, w: World) {
    && PauseLongEnough(cfg, w.core)
    && DelaysCapped(w.core.domains)
    && AllRemembered(w)
    && Spaced(w.log)
  }

  /** What a step can do to a domain's last request: nothing, forget it when it is stale, or set it. */
  predicate LastKept(before: Domains, after: Domains, d: string, clock: real) {
    d in before ==>
      (d in after && after[d].lastRequestAt == before[d].lastRequestAt)
      || before[d].lastRequestAt < clock - DOMAIN_STALE_SECONDS
      || (d in after && after[d].lastRequestAt == clock)
  }

  lemma LastKeptByPrune(domains: Domains, threshold: nat, now: real, d: string)
    ensures LastKept(domains, Prune(domains, threshold, now), d, now)
  {
  }

  lemma LastKeptByResume(cfg: Config, w: World, now: real, at: real, d: string)
    requires Enabled(cfg, w, Resumed(now, at))
    ensures LastKept(w.core.domains, Apply(cfg, w, Resumed(now, at)).core.domains, d, at)
  {
    LastKeptByPrune(w.core.domains, MAX_TRACKED_DOMAINS, now, d);
  }

  lemma LastKeptByStep(cfg: Config, w: World, step: Step, d: string)
    requires Enabled(cfg, w, step)
    ensures LastKept(w.core.domains, Apply(cfg, w, step).core.domains, d, Apply(cfg, w, step).clock)
  {
    match step
    case Add(item, now) => LastKeptByPrune(w.core.domains, DOMAIN_PRUNE_THRESHOLD, now, d);
    case Resumed(now, at) => LastKeptByResume(cfg, w, now, at, d);
    case _ =>
  }

  lemma ClockAdvances(cfg: Config, w: World, step: Step)
    requires Enabled(cfg, w, step)
    ensures Apply(cfg, w, step).clock >= step.now >= w.clock
  {
  }

  lemma StillRemembered(cfg: Config, w: World, step: Step, x: Dispatched)
    requires Enabled(cfg, w, step)
    requires Remembered(w.core.domains, w.clock, x) && x.time <= w.clock
    ensures Remembered(Apply(cfg, w, step).core.domains, Apply(cfg, w, step).clock, x)
  {
    LastKeptByStep(cfg, w, step, x.domain);
    ClockAdvances(cfg, w, step);
  }

  /** A domain with a pending URL is kept, and only its own dispatch changes its last request. */
  lemma PendingDomainKept(cfg: Config, w: World, step: Step, d: string)
    requires Enabled(cfg, w, step) && !step.Resumed? && PendingInv(cfg, w)
    requires d in w.core.domains && w.core.domains[d].pendingCount > 0
    requires PendingOf(Apply(cfg, w, step).core.domains, d) > 0
    ensures d in Apply(cfg, w, step).core.domains
    ensures Apply(cfg, w, step).core.domains[d].lastRequestAt == w.core.domains[d].lastRequestAt
  {
    if step.Add? {
      PruneKeepsPending(w.core.domains, DOMAIN_PRUNE_THRESHOLD, step.now, d);
    }
  }

  lemma HandedIsPending(cfg: Config, w: World)
    requires PendingInv(cfg, w) && w.core.consumer.Pausing?
    ensures PendingOf(w.core.domains, cfg.domainOf(w.core.consumer.item.url)) > 0
  {
    var d := cfg.domainOf(w.core.consumer.item.url);
    CountSingle(w.core.consumer.item, InDomain(cfg, d));
    assert PendingExactAt(cfg, w, d);
  }

  lemma ConsumerUntouched(cfg: Config, w: World, step: Step)
    requires Enabled(cfg, w, step) && !step.Resumed? && !step.Taken? && !step.PutBackMade? && !step.Cancelled?
    ensures Apply(cfg, w, step).core.consumer == w.core.consumer
  {
  }

  lemma PauseKept(cfg: Config, w: World, step: Step)
    requires cfg.politenessDelay <= DOMAIN_STALE_SECONDS
    requires Enabled(cfg, w, step) && PendingInv(cfg, w) && PendingInv(cfg, Apply(cfg, w, step))
    requires PauseLongEnough(cfg, w.core) && DelaysCapped(w.core.domains)
    ensures PauseLongEnough(cfg, Apply(cfg, w, step).core)
  {
    if !step.Resumed? && !step.Taken? && !step.PutBackMade? && !step.Cancelled? && w.core.consumer.Pausing? {
      ConsumerUntouched(cfg, w, step);
      HandedIsPending(cfg, w);
      HandedIsPending(cfg, Apply(cfg, w, step));
      PendingDomainKept(cfg, w, step, cfg.domainOf(w.core.consumer.item.url));
    }
  }

  lemma CapsKept(cfg: Config, w: World, step: Step)
    requires Enabled(cfg, w, step) && DelaysCapped(w.core.domains)
    ensures DelaysCapped(Apply(cfg, w, step).core.domains)
  {
  }

  lemma DispatchSpaced(cfg: Config, w: World, now: real, at: real, x: Dispatched)
    requires Enabled(cfg, w, Resumed(now, at)) && PauseLongEnough(cfg, w.core)
    requires Remembered(w.core.domains, w.clock, x)
    requires x.domain == cfg.domainOf(w.core.consumer.item.url)
    ensures at - x.time >= w.core.consumer.delay
  {
  }

  lemma SpacedKept(cfg: Config, w: World, step: Step)
    requires Enabled(cfg, w, step) && SpacingInv(cfg, w)
    ensures Spaced(Apply(cfg, w, step).log)
  {
    if step.Resumed? {
      forall x | x in w.log && x.domain == cfg.domainOf(w.core.consumer.item.url)
        ensures step.at - x.time >= w.core.consumer.delay
      {
        DispatchSpaced(cfg, w, step.now, step.at, x);
      }
    }
  }

  lemma DispatchRemembered(cfg: Config, w: World, now: real, at: real)
    requires Enabled(cfg, w, Resumed(now, at)) && PendingInv(cfg, w) && !LimitReached(cfg, w.core, now)
    ensures Remembered(Apply(cfg, w, Resumed(now, at)).core.domains, at, Apply(cfg, w, Resumed(now, at)).log[|w.log|])
  {
    HandedIsPending(cfg, w);
    PruneKeepsPending(w.core.domains, MAX_TRACKED_DOMAINS, now, cfg.domainOf(w.core.consumer.item.url));
  }

  lemma RememberedKept(cfg: Config, w: World, step: Step)
    requires Enabled(cfg, w, step) && PendingInv(cfg, w) && AllRemembered(w)
    ensures AllRemembered(Apply(cfg, w, step))
  {
    var w' := Apply(cfg, w, step);
    ClockAdvances(cfg, w, step);
    if step.Resumed? && !LimitReached(cfg, w.core, step.now) {
      DispatchRemembered(cfg, w, step.now, step.at);
    }
    forall x | x in w'.log ensures Remembered(w'.core.domains, w'.clock, x) && x.time <= w'.clock {
      if x in w.log {
        StillRemembered(cfg, w, step, x);
      }
    }
  }

  lemma SpacingKept(cfg: Config, w: World, step: Step)
    requires cfg.politenessDelay <= DOMAIN_STALE_SECONDS
    requires Enabled(cfg, w, step) && PendingInv(cfg, w) && SpacingInv(cfg, w)
    ensures SpacingInv(cfg, Apply(cfg, w, step))
  {
    PendingKept(cfg, w, step);
    PauseKept(cfg, w, step);
    CapsKept(cfg, w, step);
    RememberedKept(cfg, w, step);
    SpacedKept(cfg, w, step);
  }

  // ---- The hourly limit -------------------------------------------------------------------------------------

  function CountWindow(log: seq<Dispatched>, k: nat): nat {
    if log == [] then 0 else CountWindow(log[..|log| - 1], k) + One(log[|log| - 1].window == k)
  }

  lemma CountWindowPush(log: seq<Dispatched>, x: Dispatched, k: nat)
    ensures CountWindow(log + [x], k) == CountWindow(log, k) + One(x.window == k)
  {
    assert (log + [x])[..|log|] == log;
  }

  lemma {:induction false} CountWindowZero(log: seq<Dispatched>, k: nat)
    requires forall x | x in log :: x.window < k
    ensures CountWindow(log, k) == 0
  {
    if log != [] {
      assert log[|log| - 1] in log;
      CountWindowZero(log[..|log| - 1], k);
    }
  }

  /** A dispatch lies within its window, whose end is the next window's start. */
  predicate InWindow(starts: seq<real>, x: Dispatched) {
    && x.window < |starts|
    && starts[x.window] <= x.time
    && (x.window + 1 < |starts| ==> x.time <= starts[x.window + 1])
  }

  predicate StartsApart(starts: seq<real>) {
    forall k | 0 <= k < |starts| - 1 :: starts[k + 1] - starts[k] >= 3600.0
  }

  ghost predicate WindowInv(cfg: Config, w: World) {
    && w.starts != []
    && w.core.hourStart == w.starts[|w.starts| - 1] <= w.clock
    && StartsApart(w.starts)
    && (forall x | x in w.log :: InWindow(w.starts, x) && x.time <= w.clock)
    && w.core.hourlyCount == CountWindow(w.log, |w.starts| - 1)
    && (forall k: nat :: CountWindow(w.log, k) <= cfg.limit)
  }

  lemma QuietKeepsWindow(cfg: Config, w: World, step: Step)
    requires Enabled(cfg, w, step) && !step.Resumed? && WindowInv(cfg, w)
    ensures WindowInv(cfg, Apply(cfg, w, step))
  {
    var w' := Apply(cfg, w, step);
    ClockAdvances(cfg, w, step);
    assert w'.log == w.log && w'.starts == w.starts;
    assert w'.core.hourlyCount == w.core.hourlyCount && w'.core.hourStart == w.core.hourStart;
  }

  lemma NewWindow(w: World, now: real)
    requires w.starts != [] && now >= w.clock
    requires w.core.hourStart == w.starts[|w.starts| - 1]
    requires now - w.core.hourStart >= 3600.0 && StartsApart(w.starts)
    requires forall x | x in w.log :: InWindow(w.starts, x) && x.time <= w.clock
    ensures StartsApart(w.starts + [now])
    ensures forall x | x in w.log :: InWindow(w.starts + [now], x)
    ensures CountWindow(w.log, |w.starts|) == 0
  {
    CountWindowZero(w.log, |w.starts|);
  }

  /** The world after the hour's check inside get_url. */
  function Checked(cfg: Config, w: World, now: real): World {
    w.(core := Refreshed(cfg, w.core, now), starts := StartsAfter(cfg, w, now))
  }

  lemma CheckKeepsWindow(cfg: Config, w: World, now: real)
    requires cfg.limit > 0 && now >= w.clock && WindowInv(cfg, w)
    ensures WindowInv(cfg, Checked(cfg, w, now).(clock := now))
  {
    if now - w.core.hourStart >= 3600.0 {
      NewWindow(w, now);
    }
  }

  lemma DispatchKeepsWindow(cfg: Config, c: World, w: World, x: Dispatched)
    requires WindowInv(cfg, c) && c.core.hourlyCount < cfg.limit
    requires w.starts == c.starts && w.core.hourStart == c.core.hourStart
    requires w.core.hourlyCount == c.core.hourlyCount + 1 && w.log == c.log + [x]
    requires x.time == w.clock >= c.clock && x.window == |c.starts| - 1
    ensures WindowInv(cfg, w)
  {
    forall k: nat ensures CountWindow(w.log, k) == CountWindow(c.log, k) + One(k == |c.starts| - 1) {
      CountWindowPush(c.log, x, k);
    }
  }

  lemma ResumeKeepsWindow(cfg: Config, w: World, now: real, at: real)
    requires cfg.limit > 0 && Enabled(cfg, w, Resumed(now, at)) && WindowInv(cfg, w)
    ensures WindowInv(cfg, Apply(cfg, w, Resumed(now, at)))
  {
    CheckKeepsWindow(cfg, w, now);
    var c := Checked(cfg, w, now).(clock := now);
    var w' := Resume(cfg, w, now, at);
    if LimitReached(cfg, w.core, now) {
      assert w'.starts == c.starts && w'.core.hourStart == c.core.hourStart;
      assert w'.log == c.log && w'.core.hourlyCount == c.core.hourlyCount;
    } else {
      DispatchKeepsWindow(cfg, c, w', w'.log[|w.log|]);
    }
  }

  lemma WindowKept(cfg: Config, w: World, step: Step)
    requires cfg.limit > 0 && Enabled(cfg, w, step) && WindowInv(cfg, w)
    ensures WindowInv(cfg, Apply(cfg, w, step))
  {
    if step.Resumed? {
      ResumeKeepsWindow(cfg, w, step.now, step.at);
    } else {
      QuietKeepsWindow(cfg, w, step);
    }
  }

  /** The dispatches at or after `a` and before `a + 3600`. */
  function CountHour(log: seq<Dispatched>, a: real): nat {
    if log == [] then 0
    else CountHour(log[..|log| - 1], a) + One(a <= log[|log| - 1].time < a + 3600.0)
  }

  lemma {:induction false} StartsGrow(starts: seq<real>, i: nat, k: nat)
    requires StartsApart(starts) && i < k < |starts|
    ensures starts[k] - starts[i] >= 3600.0
    decreases k - i
  {
    if i + 1 < k {
      StartsGrow(starts, i + 1, k);
    }
  }

  lemma HourMeetsTwoWindows(starts: seq<real>, x: Dispatched, y: Dispatched, a: real)
    requires StartsApart(starts) && InWindow(starts, x) && InWindow(starts, y)
    requires a <= x.time < a + 3600.0 && a <= y.time < a + 3600.0
    ensures y.window <= x.window + 1
  {
    if x.window + 1 < y.window {
      StartsGrow(starts, x.window + 1, y.window);
    }
  }

  lemma {:induction false} CountHourBound(log: seq<Dispatched>, a: real, k: nat)
    requires forall x | x in log && a <= x.time < a + 3600.0 :: x.window == k || x.window == k + 1
    ensures CountHour(log, a) <= CountWindow(log, k) + CountWindow(log, k + 1)
  {
    if log != [] {
      assert log[|log| - 1] in log;
      CountHourBound(log[..|log| - 1], a, k);
    }
  }

  lemma {:induction false} EarliestWindow(log: seq<Dispatched>, a: real) returns (k: nat)
    ensures forall x | x in log && a <= x.time < a + 3600.0 :: k <= x.window
    ensures CountHour(log, a) > 0 ==> exists x :: x in log && a <= x.time < a + 3600.0 && x.window == k
  {
    if log == [] {
      k := 0;
    } else {
      var init, last := log[..|log| - 1], log[|log| - 1];
      var k0 := EarliestWindow(init, a);
      assert forall x :: x in log <==> x in init || x == last;
      if a <= last.time < a + 3600.0 && (CountHour(init, a) == 0 || last.window < k0) {
        k := last.window;
        assert last in log;
        NoneInHour(init, a);
      } else {
        k := k0;
      }
    }
  }

  lemma {:induction false} NoneInHour(log: seq<Dispatched>, a: real)
    ensures CountHour(log, a) == 0 <==> forall x | x in log :: !(a <= x.time < a + 3600.0)
  {
    if log != [] {
      var init, last := log[..|log| - 1], log[|log| - 1];
      assert forall x :: x in log <==> x in init || x == last;
      NoneInHour(init, a);
    }
  }

  lemma HourBound(cfg: Config, w: World, a: real)
    requires cfg.limit > 0 && WindowInv(cfg, w)
    ensures CountHour(w.log, a) <= 2 * cfg.limit
  {
    var k := EarliestWindow(w.log, a);
    if CountHour(w.log, a) > 0 {
      var x :| x in w.log && a <= x.time < a + 3600.0 && x.window == k;
      forall y | y in w.log && a <= y.time < a + 3600.0 ensures y.window == k || y.window == k + 1 {
        HourMeetsTwoWindows(w.starts, x, y, a);
      }
      CountHourBound(w.log, a, k);
    }
  }

  // ---- All runs ---------------------------------------------------------------------------------------------

  lemma {:induction false} PendingAlways(cfg: Config, w: World, steps: seq<Step>)
    requires IsRun(cfg, w, steps) && PendingInv(cfg, w)
    ensures PendingInv(cfg, Outcome(cfg, w, steps))
    decreases |steps|
  {
    if steps != [] {
      PendingKept(cfg, w, steps[0]);
      PendingAlways(cfg, Apply(cfg, w, steps[0]), steps[1..]);
    }
  }

  lemma {:induction false} SpacingAlways(cfg: Config, w: World, steps: seq<Step>)
    requires cfg.politenessDelay <= DOMAIN_STALE_SECONDS
    requires IsRun(cfg, w, steps) && PendingInv(cfg, w) && SpacingInv(cfg, w)
    ensures SpacingInv(cfg, Outcome(cfg, w, steps))
    decreases |steps|
  {
    if steps != [] {
      PendingKept(cfg, w, steps[0]);
      SpacingKept(cfg, w, steps[0]);
      SpacingAlways(cfg, Apply(cfg, w, steps[0]), steps[1..]);
    }
  }

  lemma {:induction false} WindowAlways(cfg: Config, w: World, steps: seq<Step>)
    requires cfg.limit > 0 && IsRun(cfg, w, steps) && WindowInv(cfg, w)
    ensures WindowInv(cfg, Outcome(cfg, w, steps))
    decreases |steps|
  {
    if steps != [] {
      WindowKept(cfg, w, steps[0]);
      WindowAlways(cfg, Apply(cfg, w, steps[0]), steps[1..]);
    }
  }

  lemma PendingFromStart(cfg: Config, w: World, steps: seq<Step>)
    requires Start(w) && IsRun(cfg, w, steps)
    ensures PendingInv(cfg, Outcome(cfg, w, steps))
  {
    forall e ensures PendingExactAt(cfg, w, e) {
    }
    PendingAlways(cfg, w, steps);
  }

  /** A domain's counter is the number of its URLs queued, handed out or lost, never more than the setting allows,
      and a domain with such a URL is never forgotten. */
  lemma PendingCounters(cfg: Config, w: World, steps: seq<Step>, d: string)
    requires Start(w) && IsRun(cfg, w, steps)
    ensures var t := Outcome(cfg, w, steps);
            && PendingOf(t.core.domains, d) == Active(cfg, t, d) + CountIf(t.lost, InDomain(cfg, d))
            && PendingOf(t.core.domains, d) <= Cap(cfg)
            && (Active(cfg, t, d) + CountIf(t.lost, InDomain(cfg, d)) > 0 ==> d in t.core.domains)
  {
    PendingFromStart(cfg, w, steps);
    assert PendingExactAt(cfg, Outcome(cfg, w, steps), d);
  }

  /** In every run a URL is turned away exactly if it is too deep or its domain has as many URLs pending as the setting
      allows. */
  lemma AcceptedIff(cfg: Config, w: World, steps: seq<Step>, item: Item, now: real)
    requires Start(w) && IsRun(cfg, w, steps) && Enabled(cfg, Outcome(cfg, w, steps), Add(item, now))
    ensures var t := Outcome(cfg, w, steps);
            var d := cfg.domainOf(item.url);
            Apply(cfg, t, Add(item, now)).accepted
            == if (cfg.maxDepth > 0 && item.depth > cfg.maxDepth)
                  || Active(cfg, t, d) + CountIf(t.lost, InDomain(cfg, d)) >= cfg.pendingPerDomain
               then t.accepted else t.accepted + [item]
  {
    var t := Outcome(cfg, w, steps);
    var d := cfg.domainOf(item.url);
    PendingFromStart(cfg, w, steps);
    assert PendingExactAt(cfg, t, d);
    PruneKeepsPending(t.core.domains, DOMAIN_PRUNE_THRESHOLD, now, d);
  }

  /** Requests to one domain keep the delay in force when the later URL was taken, even if the domain was
      forgotten in between. */
  lemma RequestsSpaced(cfg: Config, w: World, steps: seq<Step>)
    requires cfg.politenessDelay <= DOMAIN_STALE_SECONDS
    requires Start(w) && IsRun(cfg, w, steps)
    ensures Spaced(Outcome(cfg, w, steps).log)
  {
    forall e ensures PendingExactAt(cfg, w, e) {
    }
    SpacingAlways(cfg, w, steps);
  }

  /** A number in the configuration file. */
  datatype Setting = Whole(n: int) | Fraction(x: real)

  function Clamped(delay: real): real {
    if delay < 0.1 then 0.1 else if delay > 60.0 then 60.0 else delay
  }

  /** The politeness delay the configuration makes of a setting: it is brought within the bounds, but a whole number
      stays one. */
  function Validated(setting: Setting): real {
    match setting
    case Whole(n) => Clamped(n as real).Floor as real
    case Fraction(x) => Clamped(x)
  }

  /** The delay is within its bounds unless the setting is a whole number below 1, of which the clamping makes 0. */
  lemma WithinBoundsIff(setting: Setting)
    ensures 0.1 <= Validated(setting) <= 60.0 <==> setting.Fraction? || setting.n >= 1
    ensures 0.0 <= Validated(setting) <= 60.0
  {
    if setting.Whole? {
      assert setting.n < 1 ==> Clamped(setting.n as real) == 0.1;
      assert 1 <= setting.n <= 60 ==> (setting.n as real).Floor == setting.n;
    }
  }

  /** So under every setting the configuration lets through, requests to a domain keep their delay, which is at
      most a minute. */
  lemma ConfiguredDelayKept(cfg: Config, setting: Setting, w: World, steps: seq<Step>)
    requires cfg.politenessDelay == Validated(setting)
    requires Start(w) && IsRun(cfg, w, steps)
    ensures Spaced(Outcome(cfg, w, steps).log)
    ensures forall x | x in Outcome(cfg, w, steps).log :: x.delay <= MAX_DELAY
  {
    WithinBoundsIff(setting);
    RequestsSpaced(cfg, w, steps);
    DelaysShort(cfg, w, steps);
  }

  /** No delay in force is above a minute. */
  ghost predicate ShortDelays(w: World) {
    && DelaysCapped(w.core.domains)
    && (w.core.consumer.Pausing? ==> w.core.consumer.delay <= MAX_DELAY)
    && forall x | x in w.log :: x.delay <= MAX_DELAY
  }

  lemma ShortDelaysKept(cfg: Config, w: World, step: Step)
    requires cfg.politenessDelay <= MAX_DELAY && Enabled(cfg, w, step) && ShortDelays(w)
    ensures ShortDelays(Apply(cfg, w, step))
  {
    CapsKept(cfg, w, step);
    var w' := Apply(cfg, w, step);
    if step.Resumed? && !LimitReached(cfg, w.core, step.now) {
      forall x | x in w'.log ensures x.delay <= MAX_DELAY {
        assert x in w.log || x == w'.log[|w.log|];
      }
    }
  }

  lemma {:induction false} DelaysShort(cfg: Config, w: World, steps: seq<Step>)
    requires cfg.politenessDelay <= MAX_DELAY && IsRun(cfg, w, steps) && ShortDelays(w)
    ensures ShortDelays(Outcome(cfg, w, steps))
    decreases |steps|
  {
    if steps != [] {
      ShortDelaysKept(cfg, w, steps[0]);
      DelaysShort(cfg, Apply(cfg, w, steps[0]), steps[1..]);
    }
  }

  /** Each counter window sees at most `limit` requests, and so any hour at most twice as many. */
  lemma HourlyLimit(cfg: Config, w: World, steps: seq<Step>, a: real, k: nat)
    requires cfg.limit > 0 && Start(w) && IsRun(cfg, w, steps)
    ensures CountWindow(Outcome(cfg, w, steps).log, k) <= cfg.limit
    ensures CountHour(Outcome(cfg, w, steps).log, a) <= 2 * cfg.limit
  {
    WindowAlways(cfg, w, steps);
    HourBound(cfg, Outcome(cfg, w, steps), a);
  }

  // ---- Building runs ----------------------------------------------------------------------------------------

  /** A run continued by one step. */
  lemma Then(cfg: Config, w: World, steps: seq<Step>, t: World, step: Step) returns (steps': seq<Step>, t': World)
    requires IsRun(cfg, w, steps) && Outcome(cfg, w, steps) == t && Enabled(cfg, t, step)
    ensures IsRun(cfg, w, steps') && Outcome(cfg, w, steps') == t' == Apply(cfg, t, step)
    decreases |steps|
  {
    if steps == [] {
      steps', t' := [step], Apply(cfg, t, step);
      assert [step][1..] == [];
    } else {
      var rest;
      rest, t' := Then(cfg, Apply(cfg, w, steps[0]), steps[1..], t, step);
      steps' := [steps[0]] + rest;
      assert steps'[1..] == rest;
    }
  }
}
