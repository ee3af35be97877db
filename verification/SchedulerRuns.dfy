/** Runs of the scheduler with one consumer, which may cancel its get_url at any wait, and in which every URL
    handed out is marked done or errored once. */
module SchedulerRuns {
  import opened Scheduling

  /** One URL handed to the consumer: when, under which delay, and in which counter window. */
  datatype Dispatched = Dispatched(domain: string, time: real, delay: real, window: nat)

  /** The scheduler together with what has happened: the URLs it accepted and handed out, in order,
      those handed out and not yet marked, those in hand when get_url was cancelled, and the times at which the
      hourly counter was started. */
  datatype World = World(
    core: Core, clock: real, accepted: seq<Item>, returned: seq<Item>, outstanding: seq<Item>,
    lost: seq<Item>, log: seq<Dispatched>, starts: seq<real>
  )

  datatype Step =
    | Add(item: Item, now: real)
    | Unblocked(i: nat, now: real)
    | Taken(now: real)
    | Resumed(now: real, at: real)   // `at` is the later clock reading after the hour's check
    | PutBackMade(now: real)
    | Finished(i: nat, error: bool, now: real)
    | DelaySet(domain: string, delay: real, now: real)
    | Cancelled(now: real)

  predicate Start(w: World) {
    && w.core == Core(map[], [], [], Outside, 0, w.clock)
    && w.accepted == [] && w.returned == [] && w.outstanding == [] && w.lost == [] && w.log == []
    && w.starts == [w.clock]
  }

  predicate Enabled(cfg: Config, w: World, step: Step) {
    && step.now >= w.clock
    && match step
       case Add(_, _) => true
       case Unblocked(i, _) => i < |w.core.waiting| && |w.core.queue| < QUEUE_SIZE
       case Taken(now) =>
         && w.core.queue != []
         && (w.core.consumer.Outside? || (w.core.consumer.HourPause? && now >= w.core.consumer.until))
       case Resumed(now, at) => w.core.consumer.Pausing? && now >= w.core.consumer.until && at >= now
       case PutBackMade(_) => w.core.consumer.PuttingBack? && |w.core.queue| < QUEUE_SIZE
       case Finished(i, _, _) => i < |w.outstanding|
       case DelaySet(_, _, _) => true
       case Cancelled(_) =>
         // Without a pause there is no await at which get_url could be cancelled.
         w.core.consumer.Pausing? ==> w.core.consumer.until > w.core.consumer.since
  }

  function RemoveAt<T>(xs: seq<T>, i: nat): seq<T>
    requires i < |xs|
  {
    xs[..i] + xs[i + 1..]
  }

  function StartsAfter(cfg: Config, w: World, now: real): seq<real> {
    if cfg.limit > 0 && now - w.core.hourStart >= 3600.0 then w.starts + [now] else w.starts
  }

  function Resume(cfg: Config, w: World, now: real, at: real): World
    requires w.core.consumer.Pausing?
  {
    var starts := StartsAfter(cfg, w, now);
    var item := w.core.consumer.item;
    if LimitReached(cfg, w.core, now) then w.(core := PutBack(cfg, w.core, now, at), clock := at, starts := starts)
    else
      w.(core := Dispatch(cfg, w.core, now, at), clock := at, starts := starts,
         returned := w.returned + [item], outstanding := w.outstanding + [item],
         log := w.log + [Dispatched(cfg.domainOf(item.url), at, w.core.consumer.delay,
                                    if |starts| > 0 then |starts| - 1 else 0)])
  }

  function Apply(cfg: Config, w: World, step: Step): World
    requires Enabled(cfg, w, step)
  {
    match step
    case Add(item, now) =>
      var (core, ok) := AddUrl(cfg, w.core, item, now);
      w.(core := core, clock := now, accepted := if ok then w.accepted + [item] else w.accepted)
    case Unblocked(i, now) => w.(core := Unblock(w.core, i), clock := now)
    case Taken(now) => w.(core := Take(cfg, w.core, now), clock := now)
    case Resumed(now, at) => Resume(cfg, w, now, at)
    case PutBackMade(now) => w.(core := PutBackDone(w.core, now), clock := now)
    case Finished(i, error, now) =>
      var url := w.outstanding[i].url;
      w.(core := if error then MarkError(cfg, w.core, url, now) else MarkDone(cfg, w.core, url, now), clock := now,
         outstanding := RemoveAt(w.outstanding, i))
    case DelaySet(d, delay, now) => w.(core := SetCrawlDelay(w.core, d, delay), clock := now)
    case Cancelled(now) => w.(core := Cancel(w.core), clock := now, lost := w.lost + InHand(w.core.consumer))
  }

  ghost predicate IsRun(cfg: Config, w: World, steps: seq<Step>)
    decreases |steps|
  {
    steps == [] || (Enabled(cfg, w, steps[0]) && IsRun(cfg, Apply(cfg, w, steps[0]), steps[1..]))
  }

  ghost function Outcome(cfg: Config, w: World, steps: seq<Step>): World
    requires IsRun(cfg, w, steps)
    decreases |steps|
  {
    if steps == [] then w else Outcome(cfg, Apply(cfg, w, steps[0]), steps[1..])
  }

  // ---- Counting the URLs in the scheduler's hands -----------------------------------------------------------

  function InHand(c: Consumer): seq<Item> {
    match c
    case Pausing(item, _, _, _) => [item]
    case PuttingBack(item, _) => [item]
    case _ => []
  }

  function One(b: bool): nat {
    if b then 1 else 0
  }

  function CountIf(items: seq<Item>, p: Item -> bool): nat {
    if items == [] then 0 else CountIf(items[..|items| - 1], p) + One(p(items[|items| - 1]))
  }

  lemma CountPush(xs: seq<Item>, x: Item, p: Item -> bool)
    ensures CountIf(xs + [x], p) == CountIf(xs, p) + One(p(x))
  {
    assert (xs + [x])[..|xs|] == xs;
  }

  lemma CountSingle(x: Item, p: Item -> bool)
    ensures CountIf([x], p) == One(p(x))
  {
    assert [x][..0] == [];
  }

  lemma {:induction false} CountRemoved(xs: seq<Item>, i: nat, p: Item -> bool)
    requires i < |xs|
    ensures CountIf(xs, p) == CountIf(RemoveAt(xs, i), p) + One(p(xs[i]))
  {
    var n := |xs| - 1;
    if i == n {
      assert RemoveAt(xs, i) == xs[..n];
    } else {
      CountRemoved(xs[..n], i, p);
      assert RemoveAt(xs, i) == RemoveAt(xs[..n], i) + [xs[n]];
      CountPush(RemoveAt(xs[..n], i), xs[n], p);
    }
  }

  function Is(x: Item): Item -> bool {
    y => y == x
  }

  lemma {:induction false} CountIsMultiplicity(xs: seq<Item>, x: Item)
    ensures CountIf(xs, Is(x)) == multiset(xs)[x]
  {
    if xs != [] {
      CountIsMultiplicity(xs[..|xs| - 1], x);
      assert xs == xs[..|xs| - 1] + [xs[|xs| - 1]];
    }
  }

  /** The URLs that are queued, about to be queued, or held inside get_url. */
  function Load(c: Core, p: Item -> bool): nat {
    CountIf(c.queue, p) + CountIf(c.waiting, p) + CountIf(InHand(c.consumer), p)
  }

  lemma PutLoad(c: Core, item: Item, p: Item -> bool)
    ensures Load(Put(c, item), p) == Load(c, p) + One(p(item))
  {
    CountPush(c.queue, item, p);
    CountPush(c.waiting, item, p);
  }

  lemma AddLoad(cfg: Config, c: Core, item: Item, now: real, p: Item -> bool)
    ensures Load(AddUrl(cfg, c, item, now).0, p) == Load(c, p) + One(AddUrl(cfg, c, item, now).1 && p(item))
  {
    var c' := AddUrl(cfg, c, item, now).0;
    PutLoad(c.(domains := c'.domains), item, p);
  }

  lemma UnblockLoad(c: Core, i: nat, p: Item -> bool)
    requires i < |c.waiting|
    ensures Load(Unblock(c, i), p) == Load(c, p)
  {
    CountRemoved(c.waiting, i, p);
    CountPush(c.queue, c.waiting[i], p);
  }

  lemma TakeLoad(cfg: Config, c: Core, now: real, p: Item -> bool)
    requires c.queue != [] && InHand(c.consumer) == []
    ensures Load(Take(cfg, c, now), p) == Load(c, p)
  {
    CountRemoved(c.queue, 0, p);
    assert RemoveAt(c.queue, 0) == c.queue[1..];
    CountSingle(c.queue[0], p);
  }

  lemma RefreshLoad(cfg: Config, c: Core, now: real)
    ensures Refreshed(cfg, c, now).queue == c.queue && Refreshed(cfg, c, now).waiting == c.waiting
    ensures Refreshed(cfg, c, now).consumer == c.consumer
  {
  }

  lemma PutBackLoad(cfg: Config, c: Core, now: real, at: real, p: Item -> bool)
    requires c.consumer.Pausing?
    ensures Load(PutBack(cfg, c, now, at), p) == Load(c, p)
  {
    hide PutBack;
    PutBackWhere(cfg, c, now, at);
    CountPush(c.queue, c.consumer.item, p);
    CountSingle(c.consumer.item, p);
  }

  lemma PutBackWhere(cfg: Config, c: Core, now: real, at: real)
    requires c.consumer.Pausing?
    ensures var c' := PutBack(cfg, c, now, at);
            && c'.waiting == c.waiting
            && if |c.queue| < QUEUE_SIZE then c'.queue == c.queue + [c.consumer.item] && InHand(c'.consumer) == []
               else c'.queue == c.queue && InHand(c'.consumer) == [c.consumer.item]
  {
  }

  lemma PutBackDoneLoad(c: Core, now: real, p: Item -> bool)
    requires c.consumer.PuttingBack?
    ensures Load(PutBackDone(c, now), p) == Load(c, p)
  {
    CountPush(c.queue, c.consumer.item, p);
    CountSingle(c.consumer.item, p);
  }

  lemma DispatchLoad(cfg: Config, c: Core, now: real, at: real, p: Item -> bool)
    requires c.consumer.Pausing?
    ensures Load(Dispatch(cfg, c, now, at), p) + One(p(c.consumer.item)) == Load(c, p)
  {
    RefreshLoad(cfg, c, now);
    CountSingle(c.consumer.item, p);
  }

  lemma MarkLoad(cfg: Config, c: Core, url: string, now: real, p: Item -> bool)
    ensures Load(MarkDone(cfg, c, url, now), p) == Load(c, p)
    ensures Load(MarkError(cfg, c, url, now), p) == Load(c, p)
  {
  }

  lemma CountConcat(xs: seq<Item>, ys: seq<Item>, p: Item -> bool)
    requires |ys| <= 1
    ensures CountIf(xs + ys, p) == CountIf(xs, p) + CountIf(ys, p)
  {
    if ys == [] {
      assert xs + ys == xs;
    } else {
      assert ys == [ys[0]];
      CountPush(xs, ys[0], p);
      CountSingle(ys[0], p);
    }
  }

  lemma CancelLoad(c: Core, p: Item -> bool)
    ensures Load(Cancel(c), p) + CountIf(InHand(c.consumer), p) == Load(c, p)
  {
  }

  // ---- Every URL is accounted for ---------------------------------------------------------------------------

  ghost predicate Balanced(w: World, p: Item -> bool) {
    CountIf(w.accepted, p) == Load(w.core, p) + CountIf(w.returned, p) + CountIf(w.lost, p)
  }

  /** What happens at the end of a pause when the hour's limit is reached. */
  lemma ResumePutsBack(cfg: Config, w: World, now: real, at: real)
    requires w.core.consumer.Pausing? && LimitReached(cfg, w.core, now)
    ensures var w' := Resume(cfg, w, now, at);
            && w'.core == PutBack(cfg, w.core, now, at) && w'.accepted == w.accepted && w'.returned == w.returned
            && w'.outstanding == w.outstanding && w'.lost == w.lost && w'.log == w.log
  {
  }

  /** What happens otherwise. */
  lemma ResumeHandsOut(cfg: Config, w: World, now: real, at: real)
    requires w.core.consumer.Pausing? && !LimitReached(cfg, w.core, now)
    ensures var w', item := Resume(cfg, w, now, at), w.core.consumer.item;
            && w'.core == Dispatch(cfg, w.core, now, at) && w'.accepted == w.accepted && w'.lost == w.lost
            && w'.returned == w.returned + [item] && w'.outstanding == w.outstanding + [item]
            && w'.clock == at && w'.starts == StartsAfter(cfg, w, now) && |w'.log| == |w.log| + 1
            && w'.log[..|w.log|] == w.log && w'.log[|w.log|].time == at
  {
  }

  lemma SameBalance(w: World, w': World, p: Item -> bool)
    requires Balanced(w, p) && w'.accepted == w.accepted && w'.returned == w.returned && w'.lost == w.lost
    requires Load(w'.core, p) == Load(w.core, p)
    ensures Balanced(w', p)
  {
  }

  lemma HandedOutBalance(w: World, w': World, item: Item, p: Item -> bool)
    requires Balanced(w, p) && w'.accepted == w.accepted && w'.returned == w.returned + [item] && w'.lost == w.lost
    requires Load(w'.core, p) + One(p(item)) == Load(w.core, p)
    ensures Balanced(w', p)
  {
    CountPush(w.returned, item, p);
  }

  lemma ResumeBalanced(cfg: Config, w: World, now: real, at: real, p: Item -> bool)
    requires w.core.consumer.Pausing? && Balanced(w, p)
    ensures Balanced(Resume(cfg, w, now, at), p)
  {
    if LimitReached(cfg, w.core, now) {
      ResumePutsBack(cfg, w, now, at);
      PutBackLoad(cfg, w.core, now, at, p);
      SameBalance(w, Resume(cfg, w, now, at), p);
    } else {
      ResumeHandsOut(cfg, w, now, at);
      DispatchLoad(cfg, w.core, now, at, p);
      HandedOutBalance(w, Resume(cfg, w, now, at), w.core.consumer.item, p);
    }
  }

  lemma AddBalanced(cfg: Config, w: World, item: Item, now: real, p: Item -> bool)
    requires Enabled(cfg, w, Add(item, now)) && Balanced(w, p)
    ensures Balanced(Apply(cfg, w, Add(item, now)), p)
  {
    AddLoad(cfg, w.core, item, now, p);
    CountPush(w.accepted, item, p);
  }

  lemma CancelBalanced(cfg: Config, w: World, now: real, p: Item -> bool)
    requires Enabled(cfg, w, Cancelled(now)) && Balanced(w, p)
    ensures Balanced(Apply(cfg, w, Cancelled(now)), p)
  {
    CancelLoad(w.core, p);
    CountConcat(w.lost, InHand(w.core.consumer), p);
  }

  lemma BalancedKept(cfg: Config, w: World, step: Step, p: Item -> bool)
    requires Enabled(cfg, w, step) && Balanced(w, p)
    ensures Balanced(Apply(cfg, w, step), p)
  {
    match step
    case Add(item, now) => AddBalanced(cfg, w, item, now, p);
    case Unblocked(i, _) =>
      UnblockLoad(w.core, i, p);
      SameBalance(w, Apply(cfg, w, step), p);
    case Taken(now) =>
      TakeLoad(cfg, w.core, now, p);
      SameBalance(w, Apply(cfg, w, step), p);
    case Resumed(now, at) => ResumeBalanced(cfg, w, now, at, p);
    case PutBackMade(now) =>
      PutBackDoneLoad(w.core, now, p);
      SameBalance(w, Apply(cfg, w, step), p);
    case Finished(i, _, now) =>
      MarkLoad(cfg, w.core, w.outstanding[i].url, now, p);
      SameBalance(w, Apply(cfg, w, step), p);
    case DelaySet(_, _, _) => SameBalance(w, Apply(cfg, w, step), p);
    case Cancelled(now) => CancelBalanced(cfg, w, now, p);
  }

  lemma {:induction false} BalancedAlways(cfg: Config, w: World, steps: seq<Step>, p: Item -> bool)
    requires IsRun(cfg, w, steps) && Balanced(w, p)
    ensures Balanced(Outcome(cfg, w, steps), p)
    decreases |steps|
  {
    if steps != [] {
      BalancedKept(cfg, w, steps[0], p);
      BalancedAlways(cfg, Apply(cfg, w, steps[0]), steps[1..], p);
    }
  }

  /** In every run, each URL is in the scheduler's hands, was handed out, or was in hand at a cancellation, exactly
      as often as it was accepted, whatever the hourly limit put back. */
  lemma EachAccountedFor(cfg: Config, w: World, steps: seq<Step>, x: Item)
    requires Start(w) && IsRun(cfg, w, steps)
    ensures var t := Outcome(cfg, w, steps);
            multiset(t.accepted)[x]
            == multiset(t.core.queue)[x] + multiset(t.core.waiting)[x] + multiset(InHand(t.core.consumer))[x]
               + multiset(t.returned)[x] + multiset(t.lost)[x]
  {
    BalancedAlways(cfg, w, steps, Is(x));
    var t := Outcome(cfg, w, steps);
    CountIsMultiplicity(t.accepted, x);
    CountIsMultiplicity(t.core.queue, x);
    CountIsMultiplicity(t.core.waiting, x);
    CountIsMultiplicity(InHand(t.core.consumer), x);
    CountIsMultiplicity(t.returned, x);
    CountIsMultiplicity(t.lost, x);
  }

  /** The step cancels get_url while it holds a URL: during the politeness pause, or before the URL is put back. */
  predicate DropsUrl(w: World, step: Step) {
    step.Cancelled? && (w.core.consumer.Pausing? || w.core.consumer.PuttingBack?)
  }

  ghost predicate DropsNone(cfg: Config, w: World, steps: seq<Step>)
    requires IsRun(cfg, w, steps)
    decreases |steps|
  {
    steps == [] || (!DropsUrl(w, steps[0]) && DropsNone(cfg, Apply(cfg, w, steps[0]), steps[1..]))
  }

  lemma LostByStep(cfg: Config, w: World, step: Step)
    requires Enabled(cfg, w, step)
    ensures w.lost <= Apply(cfg, w, step).lost
    ensures Apply(cfg, w, step).lost == w.lost <==> !DropsUrl(w, step)
  {
  }

  lemma {:induction false} LostGrows(cfg: Config, w: World, steps: seq<Step>)
    requires IsRun(cfg, w, steps)
    ensures w.lost <= Outcome(cfg, w, steps).lost
    ensures Outcome(cfg, w, steps).lost == w.lost <==> DropsNone(cfg, w, steps)
    decreases |steps|
  {
    if steps != [] {
      LostByStep(cfg, w, steps[0]);
      LostGrows(cfg, Apply(cfg, w, steps[0]), steps[1..]);
    }
  }

  /** No URL is lost in a run exactly if no cancellation of get_url finds it holding one. */
  lemma NothingLostIff(cfg: Config, w: World, steps: seq<Step>)
    requires Start(w) && IsRun(cfg, w, steps)
    ensures (forall x :: var t := Outcome(cfg, w, steps);
               multiset(t.accepted)[x]
               == multiset(t.core.queue)[x] + multiset(t.core.waiting)[x] + multiset(InHand(t.core.consumer))[x]
                  + multiset(t.returned)[x])
      <==> DropsNone(cfg, w, steps)
  {
    var t := Outcome(cfg, w, steps);
    LostGrows(cfg, w, steps);
    forall x ensures multiset(t.accepted)[x]
      == multiset(t.core.queue)[x] + multiset(t.core.waiting)[x] + multiset(InHand(t.core.consumer))[x]
         + multiset(t.returned)[x] + multiset(t.lost)[x]
    {
      EachAccountedFor(cfg, w, steps, x);
    }
    if t.lost != [] {
      assert t.lost[0] in multiset(t.lost);
    }
  }

  // ---- The pending counters ---------------------------------------------------------------------------------

  function InDomain(cfg: Config, d: string): Item -> bool {
    (x: Item) => cfg.domainOf(x.url) == d
  }

  function PendingOf(domains: Domains, d: string): int {
    Scheduling.State(domains, d).pendingCount
  }

  /** How many of domain d's URLs are in the scheduler's hands or handed out. */
  function Active(cfg: Config, w: World, d: string): nat {
    Load(w.core, InDomain(cfg, d)) + CountIf(w.outstanding, InDomain(cfg, d))
  }

  /** Domain d's counter is the number of its URLs that are active or lost. */
  ghost predicate PendingExactAt(cfg: Config, w: World, d: string) {
    PendingOf(w.core.domains, d) == Active(cfg, w, d) + CountIf(w.lost, InDomain(cfg, d))
  }

  /** Pruning forgets no domain that has URLs pending. */
  lemma PruneKeepsPending(domains: Domains, threshold: nat, now: real, d: string)
    ensures PendingOf(Prune(domains, threshold, now), d) == PendingOf(domains, d)
    ensures d in domains && domains[d].pendingCount > 0 ==>
              d in Prune(domains, threshold, now) && Prune(domains, threshold, now)[d] == domains[d]
  {
  }

  lemma AddPending(cfg: Config, c: Core, item: Item, now: real, d: string)
    ensures PendingOf(AddUrl(cfg, c, item, now).0.domains, d)
         == PendingOf(c.domains, d) + One(AddUrl(cfg, c, item, now).1 && InDomain(cfg, d)(item))
  {
    PruneKeepsPending(c.domains, DOMAIN_PRUNE_THRESHOLD, now, d);
  }

  lemma RefreshPending(cfg: Config, c: Core, now: real, d: string)
    ensures PendingOf(Refreshed(cfg, c, now).domains, d) == PendingOf(c.domains, d)
  {
    PruneKeepsPending(c.domains, MAX_TRACKED_DOMAINS, now, d);
  }

  lemma ResumePending(cfg: Config, c: Core, now: real, at: real, d: string)
    requires c.consumer.Pausing?
    ensures PendingOf(PutBack(cfg, c, now, at).domains, d) == PendingOf(c.domains, d)
    ensures PendingOf(Dispatch(cfg, c, now, at).domains, d) == PendingOf(c.domains, d)
  {
    RefreshPending(cfg, c, now, d);
  }

  lemma DonePending(cfg: Config, c: Core, url: string, now: real, d: string)
    requires PendingOf(c.domains, cfg.domainOf(url)) > 0
    ensures PendingOf(MarkDone(cfg, c, url, now).domains, d) == PendingOf(c.domains, d) - One(cfg.domainOf(url) == d)
  {
    var e := cfg.domainOf(url);
    var marked := c.domains[e := c.domains[e].(pendingCount := c.domains[e].pendingCount - 1)];
    assert MarkDone(cfg, c, url, now).domains == PruneIfMany(marked, now);
    PruneKeepsPending(marked, DOMAIN_PRUNE_THRESHOLD, now, d);
  }

  lemma ErrorPending(cfg: Config, c: Core, url: string, now: real, d: string)
    requires PendingOf(c.domains, cfg.domainOf(url)) > 0
    ensures PendingOf(MarkError(cfg, c, url, now).domains, d) == PendingOf(c.domains, d) - One(cfg.domainOf(url) == d)
  {
    var e := cfg.domainOf(url);
    var c' := c.(domains := c.domains[e := c.domains[e].(errorCount := c.domains[e].errorCount + 1)]);
    DonePending(cfg, c', url, now, d);
  }

  lemma FinishPending(cfg: Config, w: World, i: nat, error: bool, now: real, d: string)
    requires Enabled(cfg, w, Finished(i, error, now))
    requires PendingExactAt(cfg, w, d) && PendingExactAt(cfg, w, cfg.domainOf(w.outstanding[i].url))
    ensures PendingExactAt(cfg, Apply(cfg, w, Finished(i, error, now)), d)
  {
    var url := w.outstanding[i].url;
    var e := cfg.domainOf(url);
    CountRemoved(w.outstanding, i, InDomain(cfg, e));
    CountRemoved(w.outstanding, i, InDomain(cfg, d));
    DonePending(cfg, w.core, url, now, d);
    ErrorPending(cfg, w.core, url, now, d);
    MarkLoad(cfg, w.core, url, now, InDomain(cfg, d));
  }

  lemma SamePending(cfg: Config, w: World, w': World, d: string)
    requires PendingExactAt(cfg, w, d) && w'.outstanding == w.outstanding && w'.lost == w.lost
    requires Load(w'.core, InDomain(cfg, d)) == Load(w.core, InDomain(cfg, d))
    requires PendingOf(w'.core.domains, d) == PendingOf(w.core.domains, d)
    ensures PendingExactAt(cfg, w', d)
  {
  }

  lemma HandedOutPending(cfg: Config, w: World, w': World, item: Item, d: string)
    requires PendingExactAt(cfg, w, d) && w'.outstanding == w.outstanding + [item] && w'.lost == w.lost
    requires Load(w'.core, InDomain(cfg, d)) + One(InDomain(cfg, d)(item)) == Load(w.core, InDomain(cfg, d))
    requires PendingOf(w'.core.domains, d) == PendingOf(w.core.domains, d)
    ensures PendingExactAt(cfg, w', d)
  {
    CountPush(w.outstanding, item, InDomain(cfg, d));
  }

  lemma ResumeExact(cfg: Config, w: World, now: real, at: real, d: string)
    requires w.core.consumer.Pausing? && PendingExactAt(cfg, w, d)
    ensures PendingExactAt(cfg, Resume(cfg, w, now, at), d)
  {
    ResumePending(cfg, w.core, now, at, d);
    if LimitReached(cfg, w.core, now) {
      ResumePutsBack(cfg, w, now, at);
      PutBackLoad(cfg, w.core, now, at, InDomain(cfg, d));
      SamePending(cfg, w, Resume(cfg, w, now, at), d);
    } else {
      ResumeHandsOut(cfg, w, now, at);
      DispatchLoad(cfg, w.core, now, at, InDomain(cfg, d));
      HandedOutPending(cfg, w, Resume(cfg, w, now, at), w.core.consumer.item, d);
    }
  }

  lemma PendingKeptAt(cfg: Config, w: World, step: Step, d: string)
    requires Enabled(cfg, w, step)
    requires forall e :: PendingExactAt(cfg, w, e)
    ensures PendingExactAt(cfg, Apply(cfg, w, step), d)
  {
    var p := InDomain(cfg, d);
    assert PendingExactAt(cfg, w, d);
    match step
    case Add(item, now) =>
      AddLoad(cfg, w.core, item, now, p);
      AddPending(cfg, w.core, item, now, d);
    case Unblocked(i, _) => UnblockLoad(w.core, i, p);
    case Taken(now) => TakeLoad(cfg, w.core, now, p);
    case Resumed(now, at) => ResumeExact(cfg, w, now, at, d);
    case PutBackMade(now) => PutBackDoneLoad(w.core, now, p);
    case Finished(i, error, now) => FinishPending(cfg, w, i, error, now, d);
    case DelaySet(_, _, _) =>
    case Cancelled(_) =>
      CancelLoad(w.core, p);
      CountConcat(w.lost, InHand(w.core.consumer), p);
  }

  function Cap(cfg: Config): int {
    if cfg.pendingPerDomain > 0 then cfg.pendingPerDomain else 0
  }

  predicate WithinCap(cfg: Config, domains: Domains) {
    forall d | d in domains :: domains[d].pendingCount <= Cap(cfg)
  }

  lemma CapKept(cfg: Config, w: World, step: Step)
    requires Enabled(cfg, w, step) && WithinCap(cfg, w.core.domains)
    ensures WithinCap(cfg, Apply(cfg, w, step).core.domains)
  {
  }

  ghost predicate PendingInv(cfg: Config, w: World) {
    (forall d :: PendingExactAt(cfg, w, d)) && WithinCap(cfg, w.core.domains)
  }

  lemma PendingKept(cfg: Config, w: World, step: Step)
    requires Enabled(cfg, w, step) && PendingInv(cfg, w)
    ensures PendingInv(cfg, Apply(cfg, w, step))
  {
    forall d ensures PendingExactAt(cfg, Apply(cfg, w, step), d) {
      PendingKeptAt(cfg, w, step, d);
    }
    CapKept(cfg, w, step);
  }
}
