/** The priority queue of URLs to crawl again, whose deletions are lazy: a discarded URL leaves its heap entry
    behind. */
module Recrawl {
  import opened Common

  datatype Trigger = RssUpdate | UserRequest | ContentChange | Scheduled | PeerAnnounce

  function PriorityOf(t: Trigger): nat {
    match t
    case UserRequest => 0
    case RssUpdate => 1
    case ContentChange => 2
    case PeerAnnounce => 3
    case Scheduled => 4
  }

  datatype Item = Item(priority: int, at: real, url: string, trigger: Trigger, sourceFeed: string)

  /** Items compare by priority, then by the time they were enqueued. */
  predicate Before(a: Item, b: Item) {
    a.priority < b.priority || (a.priority == b.priority && a.at <= b.at)
  }

  /** All that is used of heapq: the head of a heap is a least element. */
  predicate IsHeap(heap: seq<Item>) {
    forall x | x in heap :: Before(heap[0], x)
  }

  ghost predicate Pushed(heap: seq<Item>, x: Item, heap': seq<Item>) {
    IsHeap(heap') && multiset(heap') == multiset(heap) + multiset{x}
  }

  ghost predicate Popped(heap: seq<Item>, heap': seq<Item>)
    requires heap != []
  {
    IsHeap(heap') && multiset(heap) == multiset(heap') + multiset{heap[0]}
  }

  datatype Queue = Queue(heap: seq<Item>, urls: set<string>, enqueued: nat, dequeued: nat)

  const EMPTY := Queue([], {}, 0, 0)

  predicate Live(q: Queue, x: Item) {
    x.url in q.urls
  }

  // ---- The operations, as relations: heapq decides which of several least entries is the head ---------------

  ghost predicate Enqueues(q: Queue, maxSize: int, x: Item, q': Queue, added: bool) {
    if x.url in q.urls || |q.heap| >= maxSize then !added && q' == q
    else added && Pushed(q.heap, x, q'.heap) && q' == Queue(q'.heap, q.urls + {x.url}, q.enqueued + 1, q.dequeued)
  }

  /** Pops the entries of discarded URLs, `skipped`, off the heap. */
  ghost predicate Skims(q: Queue, heap': seq<Item>, skipped: multiset<Item>) {
    && IsHeap(heap') && multiset(q.heap) == multiset(heap') + skipped
    && (forall x | x in skipped :: !Live(q, x))
    && (forall x, y | x in skipped && y in heap' :: Before(x, y))
    && (heap' != [] ==> Live(q, heap'[0]))
    && (q.heap != [] && Live(q, q.heap[0]) ==> heap' == q.heap)
  }

  ghost predicate TakesHead(q: Queue, heap: seq<Item>, q': Queue, result: Option<Item>) {
    if heap == [] then result == None && q' == q.(heap := [])
    else
      && result == Some(heap[0]) && Popped(heap, q'.heap)
      && q' == Queue(q'.heap, q.urls - {heap[0].url}, q.enqueued, q.dequeued + 1)
  }

  ghost predicate Dequeues(q: Queue, q': Queue, result: Option<Item>) {
    exists heap: seq<Item>, skipped: multiset<Item> :: Skims(q, heap, skipped) && TakesHead(q, heap, q', result)
  }

  ghost predicate ShowsHead(q: Queue, heap: seq<Item>, q': Queue, result: Option<Item>) {
    q' == q.(heap := heap) && result == if heap == [] then None else Some(heap[0])
  }

  ghost predicate Peeks(q: Queue, q': Queue, result: Option<Item>) {
    exists heap: seq<Item>, skipped: multiset<Item> :: Skims(q, heap, skipped) && ShowsHead(q, heap, q', result)
  }

  function Discard(q: Queue, url: string): Queue {
    q.(urls := q.urls - {url})
  }

  function Clear(q: Queue): Queue {
    q.(heap := [], urls := {})
  }

  // ---- Runs -------------------------------------------------------------------------------------------------

  /** The queue, and all the URLs it accepted, delivered, and dropped by a discard or a clear. */
  datatype World = World(
    queue: Queue, accepted: multiset<string>, delivered: multiset<string>, dropped: multiset<string>
  )

  datatype Step =
    | Enqueue(x: Item)
    | Dequeue(result: Option<Item>)
    | Peek(result: Option<Item>)
    | Drop(url: string)
    | ClearAll

  ghost predicate Next(maxSize: int, w: World, step: Step, w': World) {
    match step
    case Enqueue(x) =>
      exists added :: Enqueues(w.queue, maxSize, x, w'.queue, added)
                      && w' == w.(queue := w'.queue,
                                  accepted := w.accepted + if added then multiset{x.url} else multiset{})
    case Dequeue(result) =>
      Dequeues(w.queue, w'.queue, result)
      && w' == w.(queue := w'.queue,
                  delivered := w.delivered + if result.Some? then multiset{result.value.url} else multiset{})
    case Peek(result) => Peeks(w.queue, w'.queue, result) && w' == w.(queue := w'.queue)
    case Drop(url) =>
      w' == w.(queue := Discard(w.queue, url),
               dropped := w.dropped + if url in w.queue.urls then multiset{url} else multiset{})
    case ClearAll => w' == w.(queue := Clear(w.queue), dropped := w.dropped + multiset(w.queue.urls))
  }

  const START := World(EMPTY, multiset{}, multiset{}, multiset{})

  ghost predicate IsRun(maxSize: int, ws: seq<World>, steps: seq<Step>) {
    && |ws| == |steps| + 1 && ws[0] == START
    && forall i | 0 <= i < |steps| :: Next(maxSize, ws[i], steps[i], ws[i + 1])
  }

  /** Every live URL has a heap entry. */
  ghost predicate Backed(q: Queue) {
    IsHeap(q.heap) && forall u | u in q.urls :: exists x :: x in q.heap && x.url == u
  }

  ghost predicate Inv(maxSize: int, w: World) {
    && Backed(w.queue)
    && (maxSize >= 0 ==> |w.queue.heap| <= maxSize)
    && w.accepted == w.delivered + w.dropped + multiset(w.queue.urls)
    && w.queue.enqueued == |w.accepted| && w.queue.dequeued == |w.delivered|
  }

  lemma InHeap(h: seq<Item>, m: multiset<Item>)
    requires multiset(h) == m
    ensures forall x :: x in h <==> x in m
    ensures |h| == |m|
  {
    assert forall x :: x in h <==> x in multiset(h);
  }

  lemma EnqueueKeeps(q: Queue, maxSize: int, x: Item, q': Queue, added: bool)
    requires Backed(q) && Enqueues(q, maxSize, x, q', added)
    requires maxSize >= 0 ==> |q.heap| <= maxSize
    ensures Backed(q')
    ensures maxSize >= 0 ==> |q'.heap| <= maxSize
    ensures multiset(q'.urls) == multiset(q.urls) + if added then multiset{x.url} else multiset{}
  {
    if added {
      InHeap(q'.heap, multiset(q.heap) + multiset{x});
      InHeap(q.heap, multiset(q.heap));
      forall u | u in q'.urls ensures exists y :: y in q'.heap && y.url == u {
        if u == x.url {
          assert x in q'.heap;
        } else {
          var y :| y in q.heap && y.url == u;
          assert y in q'.heap;
        }
      }
    }
  }

  lemma SkimKeeps(q: Queue, heap': seq<Item>, skipped: multiset<Item>)
    requires Backed(q) && Skims(q, heap', skipped)
    ensures Backed(q.(heap := heap')) && |heap'| <= |q.heap|
    ensures heap' == [] ==> q.urls == {}
    ensures forall x | x in q.heap && Live(q, x) :: x in heap' && Before(heap'[0], x)
    ensures heap' != [] ==> heap'[0] in q.heap
  {
    InHeap(q.heap, multiset(heap') + skipped);
    InHeap(heap', multiset(heap'));
    forall u | u in q.urls ensures exists x :: x in heap' && x.url == u {
      var x :| x in q.heap && x.url == u;
      assert Live(q, x);
    }
  }

  lemma PopKeeps(q: Queue, heap': seq<Item>, q': Queue)
    requires Backed(q.(heap := heap')) && heap' != [] && heap'[0].url in q.urls
    requires Popped(heap', q'.heap) && q'.urls == q.urls - {heap'[0].url}
    ensures Backed(q') && |q'.heap| < |heap'|
    ensures multiset(q.urls) == multiset(q'.urls) + multiset{heap'[0].url}
  {
    InHeap(heap', multiset(q'.heap) + multiset{heap'[0]});
    InHeap(q'.heap, multiset(q'.heap));
    forall u | u in q'.urls ensures exists x :: x in q'.heap && x.url == u {
      var x :| x in heap' && x.url == u;
      assert x in q'.heap;
    }
  }

  /** The URL delivered is a live one, and no live entry comes before it; with nothing live, none is delivered. */
  lemma DequeueDelivers(q: Queue, q': Queue, result: Option<Item>)
    requires Backed(q) && Dequeues(q, q', result)
    ensures result.None? <==> q.urls == {}
    ensures result.Some? ==> result.value in q.heap && Live(q, result.value)
                             && forall x | x in q.heap && Live(q, x) :: Before(result.value, x)
    ensures Backed(q') && |q'.heap| <= |q.heap|
    ensures multiset(q.urls) == multiset(q'.urls) + if result.Some? then multiset{result.value.url} else multiset{}
  {
    var heap': seq<Item>, skipped: multiset<Item> :| Skims(q, heap', skipped) && TakesHead(q, heap', q', result);
    SkimKeeps(q, heap', skipped);
    if heap' != [] {
      PopKeeps(q, heap', q');
    }
  }

  /** A dequeue that follows a peek delivers what the peek showed. */
  lemma PeekTellsNext(q: Queue, q': Queue, q'': Queue, shown: Option<Item>, result: Option<Item>)
    requires Backed(q) && Peeks(q, q', shown) && Dequeues(q', q'', result)
    ensures shown == result
  {
    var heap: seq<Item>, skipped: multiset<Item> :| Skims(q, heap, skipped) && ShowsHead(q, heap, q', shown);
    var heap': seq<Item>, more: multiset<Item> :| Skims(q', heap', more) && TakesHead(q', heap', q'', result);
    if heap == [] {
      InHeap([], multiset(heap') + more);
    }
  }

  // ---- Every run --------------------------------------------------------------------------------------------

  lemma InvKeptByEnqueue(maxSize: int, w: World, x: Item, w': World)
    requires Inv(maxSize, w) && Next(maxSize, w, Enqueue(x), w')
    ensures Inv(maxSize, w')
  {
    var added: bool :| Enqueues(w.queue, maxSize, x, w'.queue, added)
      && w' == w.(queue := w'.queue, accepted := w.accepted + if added then multiset{x.url} else multiset{});
    EnqueueKeeps(w.queue, maxSize, x, w'.queue, added);
  }

  lemma InvKeptByDequeue(maxSize: int, w: World, result: Option<Item>, w': World)
    requires Inv(maxSize, w) && Next(maxSize, w, Dequeue(result), w')
    ensures Inv(maxSize, w')
  {
    DequeueDelivers(w.queue, w'.queue, result);
    DequeueCounts(w.queue, w'.queue, result);
  }

  lemma InvKeptByPeek(maxSize: int, w: World, result: Option<Item>, w': World)
    requires Inv(maxSize, w) && Next(maxSize, w, Peek(result), w')
    ensures Inv(maxSize, w')
  {
    var heap: seq<Item>, skipped: multiset<Item> :|
      Skims(w.queue, heap, skipped) && ShowsHead(w.queue, heap, w'.queue, result);
    SkimKeeps(w.queue, heap, skipped);
  }

  lemma InvKeptByDrop(maxSize: int, w: World, url: string, w': World)
    requires Inv(maxSize, w) && Next(maxSize, w, Drop(url), w')
    ensures Inv(maxSize, w')
  {
    assert multiset(w.queue.urls)
        == multiset(w'.queue.urls) + if url in w.queue.urls then multiset{url} else multiset{};
  }

  lemma InvKept(maxSize: int, w: World, step: Step, w': World)
    requires Inv(maxSize, w) && Next(maxSize, w, step, w')
    ensures Inv(maxSize, w')
  {
    match step
    case Enqueue(x) => InvKeptByEnqueue(maxSize, w, x, w');
    case Dequeue(result) => InvKeptByDequeue(maxSize, w, result, w');
    case Peek(result) => InvKeptByPeek(maxSize, w, result, w');
    case Drop(url) => InvKeptByDrop(maxSize, w, url, w');
    case ClearAll =>
  }

  lemma DequeueCounts(q: Queue, q': Queue, result: Option<Item>)
    requires Dequeues(q, q', result)
    ensures q'.enqueued == q.enqueued
    ensures q'.dequeued == q.dequeued + if result.Some? then 1 else 0
  {
  }

  lemma {:induction false} InvAlways(maxSize: int, ws: seq<World>, steps: seq<Step>, i: nat)
    requires IsRun(maxSize, ws, steps) && i <= |steps|
    ensures Inv(maxSize, ws[i])
  {
    if i > 0 {
      InvAlways(maxSize, ws, steps, i - 1);
      InvKept(maxSize, ws[i - 1], steps[i - 1], ws[i]);
    }
  }

  /** At any time of any run, each URL was accepted exactly as often as it was delivered or dropped, plus once
      if it is in the queue; the counters say so in total. */
  lemma Conservation(maxSize: int, ws: seq<World>, steps: seq<Step>, i: nat)
    requires IsRun(maxSize, ws, steps) && i <= |steps|
    ensures ws[i].accepted == ws[i].delivered + ws[i].dropped + multiset(ws[i].queue.urls)
    ensures ws[i].queue.enqueued == ws[i].queue.dequeued + |ws[i].dropped| + |ws[i].queue.urls|
    ensures ws[i].delivered <= ws[i].accepted
  {
    InvAlways(maxSize, ws, steps, i);
    assert |multiset(ws[i].queue.urls)| == |ws[i].queue.urls|;
  }

  /** At any time, a dequeue delivers a least one of the entries whose URL is in the queue, and fails only when
      there is none. */
  lemma LeastLiveDelivered(maxSize: int, ws: seq<World>, steps: seq<Step>, i: nat, result: Option<Item>)
    requires IsRun(maxSize, ws, steps) && i < |steps| && steps[i] == Dequeue(result)
    ensures result.None? <==> ws[i].queue.urls == {}
    ensures result.Some? ==> result.value in ws[i].queue.heap && Live(ws[i].queue, result.value)
    ensures result.Some? ==> forall x | x in ws[i].queue.heap && Live(ws[i].queue, x) :: Before(result.value, x)
  {
    InvAlways(maxSize, ws, steps, i);
    DequeueDelivers(ws[i].queue, ws[i + 1].queue, result);
  }

  /** Every entry was made with the priority of its trigger. */
  ghost predicate ByTrigger(entries: seq<Item>) {
    forall x | x in entries :: x.priority == PriorityOf(x.trigger)
  }

  lemma ByTriggerKept(maxSize: int, w: World, step: Step, w': World)
    requires Next(maxSize, w, step, w') && ByTrigger(w.queue.heap)
    requires step.Enqueue? ==> step.x.priority == PriorityOf(step.x.trigger)
    ensures ByTrigger(w'.queue.heap)
  {
    match step
    case Enqueue(x) =>
      var added: bool :| Enqueues(w.queue, maxSize, x, w'.queue, added)
        && w' == w.(queue := w'.queue, accepted := w.accepted + if added then multiset{x.url} else multiset{});
      if added {
        InHeap(w'.queue.heap, multiset(w.queue.heap) + multiset{x});
      }
    case Dequeue(result) =>
      var heap: seq<Item>, skipped: multiset<Item> :|
        Skims(w.queue, heap, skipped) && TakesHead(w.queue, heap, w'.queue, result);
      InHeap(w.queue.heap, multiset(heap) + skipped);
      if heap != [] {
        InHeap(heap, multiset(w'.queue.heap) + multiset{heap[0]});
      }
    case Peek(result) =>
      var heap: seq<Item>, skipped: multiset<Item> :|
        Skims(w.queue, heap, skipped) && ShowsHead(w.queue, heap, w'.queue, result);
      InHeap(w.queue.heap, multiset(heap) + skipped);
    case _ =>
  }

  lemma {:induction false} ByTriggerAlways(maxSize: int, ws: seq<World>, steps: seq<Step>, i: nat)
    requires IsRun(maxSize, ws, steps) && i <= |steps|
    requires forall step | step in steps && step.Enqueue? :: step.x.priority == PriorityOf(step.x.trigger)
    ensures ByTrigger(ws[i].queue.heap)
  {
    if i > 0 {
      ByTriggerAlways(maxSize, ws, steps, i - 1);
      assert steps[i - 1] in steps;
      ByTriggerKept(maxSize, ws[i - 1], steps[i - 1], ws[i]);
    }
  }

  /** While an entry of one trigger is live, no entry of a trigger that is served later is delivered, and of its own
      trigger none that was enqueued later. */
  lemma TriggersServedInOrder(maxSize: int, ws: seq<World>, steps: seq<Step>, i: nat, x: Item, y: Item, m: nat, n: nat)
    requires IsRun(maxSize, ws, steps) && i < |steps| && steps[i] == Dequeue(Some(x))
    requires forall step | step in steps && step.Enqueue? :: step.x.priority == PriorityOf(step.x.trigger)
    requires y in ws[i].queue.heap && y.url in ws[i].queue.urls
    requires m < 5 && n < 5
    requires x.trigger == [UserRequest, RssUpdate, ContentChange, PeerAnnounce, Scheduled][m]
    requires y.trigger == [UserRequest, RssUpdate, ContentChange, PeerAnnounce, Scheduled][n]
    ensures m <= n && (m == n ==> x.at <= y.at)
  {
    ByTriggerAlways(maxSize, ws, steps, i);
    LeastLiveDelivered(maxSize, ws, steps, i, Some(x));
  }

  // ---- Which of a URL's entries is delivered ----------------------------------------------------------------

  ghost function LatestAfter(w: World, step: Step, w': World, latest: map<string, Item>): map<string, Item> {
    if step.Enqueue? && w'.queue.enqueued > w.queue.enqueued then latest[step.x.url := step.x] else latest
  }

  /** The entry of each URL's last accepted enqueue before step i. */
  ghost function Latest(ws: seq<World>, steps: seq<Step>, i: nat): map<string, Item>
    requires |ws| == |steps| + 1 && i <= |steps|
  {
    if i == 0 then map[] else LatestAfter(ws[i - 1], steps[i - 1], ws[i], Latest(ws, steps, i - 1))
  }

  /** The last accepted entry of every URL in the queue is in the heap. */
  ghost predicate HasLatest(q: Queue, latest: map<string, Item>) {
    forall u | u in q.urls :: u in latest && latest[u] in q.heap && latest[u].url == u
  }

  lemma EnqueueEntries(q: Queue, maxSize: int, x: Item, q': Queue, added: bool, latest: map<string, Item>)
    requires Enqueues(q, maxSize, x, q', added) && HasLatest(q, latest)
    ensures HasLatest(q', if added then latest[x.url := x] else latest)
    ensures added <==> q'.enqueued > q.enqueued
  {
    if added {
      InHeap(q'.heap, multiset(q.heap) + multiset{x});
      InHeap(q.heap, multiset(q.heap));
    }
  }

  lemma SkimEntries(q: Queue, heap: seq<Item>, skipped: multiset<Item>)
    requires Skims(q, heap, skipped)
    ensures forall x | x in q.heap && Live(q, x) :: x in heap
  {
    InHeap(q.heap, multiset(heap) + skipped);
    InHeap(heap, multiset(heap));
  }

  lemma DequeueEntries(q: Queue, q': Queue, result: Option<Item>, latest: map<string, Item>)
    requires Dequeues(q, q', result) && HasLatest(q, latest)
    ensures HasLatest(q', latest)
  {
    var heap: seq<Item>, skipped: multiset<Item> :| Skims(q, heap, skipped) && TakesHead(q, heap, q', result);
    SkimEntries(q, heap, skipped);
    if heap != [] {
      InHeap(heap, multiset(q'.heap) + multiset{heap[0]});
      InHeap(q'.heap, multiset(q'.heap));
    }
  }

  lemma PeekEntries(q: Queue, q': Queue, result: Option<Item>, latest: map<string, Item>)
    requires Peeks(q, q', result) && HasLatest(q, latest)
    ensures HasLatest(q', latest)
  {
    var heap: seq<Item>, skipped: multiset<Item> :| Skims(q, heap, skipped) && ShowsHead(q, heap, q', result);
    SkimEntries(q, heap, skipped);
  }

  lemma LatestKept(maxSize: int, w: World, step: Step, w': World, latest: map<string, Item>)
    requires Next(maxSize, w, step, w') && HasLatest(w.queue, latest)
    ensures HasLatest(w'.queue, LatestAfter(w, step, w', latest))
  {
    match step
    case Enqueue(x) =>
      var added: bool :| Enqueues(w.queue, maxSize, x, w'.queue, added);
      EnqueueEntries(w.queue, maxSize, x, w'.queue, added, latest);
    case Dequeue(result) => DequeueEntries(w.queue, w'.queue, result, latest);
    case Peek(result) => PeekEntries(w.queue, w'.queue, result, latest);
    case Drop(_) =>
    case ClearAll =>
  }

  lemma RunNext(maxSize: int, ws: seq<World>, steps: seq<Step>, i: nat)
    requires IsRun(maxSize, ws, steps) && i < |steps|
    ensures Next(maxSize, ws[i], steps[i], ws[i + 1])
  {
  }

  lemma {:induction false} LatestInHeap(maxSize: int, ws: seq<World>, steps: seq<Step>, i: nat)
    requires IsRun(maxSize, ws, steps) && i <= |steps|
    ensures HasLatest(ws[i].queue, Latest(ws, steps, i))
  {
    if i > 0 {
      var j := i - 1;
      LatestInHeap(maxSize, ws, steps, j);
      RunNext(maxSize, ws, steps, j);
      LatestKept(maxSize, ws[j], steps[j], ws[i], Latest(ws, steps, j));
    }
  }

  /** No entry of the URL, however old, comes before y in priority and age. */
  ghost predicate FirstOfItsUrl(q: Queue, y: Item) {
    forall z | z in q.heap && z.url == y.url :: Before(y, z)
  }

  /** No other entry of the URL has the priority and time of y. */
  ghost predicate Untied(q: Queue, y: Item) {
    forall z | z in q.heap && z.url == y.url && Before(z, y) && Before(y, z) :: z == y
  }

  lemma DeliveredEntry(q: Queue, q': Queue, x: Item, y: Item)
    requires Backed(q) && Dequeues(q, q', Some(x)) && y in q.heap && y.url == x.url
    ensures Before(y, x) <==> FirstOfItsUrl(q, y)
    ensures Untied(q, y) ==> (x == y <==> FirstOfItsUrl(q, y))
  {
    DequeueDelivers(q, q', Some(x));
    assert Live(q, y) && Before(x, y);
  }

  /** In any run, a dequeue that delivers a URL delivers its last accepted entry, or one with the same priority and
      time, if and only if no entry that a discard left behind comes before it; when no such entry ties with it, the
      last accepted entry itself. */
  lemma LatestDeliveredIff(maxSize: int, ws: seq<World>, steps: seq<Step>, i: nat, x: Item)
    requires IsRun(maxSize, ws, steps) && i < |steps| && steps[i] == Dequeue(Some(x))
    ensures x.url in Latest(ws, steps, i)
    ensures var y := Latest(ws, steps, i)[x.url];
            && (Before(y, x) <==> FirstOfItsUrl(ws[i].queue, y))
            && (Untied(ws[i].queue, y) ==> (x == y <==> FirstOfItsUrl(ws[i].queue, y)))
  {
    InvAlways(maxSize, ws, steps, i);
    LatestInHeap(maxSize, ws, steps, i);
    assert Next(maxSize, ws[i], steps[i], ws[i + 1]);
    DequeueDelivers(ws[i].queue, ws[i + 1].queue, Some(x));
    DeliveredEntry(ws[i].queue, ws[i + 1].queue, x, Latest(ws, steps, i)[x.url]);
  }

  const OLD_ENTRY := Item(0, 1.0, "a", UserRequest, "")
  const NEW_ENTRY := Item(4, 2.0, "a", Scheduled, "")

  function Requested(): World {
    World(Queue([OLD_ENTRY], {"a"}, 1, 0), multiset{"a"}, multiset{}, multiset{})
  }

  function Discarded(): World {
    World(Queue([OLD_ENTRY], {}, 1, 0), multiset{"a"}, multiset{}, multiset{"a"})
  }

  function RequestedAgain(): World {
    World(Queue([OLD_ENTRY] + [NEW_ENTRY], {"a"}, 2, 0), multiset{"a"} + multiset{"a"}, multiset{}, multiset{"a"})
  }

  function Delivered(): World {
    World(Queue([NEW_ENTRY], {}, 2, 1), multiset{"a"} + multiset{"a"}, multiset{"a"}, multiset{"a"})
  }

  lemma FirstSteps()
    ensures Next(10_000, START, Enqueue(OLD_ENTRY), Requested())
    ensures Next(10_000, Requested(), Drop("a"), Discarded())
  {
    assert Pushed([], OLD_ENTRY, [OLD_ENTRY]);
    assert Enqueues(START.queue, 10_000, OLD_ENTRY, Requested().queue, true);
    assert {"a"} - {"a"} == {};
  }

  lemma LastSteps()
    ensures Next(10_000, Discarded(), Enqueue(NEW_ENTRY), RequestedAgain())
    ensures Next(10_000, RequestedAgain(), Dequeue(Some(OLD_ENTRY)), Delivered())
  {
    var heap := [OLD_ENTRY] + [NEW_ENTRY];
    assert Pushed([OLD_ENTRY], NEW_ENTRY, heap);
    assert Enqueues(Discarded().queue, 10_000, NEW_ENTRY, RequestedAgain().queue, true);
    assert {"a"} - {"a"} == {};
    assert Popped(heap, [NEW_ENTRY]);
    assert Skims(RequestedAgain().queue, heap, multiset{});
    assert TakesHead(RequestedAgain().queue, heap, Delivered().queue, Some(OLD_ENTRY));
    assert Dequeues(RequestedAgain().queue, Delivered().queue, Some(OLD_ENTRY));
  }

  function OldSteps(): seq<Step> {
    [] + [Enqueue(OLD_ENTRY)] + [Drop("a")] + [Enqueue(NEW_ENTRY)] + [Dequeue(Some(OLD_ENTRY))]
  }

  function OldWorlds(): seq<World> {
    [] + [START] + [Requested()] + [Discarded()] + [RequestedAgain()] + [Delivered()]
  }

  lemma OldIsRun()
    ensures IsRun(10_000, OldWorlds(), OldSteps())
  {
    FirstSteps();
    LastSteps();
    OldAt();
    var ws, steps := OldWorlds(), OldSteps();
    forall i | 0 <= i < |steps| ensures Next(10_000, ws[i], steps[i], ws[i + 1]) {
      OldStep(ws, steps, i);
    }
  }

  lemma OldAt()
    ensures |OldSteps()| == 4 && |OldWorlds()| == 5
    ensures OldWorlds()[0] == START && OldWorlds()[1] == Requested() && OldWorlds()[2] == Discarded()
    ensures OldWorlds()[3] == RequestedAgain() && OldWorlds()[4] == Delivered()
    ensures OldSteps()[0] == Enqueue(OLD_ENTRY) && OldSteps()[1] == Drop("a")
    ensures OldSteps()[2] == Enqueue(NEW_ENTRY) && OldSteps()[3] == Dequeue(Some(OLD_ENTRY))
  {
  }

  lemma OldStep(ws: seq<World>, steps: seq<Step>, i: nat)
    requires |ws| == 5 && |steps| == 4 && i < 4
    requires Next(10_000, ws[0], steps[0], ws[1]) && Next(10_000, ws[1], steps[1], ws[2])
    requires Next(10_000, ws[2], steps[2], ws[3]) && Next(10_000, ws[3], steps[3], ws[4])
    ensures Next(10_000, ws[i], steps[i], ws[i + 1])
  {
  }

  lemma LatestIsNew(before: map<string, Item>)
    ensures LatestAfter(Discarded(), Enqueue(NEW_ENTRY), RequestedAgain(), before) == before["a" := NEW_ENTRY]
  {
  }

  /** A URL requested by a user, discarded, and scheduled again is delivered as the user's request. */
  lemma OldEntryDelivered() returns (ws: seq<World>, steps: seq<Step>)
    ensures IsRun(10_000, ws, steps) && |steps| == 4 && steps[3] == Dequeue(Some(OLD_ENTRY))
    ensures "a" in Latest(ws, steps, 3) && Latest(ws, steps, 3)["a"] == NEW_ENTRY
  {
    OldIsRun();
    ws, steps := OldWorlds(), OldSteps();
    OldAt();
    LatestIsNew(Latest(ws, steps, 2));
  }

  // ---- Without discards the queue is a sorted list ----------------------------------------------------------

  predicate IsSorted(l: seq<Item>) {
    forall i, j | 0 <= i < j < |l| :: Before(l[i], l[j])
  }

  /** The queue's entries in delivery order. */
  ghost predicate Lists(l: seq<Item>, q: Queue) {
    IsSorted(l) && multiset(l) == multiset(q.heap)
  }

  function Insert(x: Item, l: seq<Item>): seq<Item> {
    if l == [] || Before(x, l[0]) then [x] + l else [l[0]] + Insert(x, l[1..])
  }

  lemma {:induction false} InsertElements(x: Item, l: seq<Item>)
    ensures multiset(Insert(x, l)) == multiset(l) + multiset{x}
  {
    if l == [] || Before(x, l[0]) {
    } else {
      InsertElements(x, l[1..]);
      assert l == [l[0]] + l[1..];
    }
  }

  lemma SortedCons(y: Item, l: seq<Item>)
    requires IsSorted(l) && forall x | x in l :: Before(y, x)
    ensures IsSorted([y] + l)
  {
  }

  lemma {:induction false} InsertSorts(x: Item, l: seq<Item>)
    requires IsSorted(l)
    ensures IsSorted(Insert(x, l))
  {
    if l == [] || Before(x, l[0]) {
      forall y | y in l ensures Before(x, y) {
        assert l[0] == y || Before(l[0], y);
      }
      SortedCons(x, l);
    } else {
      var rest := Insert(x, l[1..]);
      InsertSorts(x, l[1..]);
      InsertElements(x, l[1..]);
      InHeap(rest, multiset(l[1..]) + multiset{x});
      forall y | y in rest ensures Before(l[0], y) {
        assert y == x || y in multiset(l[1..]);
      }
      SortedCons(l[0], rest);
    }
  }

  /** Every entry's URL is in the queue, and no two entries share one. */
  ghost predicate NoneStale(q: Queue) {
    && IsHeap(q.heap)
    && (forall x | x in q.heap :: Live(q, x) && multiset(q.heap)[x] == 1)
    && (forall x, y | x in q.heap && y in q.heap && x.url == y.url :: x == y)
  }

  lemma PushKeepsNoneStale(q: Queue, x: Item, q': Queue)
    requires NoneStale(q) && x.url !in q.urls && Pushed(q.heap, x, q'.heap) && q'.urls == q.urls + {x.url}
    ensures NoneStale(q')
  {
    InHeap(q'.heap, multiset(q.heap) + multiset{x});
    InHeap(q.heap, multiset(q.heap));
  }

  lemma InsertLists(q: Queue, x: Item, q': Queue, l: seq<Item>)
    requires Lists(l, q) && Pushed(q.heap, x, q'.heap)
    ensures Lists(Insert(x, l), q')
  {
    InsertSorts(x, l);
    InsertElements(x, l);
  }

  lemma EnqueueInserts(q: Queue, maxSize: int, x: Item, q': Queue, added: bool, l: seq<Item>)
    requires NoneStale(q) && Enqueues(q, maxSize, x, q', added)
    ensures NoneStale(q')
    ensures Lists(l, q) ==> Lists(if added then Insert(x, l) else l, q')
  {
    if added {
      PushKeepsNoneStale(q, x, q');
      if Lists(l, q) {
        InsertLists(q, x, q', l);
      }
    }
  }

  lemma PopKeepsNoneStale(q: Queue, q': Queue)
    requires q.heap != [] && NoneStale(q) && Popped(q.heap, q'.heap) && q'.urls == q.urls - {q.heap[0].url}
    ensures NoneStale(q')
  {
    assert q.heap[0] in q.heap;
    InHeap(q.heap, multiset(q'.heap) + multiset{q.heap[0]});
    InHeap(q'.heap, multiset(q'.heap));
  }

  lemma PopFirst(heap: seq<Item>, heap': seq<Item>, l: seq<Item>)
    requires IsHeap(heap) && heap != [] && Popped(heap, heap') && IsSorted(l) && multiset(l) == multiset(heap')
    ensures IsSorted([heap[0]] + l) && multiset([heap[0]] + l) == multiset(heap)
  {
    InHeap(heap, multiset(heap') + multiset{heap[0]});
    InHeap(l, multiset(heap'));
    forall y | y in l ensures Before(heap[0], y) {
      assert y in multiset(heap');
      assert y in heap;
    }
  }

  /** A dequeue takes the first element of the sorted list. */
  lemma DequeueTakesFirst(q: Queue, q': Queue, result: Option<Item>, l: seq<Item>)
    requires NoneStale(q) && Dequeues(q, q', result)
    ensures NoneStale(q')
    ensures result.None? <==> q.heap == []
    ensures result.None? ==> q' == q
    ensures result.Some? && Lists(l, q') ==> Lists([result.value] + l, q)
  {
    var heap: seq<Item>, skipped: multiset<Item> :| Skims(q, heap, skipped) && TakesHead(q, heap, q', result);
    if q.heap != [] {
      assert q.heap[0] in q.heap && heap == q.heap;
      PopKeepsNoneStale(q, q');
      if Lists(l, q') {
        PopFirst(q.heap, q'.heap, l);
      }
    } else {
      InHeap([], multiset(heap) + skipped);
    }
  }

  lemma NoneStaleKept(maxSize: int, w: World, step: Step, w': World)
    requires NoneStale(w.queue) && Next(maxSize, w, step, w') && !step.Drop?
    ensures NoneStale(w'.queue)
  {
    match step
    case Enqueue(x) =>
      var added: bool :| Enqueues(w.queue, maxSize, x, w'.queue, added);
      EnqueueInserts(w.queue, maxSize, x, w'.queue, added, []);
    case Dequeue(result) => DequeueTakesFirst(w.queue, w'.queue, result, []);
    case Peek(result) =>
      var heap: seq<Item>, skipped: multiset<Item> :|
        Skims(w.queue, heap, skipped) && ShowsHead(w.queue, heap, w'.queue, result);
      if w.queue.heap != [] {
        assert w.queue.heap[0] in w.queue.heap;
      } else {
        InHeap([], multiset(heap) + skipped);
      }
    case ClearAll =>
  }

  lemma {:induction false} NoneStaleAlways(maxSize: int, ws: seq<World>, steps: seq<Step>, i: nat)
    requires IsRun(maxSize, ws, steps) && i <= |steps| && forall step | step in steps :: !step.Drop?
    ensures NoneStale(ws[i].queue)
  {
    if i > 0 {
      NoneStaleAlways(maxSize, ws, steps, i - 1);
      assert steps[i - 1] in steps;
      NoneStaleKept(maxSize, ws[i - 1], steps[i - 1], ws[i]);
    }
  }

  /** A succession of dequeues that delivers the items, the last of which leaves the heap empty. */
  ghost predicate Drains(qs: seq<Queue>, items: seq<Item>) {
    && |qs| == |items| + 1 && qs[|items|].heap == []
    && forall i | 0 <= i < |items| :: Dequeues(qs[i], qs[i + 1], Some(items[i]))
  }

  lemma DrainTail(qs: seq<Queue>, items: seq<Item>)
    requires Drains(qs, items) && items != []
    ensures Drains(qs[1..], items[1..])
  {
    var tail, rest := qs[1..], items[1..];
    forall i | 0 <= i < |rest| ensures Dequeues(tail[i], tail[i + 1], Some(rest[i])) {
      assert Dequeues(qs[i + 1], qs[i + 2], Some(items[i + 1]));
    }
  }

  /** Emptying a queue without stale entries delivers its sorted list. */
  lemma {:induction false} DrainSorts(qs: seq<Queue>, items: seq<Item>)
    requires Drains(qs, items) && NoneStale(qs[0])
    ensures Lists(items, qs[0])
    decreases |items|
  {
    if items != [] {
      assert Dequeues(qs[0], qs[0 + 1], Some(items[0]));
      DequeueTakesFirst(qs[0], qs[1], Some(items[0]), items[1..]);
      DrainTail(qs, items);
      DrainSorts(qs[1..], items[1..]);
      assert items == [items[0]] + items[1..];
    }
  }

  /** In a run without discards, emptying the queue at any time delivers every URL in it, by priority and age. */
  lemma RefinesSortedList(maxSize: int, ws: seq<World>, steps: seq<Step>, i: nat, qs: seq<Queue>, items: seq<Item>)
    requires IsRun(maxSize, ws, steps) && i <= |steps| && forall step | step in steps :: !step.Drop?
    requires Drains(qs, items) && qs[0] == ws[i].queue
    ensures Lists(items, ws[i].queue)
  {
    NoneStaleAlways(maxSize, ws, steps, i);
    DrainSorts(qs, items);
  }
}
