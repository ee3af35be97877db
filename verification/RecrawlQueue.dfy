/** The recrawl queue object. */
module RecrawlQueue {
  import opened Common
  import opened Recrawl

  class PriorityRecrawlQueue {
    const maxSize: int
    var heap: seq<Item>
    var urls: set<string>
    var totalEnqueued: nat
    var totalDequeued: nat

    ghost function View(): Queue
      reads this
    {
      Queue(heap, urls, totalEnqueued, totalDequeued)
    }

    constructor (maxSize: int)
      ensures this.maxSize == maxSize && View() == EMPTY
    {
      this.maxSize := maxSize;
      heap, urls, totalEnqueued, totalDequeued := [], {}, 0, 0;
    }

    /** A time of 0 counts as not given. */
    method Enqueue(url: string, trigger: Trigger, sourceFeed: string, now: Option<real>, clock: real)
      returns (added: bool, ghost item: Item)
      requires IsHeap(heap)
      modifies this
      ensures item == Item(PriorityOf(trigger), if now.Some? && now.value != 0.0 then now.value else clock,
                           url, trigger, sourceFeed)
      ensures Enqueues(old(View()), maxSize, item, View(), added)
    {
      var at := if now.Some? && now.value != 0.0 then now.value else clock;
      var x := Item(PriorityOf(trigger), at, url, trigger, sourceFeed);
      item := x;
      if url in urls {
        return false, item;
      }
      if |heap| >= maxSize {
        return false, item;
      }
      heap := Push(heap, x);
      urls := urls + {url};
      totalEnqueued := totalEnqueued + 1;
      return true, item;
    }

    method Dequeue() returns (result: Option<Item>)
      requires IsHeap(heap)
      modifies this
      ensures Dequeues(old(View()), View(), result)
    {
      hide Skimming, Dequeues, Peeks, Popped;
      ghost var start := View();
      ghost var skipped: multiset<Item> := multiset{};
      SkimNone(start);
      while heap != []
        invariant Skimming(start, heap, skipped)
        invariant View() == start.(heap := heap)
        decreases |heap|
      {
        var item := heap[0];
        SkimmingHeap(start, heap, skipped);
        var rest := Pop(heap);
        if item.url in urls {
          Delivers(start, heap, skipped, rest);
          heap := rest;
          urls := urls - {item.url};
          totalDequeued := totalDequeued + 1;
          return Some(item);
        }
        SkimOne(start, heap, rest, skipped);
        skipped := skipped + multiset{item};
        heap := rest;
      }
      DeliversNone(start, skipped);
      return None;
    }

    method Peek() returns (result: Option<Item>)
      requires IsHeap(heap)
      modifies this`heap
      ensures Peeks(old(View()), View(), result)
    {
      hide Skimming, Dequeues, Peeks, Popped;
      ghost var start := View();
      ghost var skipped: multiset<Item> := multiset{};
      SkimNone(start);
      while heap != []
        invariant Skimming(start, heap, skipped)
        invariant View() == start.(heap := heap)
        decreases |heap|
      {
        if heap[0].url in urls {
          Shows(start, heap, skipped);
          return Some(heap[0]);
        }
        SkimmingHeap(start, heap, skipped);
        var rest := Pop(heap);
        SkimOne(start, heap, rest, skipped);
        skipped := skipped + multiset{heap[0]};
        heap := rest;
      }
      ShowsNone(start, skipped);
      return None;
    }

    method Discard(url: string)
      modifies this`urls
      ensures View() == Recrawl.Discard(old(View()), url)
    {
      urls := urls - {url};
    }

    method Clear()
      modifies this`heap, this`urls
      ensures View() == Recrawl.Clear(old(View()))
    {
      heap := [];
      urls := {};
    }
  }

  /** heappush and heappop, up to the order of what is not the head. */
  method Push(heap: seq<Item>, x: Item) returns (heap': seq<Item>)
    requires IsHeap(heap)
    ensures Pushed(heap, x, heap')
  {
    heap' := if heap == [] || Before(x, heap[0]) then [x] + heap else heap + [x];
  }

  method Pop(heap: seq<Item>) returns (heap': seq<Item>)
    requires heap != [] && IsHeap(heap)
    ensures Popped(heap, heap') && |heap'| < |heap|
  {
    var rest := heap[1..];
    assert heap == [heap[0]] + rest;
    if rest == [] {
      return [];
    }
    var k := 0;
    for i := 0 to |rest|
      invariant 0 <= k < |rest| && forall j | 0 <= j < i :: Before(rest[k], rest[j])
    {
      if !Before(rest[k], rest[i]) {
        k := i;
      }
    }
    heap' := [rest[k]] + rest[..k] + rest[k + 1..];
    assert rest == rest[..k] + [rest[k]] + rest[k + 1..];
  }

  /** Between two pops: the entries popped so far are stale and come before all the others. */
  ghost predicate Skimming(q: Queue, heap: seq<Item>, skipped: multiset<Item>) {
    && IsHeap(heap) && multiset(q.heap) == multiset(heap) + skipped
    && (forall x | x in skipped :: !Live(q, x))
    && (forall x, y | x in skipped && y in heap :: Before(x, y))
    && (q.heap != [] && Live(q, q.heap[0]) ==> heap == q.heap)
  }

  lemma SkimNone(q: Queue)
    requires IsHeap(q.heap)
    ensures Skimming(q, q.heap, multiset{})
  {
  }

  lemma SkimmingHeap(q: Queue, heap: seq<Item>, skipped: multiset<Item>)
    requires Skimming(q, heap, skipped)
    ensures IsHeap(heap)
  {
  }

  lemma Shows(q: Queue, heap: seq<Item>, skipped: multiset<Item>)
    requires heap != [] && Skimming(q, heap, skipped) && Live(q, heap[0])
    ensures Peeks(q, q.(heap := heap), Some(heap[0]))
  {
    assert Skims(q, heap, skipped) && ShowsHead(q, heap, q.(heap := heap), Some(heap[0]));
  }

  lemma ShowsNone(q: Queue, skipped: multiset<Item>)
    requires Skimming(q, [], skipped)
    ensures Peeks(q, q.(heap := []), None)
  {
    assert Skims(q, [], skipped) && ShowsHead(q, [], q.(heap := []), None);
  }

  lemma Delivers(q: Queue, heap: seq<Item>, skipped: multiset<Item>, rest: seq<Item>)
    requires heap != [] && Skimming(q, heap, skipped) && Popped(heap, rest) && Live(q, heap[0])
    ensures Dequeues(q, Queue(rest, q.urls - {heap[0].url}, q.enqueued, q.dequeued + 1), Some(heap[0]))
  {
    var q' := Queue(rest, q.urls - {heap[0].url}, q.enqueued, q.dequeued + 1);
    assert Skims(q, heap, skipped) && TakesHead(q, heap, q', Some(heap[0]));
  }

  lemma DeliversNone(q: Queue, skipped: multiset<Item>)
    requires Skimming(q, [], skipped)
    ensures Dequeues(q, q.(heap := []), None)
  {
    assert Skims(q, [], skipped) && TakesHead(q, [], q.(heap := []), None);
  }

  lemma SkimOne(q: Queue, heap: seq<Item>, heap': seq<Item>, skipped: multiset<Item>)
    requires heap != [] && Skimming(q, heap, skipped) && Popped(heap, heap') && !Live(q, heap[0])
    ensures Skimming(q, heap', skipped + multiset{heap[0]})
  {
    InHeap(heap, multiset(heap') + multiset{heap[0]});
    InHeap(heap', multiset(heap'));
  }
}
