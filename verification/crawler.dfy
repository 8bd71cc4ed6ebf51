/**
  The crawl frontier: a bounded queue of URLs waiting to be fetched, the
  set of URLs already admitted to it, the refill step that tops the queue
  up from the store's candidates, and the worker's guard against empty
  URLs.

  The channel is a sequence (front = next to be received), the expiring
  cache is a plain set, and the store's answer to `NextsToVisit` is an
  input of the step.
 */
module Crawler {
  import opened Wrappers

  // ---------------------------------------------------------------------
  // Sizes fixed by NewCrawler and refillQueue
  // ---------------------------------------------------------------------

  /** Buffer size of the URL queue. */
  function QueueCapacity(nWorkers: nat): nat { 100 * nWorkers }

  /** Buffer size of the results channel. */
  function ResultsCapacity(nWorkers: nat): nat { 2 * nWorkers }

  /** The queue is refilled only when it holds at most this many URLs. */
  function LowWaterMark(nWorkers: nat): nat { 80 * nWorkers }

  /** How many candidates one refill asks the store for. */
  function BatchSize(nWorkers: nat): nat { 100 * nWorkers }

  // ---------------------------------------------------------------------
  // Sequence vocabulary
  // ---------------------------------------------------------------------

  function Elems(s: seq<string>): set<string>
  {
    set u | u in s
  }

  predicate NoDuplicates(s: seq<string>)
  {
    forall i, j :: 0 <= i < j < |s| ==> s[i] != s[j]
  }

  /** `xs` can be obtained from `ys` by deleting elements. */
  predicate IsSubsequence(xs: seq<string>, ys: seq<string>)
    decreases |ys|
  {
    |xs| == 0 ||
    (|ys| > 0 &&
      ((xs[0] == ys[0] && IsSubsequence(xs[1..], ys[1..])) || IsSubsequence(xs, ys[1..])))
  }

  // ---------------------------------------------------------------------
  // One refill pass
  // ---------------------------------------------------------------------

  /** The queue and seen-set after a pass over the candidates, and how many URLs it added. */
  datatype Admission = Admission(queue: seq<string>, seen: set<string>, newURLs: nat)

  /** The loop over the store's candidates, in order: skip a URL already
      seen; stop at the first unseen URL that finds the queue full;
      otherwise mark the URL seen and append it. */
  function Admit(queue: seq<string>, seen: set<string>, capacity: nat, candidates: seq<string>): (a: Admission)
    // the old queue is kept, in order, in front of what is added
    ensures |queue| <= |a.queue| && a.queue[..|queue|] == queue
    // a full queue admits nothing and marks nothing
    ensures |queue| >= capacity ==> a == Admission(queue, seen, 0)
    // the queue is never filled past capacity
    ensures |queue| < capacity ==> |a.queue| <= capacity
    // the count is the number of URLs appended
    ensures a.newURLs == |a.queue| - |queue|
    // exactly the appended URLs are marked
    ensures a.seen == seen + Elems(a.queue[|queue|..])
    // appended URLs were unseen, are distinct, and come from the candidates in order
    ensures forall u :: u in a.queue[|queue|..] ==> u !in seen
    ensures NoDuplicates(a.queue[|queue|..])
    ensures IsSubsequence(a.queue[|queue|..], candidates)
    // a pass that leaves room has looked at (and marked) every candidate
    ensures |a.queue| < capacity ==> forall u :: u in candidates ==> u in a.seen
    decreases |candidates|
  {
    if |candidates| == 0 then Admission(queue, seen, 0)
    else
      var u := candidates[0];
      if u in seen then
        var a := Admit(queue, seen, capacity, candidates[1..]);
        assert forall v :: v in candidates ==> v == u || v in candidates[1..];
        a
      else if |queue| >= capacity then Admission(queue, seen, 0)
      else
        var a := Admit(queue + [u], seen + {u}, capacity, candidates[1..]);
        assert a.queue[..|queue|] == (a.queue[..|queue| + 1])[..|queue|];
        assert a.queue[|queue|..] == [u] + a.queue[|queue| + 1..];
        assert forall v :: v in candidates ==> v == u || v in candidates[1..];
        Admission(a.queue, a.seen, a.newURLs + 1)
  }

  /** What `refillQueue` does and returns: the new queue and seen-set, the
      limit it asked the store for (`None` when it did not call the store),
      how many URLs it added, and the store's error if any. */
  datatype RefillOutcome = RefillOutcome(
    queue: seq<string>,
    seen: set<string>,
    request: Option<nat>,
    newURLs: nat,
    err: Option<string>)

  /** `refillQueue` for `nWorkers` workers, given the queue, the seen-set
      and what `NextsToVisit` answers if it is called. */
  function Refill(nWorkers: nat, queue: seq<string>, seen: set<string>,
                  store: Result<seq<string>, string>): (r: RefillOutcome)
    // the store is asked, for one batch, exactly when the queue is at or below the low-water mark
    ensures r.request.Some? <==> |queue| <= LowWaterMark(nWorkers)
    ensures r.request.Some? ==> r.request.value == BatchSize(nWorkers)
    // a well-stocked queue or a store error leaves everything as it was
    ensures r.request.None? || r.err.Some? ==> r.queue == queue && r.seen == seen && r.newURLs == 0
    ensures r.err.Some? <==> r.request.Some? && store.Failure?
    ensures r.err.Some? ==> r.err.value == store.error
    // never past capacity
    ensures |r.queue| <= QueueCapacity(nWorkers) || r.queue == queue
    // otherwise the candidates are admitted as described by Admit
    ensures r.request.Some? && store.Success? ==>
      Admission(r.queue, r.seen, r.newURLs) == Admit(queue, seen, QueueCapacity(nWorkers), store.value)
  {
    if |queue| <= LowWaterMark(nWorkers) then
      match store
      case Failure(e) => RefillOutcome(queue, seen, Some(BatchSize(nWorkers)), 0, Some(e))
      case Success(urls) =>
        var a := Admit(queue, seen, QueueCapacity(nWorkers), urls);
        RefillOutcome(a.queue, a.seen, Some(BatchSize(nWorkers)), a.newURLs, None)
    else RefillOutcome(queue, seen, None, 0, None)
  }

  /** The loop of `refillQueue` as written, with `continue` and `break`. */
  method RefillQueue(nWorkers: nat, queue: seq<string>, seen: set<string>,
                     store: Result<seq<string>, string>) returns (r: RefillOutcome)
    ensures r == Refill(nWorkers, queue, seen, store)
  {
    if |queue| > LowWaterMark(nWorkers) {
      return RefillOutcome(queue, seen, None, 0, None);
    }
    if store.Failure? {
      return RefillOutcome(queue, seen, Some(BatchSize(nWorkers)), 0, Some(store.error));
    }
    var urls := store.value;
    var capacity := QueueCapacity(nWorkers);
    ghost var goal := Admit(queue, seen, capacity, urls);
    var q, s, newURLs, i := queue, seen, 0, 0;
    while i < |urls|
      invariant i <= |urls|
      invariant Admit(q, s, capacity, urls[i..]).queue == goal.queue
      invariant Admit(q, s, capacity, urls[i..]).seen == goal.seen
      invariant newURLs + Admit(q, s, capacity, urls[i..]).newURLs == goal.newURLs
    {
      var url := urls[i];
      assert urls[i..][1..] == urls[i + 1..];
      if url in s {
        i := i + 1;
        continue;
      }
      if |q| >= capacity {
        break;
      }
      s := s + {url};
      newURLs := newURLs + 1;
      q := q + [url];
      i := i + 1;
    }
    r := RefillOutcome(q, s, Some(BatchSize(nWorkers)), newURLs, None);
  }

  /** With one worker (capacity 100, low-water mark 80) a queue of 81 URLs
      does not call the store, and a queue of 80 does. */
  lemma LowWaterExample(store: Result<seq<string>, string>)
    ensures Refill(1, seq(81, _ => "u"), {"u"}, store).request == None
    ensures Refill(1, seq(80, _ => "u"), {"u"}, store).request == Some(100)
  {
  }

  /** Processing candidates in two batches is processing them in one. */
  lemma {:induction false} AdmitAppend(queue: seq<string>, seen: set<string>, capacity: nat,
                                       first: seq<string>, second: seq<string>)
    ensures
      var a := Admit(queue, seen, capacity, first);
      var b := Admit(a.queue, a.seen, capacity, second);
      Admit(queue, seen, capacity, first + second) == Admission(b.queue, b.seen, a.newURLs + b.newURLs)
    decreases |first|
  {
    if |first| == 0 {
      assert first + second == second;
    } else {
      assert (first + second)[1..] == first[1..] + second;
      var u := first[0];
      if u in seen {
        AdmitAppend(queue, seen, capacity, first[1..], second);
      } else if |queue| >= capacity {
      } else {
        AdmitAppend(queue + [u], seen + {u}, capacity, first[1..], second);
      }
    }
  }

  /** Once a pass has filled the queue, later candidates change nothing:
      none is appended and none is marked seen. */
  lemma StopsAtCapacity(queue: seq<string>, seen: set<string>, capacity: nat,
                        first: seq<string>, rest: seq<string>)
    requires |Admit(queue, seen, capacity, first).queue| >= capacity
    ensures Admit(queue, seen, capacity, first + rest) == Admit(queue, seen, capacity, first)
  {
    AdmitAppend(queue, seen, capacity, first, rest);
  }

  // ---------------------------------------------------------------------
  // The worker's end of the queue
  // ---------------------------------------------------------------------

  /** What a fetch worker does with the front of the queue. */
  datatype Take =
    | Blocked                               // nothing to receive: the worker waits
    | Discarded(rest: seq<string>)          // an empty URL, dropped without a fetch
    | Fetch(url: string, rest: seq<string>) // a URL to crawl

  /** One receive of `addWorker`, with its empty-URL guard. */
  function TakeWork(queue: seq<string>): (t: Take)
    // a worker waits exactly when the queue is empty
    ensures t.Blocked? <==> queue == []
    // otherwise it removes the front URL, and fetches it only when it is not empty
    ensures t.Fetch? ==> t.url != "" && queue == [t.url] + t.rest
    ensures t.Discarded? ==> queue == [""] + t.rest
  {
    if |queue| == 0 then Blocked
    else if queue[0] == "" then Discarded(queue[1..])
    else Fetch(queue[0], queue[1..])
  }

  /** The URLs the workers fetch while they empty the queue, in order. */
  function Drain(queue: seq<string>): (fetched: seq<string>)
    // every non-empty URL is fetched exactly as often as it was queued, no empty one ever
    ensures multiset(fetched) == multiset(queue)["" := 0]
    // in queue order
    ensures IsSubsequence(fetched, queue)
    decreases |queue|
  {
    match TakeWork(queue)
    case Blocked => []
    case Discarded(rest) =>
      assert queue == [""] + rest;
      Drain(rest)
    case Fetch(u, rest) =>
      assert queue == [u] + rest;
      assert ([u] + Drain(rest))[1..] == Drain(rest);
      [u] + Drain(rest)
  }

  // ---------------------------------------------------------------------
  // The frontier over many ticks
  // ---------------------------------------------------------------------

  /** The crawler's shared queue state. */
  datatype Frontier = Frontier(nWorkers: nat, queue: seq<string>, seen: set<string>)

  /** The queue fits its buffer and every queued URL has been marked seen. */
  predicate Valid(f: Frontier)
  {
    |f.queue| <= QueueCapacity(f.nWorkers) && Elems(f.queue) <= f.seen
  }

  /** The queue state `NewCrawler` sets up: an empty buffer and an empty cache. */
  function NewCrawler(nWorkers: nat): (f: Frontier)
    ensures Valid(f)
    ensures f.nWorkers == nWorkers && f.queue == [] && f.seen == {}
    ensures QueueCapacity(f.nWorkers) == 100 * nWorkers && ResultsCapacity(f.nWorkers) == 2 * nWorkers
  {
    Frontier(nWorkers, [], {})
  }

  /** What can happen to the frontier: a refill tick (with the store's
      answer), or a worker receiving from the queue. */
  datatype Event = Tick(store: Result<seq<string>, string>) | Receive

  datatype Trace = Trace(frontier: Frontier, admitted: seq<string>)

  /** One event, and the URLs it appended to the queue. */
  function Step(f: Frontier, ev: Event): (t: Trace)
    ensures t.frontier.nWorkers == f.nWorkers
    // a tick only appends at the back, and marks exactly what it appends
    ensures ev.Tick? ==>
      t.frontier.queue == f.queue + t.admitted && t.frontier.seen == f.seen + Elems(t.admitted)
    // a receive takes the front URL, if any, and leaves the seen-set alone
    ensures ev.Receive? ==>
      && t.admitted == [] && t.frontier.seen == f.seen
      && (f.queue == [] ==> t.frontier.queue == [])
      && (f.queue != [] ==> t.frontier.queue == f.queue[1..])
  {
    match ev
    case Tick(store) =>
      var r := Refill(f.nWorkers, f.queue, f.seen, store);
      assert r.queue == f.queue + r.queue[|f.queue|..];
      Trace(Frontier(f.nWorkers, r.queue, r.seen), r.queue[|f.queue|..])
    case Receive =>
      match TakeWork(f.queue)
      case Blocked => Trace(f, [])
      case Discarded(rest) => Trace(Frontier(f.nWorkers, rest, f.seen), [])
      case Fetch(_, rest) => Trace(Frontier(f.nWorkers, rest, f.seen), [])
  }

  /** A run of events, and every URL appended along the way. */
  function Run(f: Frontier, events: seq<Event>): (t: Trace)
    ensures t.frontier.nWorkers == f.nWorkers
    // the seen-set grows by exactly the URLs appended along the way
    ensures t.frontier.seen == f.seen + Elems(t.admitted)
    // every URL left in the queue was queued before the run or appended during it
    ensures Elems(t.frontier.queue) <= Elems(f.queue) + Elems(t.admitted)
    decreases |events|
  {
    if |events| == 0 then Trace(f, [])
    else
      var t := Step(f, events[0]);
      var u := Run(t.frontier, events[1..]);
      Trace(u.frontier, t.admitted + u.admitted)
  }

  /** One event keeps the frontier valid, and what it appends is new and distinct. */
  lemma StepKeepsFrontier(f: Frontier, ev: Event)
    requires Valid(f)
    ensures var t := Step(f, ev);
      && Valid(t.frontier)
      && t.frontier.nWorkers == f.nWorkers
      && NoDuplicates(t.admitted)
      && (forall u :: u in t.admitted ==> u !in f.seen)
      && t.frontier.seen == f.seen + Elems(t.admitted)
  {
  }

  /** Over any run, no URL is ever appended to the queue twice, nor one that
      was seen before the run; the seen-set grows by exactly the appended
      URLs, and the queue never exceeds its buffer. */
  lemma {:induction false} RunNeverReadmits(f: Frontier, events: seq<Event>)
    requires Valid(f)
    ensures var t := Run(f, events);
      && Valid(t.frontier)
      && t.frontier.nWorkers == f.nWorkers
      && NoDuplicates(t.admitted)
      && (forall u :: u in t.admitted ==> u !in f.seen)
      && t.frontier.seen == f.seen + Elems(t.admitted)
    decreases |events|
  {
    if |events| > 0 {
      var s := Step(f, events[0]);
      StepKeepsFrontier(f, events[0]);
      RunNeverReadmits(s.frontier, events[1..]);
      var u := Run(s.frontier, events[1..]);
      var all := s.admitted + u.admitted;
      forall i, j | 0 <= i < j < |all| ensures all[i] != all[j]
      {
        if j >= |s.admitted| && i < |s.admitted| {
          assert all[i] in s.frontier.seen;
          assert all[j] in u.admitted;
        }
      }
      assert Elems(all) == Elems(s.admitted) + Elems(u.admitted);
    }
  }
}
