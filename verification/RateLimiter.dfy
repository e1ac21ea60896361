/** The webhook rate limiter: one fixed-window counter per key. */
module RateLimiter {
  import opened Text

  datatype Options = Options(enabled: bool, window: int, permitLimit: int)

  datatype Counter = Counter(startedAt: int, count: int)

  function Updated(options: Options, current: Option<Counter>, now: int): Counter {
    match current
    case None => Counter(now, 1)
    case Some(counter) =>
      if now - counter.startedAt >= options.window then Counter(now, 1) else counter.(count := counter.count + 1)
  }

  type Counters = map<string, Counter>

  function CounterOf(counters: Counters, key: string): Option<Counter> {
    if key in counters then Some(counters[key]) else None
  }

  class WebhookRateLimiter {
    var counters: Counters

    constructor ()
      ensures counters == map[]
    {
      counters := map[];
    }

    /** TryAcquire, with the clock reading its update is made with. */
    method TryAcquire(key: string, options: Options, now: int) returns (granted: bool)
      modifies this
      ensures (counters, granted) == Acquired(options, old(counters), key, now)
    {
      if !options.enabled {
        return true;
      }
      var counter := Counter(now, 1);
      if key in counters {
        var current := counters[key];
        if now - current.startedAt < options.window {
          counter := current.(count := current.count + 1);
        }
      }
      counters := counters[key := counter];
      granted := counter.count <= options.permitLimit;
    }
  }

  function Acquired(options: Options, counters: Counters, key: string, now: int): (Counters, bool) {
    if !options.enabled then (counters, true)
    else
      var counter := Updated(options, CounterOf(counters, key), now);
      (counters[key := counter], counter.count <= options.permitLimit)
  }

  // ---------------------------------------------------------------- runs

  datatype Request = Request(key: string, now: int)

  datatype Entry = Entry(key: string, now: int, granted: bool)

  function Run(options: Options, requests: seq<Request>): (Counters, seq<Entry>) {
    if requests == [] then (map[], [])
    else
      var (counters, history) := Run(options, requests[..|requests| - 1]);
      var last := requests[|requests| - 1];
      var (after, granted) := Acquired(options, counters, last.key, last.now);
      (after, history + [Entry(last.key, last.now, granted)])
  }

  ghost predicate ClockNeverGoesBack(requests: seq<Request>) {
    forall i, j :: 0 <= i < j < |requests| ==> requests[i].now <= requests[j].now
  }

  /** The grants of a key at or after one time and before another. */
  function Grants(history: seq<Entry>, key: string, from: int, to: int): nat {
    if history == [] then 0
    else
      var last := history[|history| - 1];
      Grants(history[..|history| - 1], key, from, to) +
      if last.key == key && last.granted && from <= last.now < to then 1 else 0
  }

  /** The grants of a key at or after one time. */
  function Since(history: seq<Entry>, key: string, from: int): nat {
    if history == [] then 0
    else
      var last := history[|history| - 1];
      Since(history[..|history| - 1], key, from) + if last.key == key && last.granted && from <= last.now then 1 else 0
  }

  lemma {:induction false} GrantsSince(history: seq<Entry>, key: string, from: int, to: int)
    requires from <= to
    ensures Grants(history, key, from, to) == Since(history, key, from) - Since(history, key, to)
  {
    if history != [] {
      GrantsSince(history[..|history| - 1], key, from, to);
    }
  }

  lemma SinceFalls(history: seq<Entry>, key: string, from: int, to: int)
    requires from <= to
    ensures Since(history, key, to) <= Since(history, key, from)
  {
    GrantsSince(history, key, from, to);
  }

  lemma SinceOneMore(history: seq<Entry>, entry: Entry, key: string, from: int)
    ensures Since(history + [entry], key, from) ==
            Since(history, key, from) + if entry.key == key && entry.granted && from <= entry.now then 1 else 0
  {
    assert (history + [entry])[..|history|] == history;
  }

  lemma {:induction false} NothingAfterNow(options: Options, requests: seq<Request>, key: string, time: int)
    requires forall i :: 0 <= i < |requests| ==> requests[i].now < time
    ensures Since(Run(options, requests).1, key, time) == 0
  {
    if requests != [] {
      var front, last := requests[..|requests| - 1], requests[|requests| - 1];
      NothingAfterNow(options, front, key, time);
      SinceOneMore(Run(options, front).1, Entry(last.key, last.now,
                                                Acquired(options, Run(options, front).0, last.key, last.now).1),
                   key, time);
    }
  }

  // ---------------------------------------------------------------- the bound

  function Limit(options: Options): nat {
    if options.permitLimit < 0 then 0 else options.permitLimit
  }

  /** One grant less than twice the limit. */
  function Bound(options: Options): nat {
    if Limit(options) == 0 then 0 else 2 * Limit(options) - 1
  }

  /** How the counter of a key counts the grants of its window, and what is left of the window before. */
  ghost predicate Counts(options: Options, counter: Option<Counter>, history: seq<Entry>, key: string) {
    match counter
    case None => forall from :: Since(history, key, from) == 0
    case Some(Counter(start, count)) =>
      && 1 <= count
      && Since(history, key, start) == (if count < Limit(options) then count else Limit(options))
      && Since(history, key, start + options.window) == 0
      && (1 <= Limit(options) ==> Since(history, key, start + 1) < Since(history, key, start))
      && Since(history, key, start - options.window + 1) - Since(history, key, start) <=
           (if Limit(options) == 0 then 0 else Limit(options) - 1)
  }

  ghost predicate Bounded(options: Options, history: seq<Entry>, key: string) {
    forall from :: Since(history, key, from) - Since(history, key, from + options.window) <= Bound(options)
  }

  lemma NextCounts(options: Options, counter: Option<Counter>, history: seq<Entry>, key: string, now: int)
    requires options.enabled && 0 < options.window && Counts(options, counter, history, key)
    requires counter.Some? ==> counter.value.startedAt <= now
    requires Since(history, key, now + 1) == 0
    ensures var updated := Updated(options, counter, now);
            Counts(options, Some(updated), history + [Entry(key, now, updated.count <= options.permitLimit)], key)
  {
    var updated := Updated(options, counter, now);
    var start := updated.startedAt;
    var entry := Entry(key, now, updated.count <= options.permitLimit);
    SinceOneMore(history, entry, key, start);
    SinceOneMore(history, entry, key, start + 1);
    SinceOneMore(history, entry, key, start + options.window);
    SinceOneMore(history, entry, key, start - options.window + 1);
    SinceFalls(history, key, now + 1, start + options.window);
    if counter.Some? && start == now && now - counter.value.startedAt >= options.window {
      SinceFalls(history, key, counter.value.startedAt + options.window, now);
      SinceFalls(history, key, counter.value.startedAt + 1, now - options.window + 1);
      SinceFalls(history, key, counter.value.startedAt, now - options.window + 1);
    }
  }

  lemma NextBounded(options: Options, counter: Counter, history: seq<Entry>, entry: Entry, from: int)
    requires 0 < options.window && Counts(options, Some(counter), history + [entry], entry.key)
    requires Bounded(options, history, entry.key)
    requires counter.startedAt <= entry.now < counter.startedAt + options.window
    ensures Since(history + [entry], entry.key, from) -
            Since(history + [entry], entry.key, from + options.window) <= Bound(options)
  {
    var after, start := history + [entry], counter.startedAt;
    assert Since(history, entry.key, from) - Since(history, entry.key, from + options.window) <= Bound(options);
    SinceOneMore(history, entry, entry.key, from);
    SinceOneMore(history, entry, entry.key, from + options.window);
    if from <= entry.now < from + options.window {
      if from > start {
        SinceFalls(after, entry.key, start, from);
      } else {
        SinceFalls(after, entry.key, start - options.window + 1, from);
      }
    }
  }

  lemma {:induction false} RunCounts(options: Options, requests: seq<Request>, key: string)
    requires options.enabled && 0 < options.window && ClockNeverGoesBack(requests)
    ensures var (counters, history) := Run(options, requests);
            && Counts(options, CounterOf(counters, key), history, key) && Bounded(options, history, key)
            && (key in counters ==> forall i :: i == |requests| - 1 && requests != [] ==>
                counters[key].startedAt <= requests[i].now)
  {
    hide Counts, Bound, Updated;
    if requests == [] {
      assert Counts(options, None, [], key) by { NoGrants(options, key); }
    } else {
      var front, last := requests[..|requests| - 1], requests[|requests| - 1];
      var (counters, history) := Run(options, front);
      RunCounts(options, front, key);
      var updated := Updated(options, CounterOf(counters, last.key), last.now);
      var entry := Entry(last.key, last.now, updated.count <= options.permitLimit);
      if last.key == key {
        NothingAfterNow(options, front, key, last.now + 1);
        NextCounts(options, CounterOf(counters, key), history, key, last.now);
        WindowOf(options, CounterOf(counters, key), last.now);
        forall from
          ensures Since(history + [entry], key, from) -
                  Since(history + [entry], key, from + options.window) <= Bound(options)
        {
          NextBounded(options, updated, history, entry, from);
        }
      } else {
        OtherKey(options, CounterOf(counters, key), history, entry, key);
      }
    }
  }

  lemma NoGrants(options: Options, key: string)
    ensures Counts(options, None, [], key)
  {
  }

  lemma WindowOf(options: Options, counter: Option<Counter>, now: int)
    requires 0 < options.window && (counter.Some? ==> counter.value.startedAt <= now)
    ensures Updated(options, counter, now).startedAt <= now < Updated(options, counter, now).startedAt + options.window
  {
  }

  lemma OtherKey(options: Options, counter: Option<Counter>, history: seq<Entry>, entry: Entry, key: string)
    requires entry.key != key && Counts(options, counter, history, key) && Bounded(options, history, key)
    ensures Counts(options, counter, history + [entry], key) && Bounded(options, history + [entry], key)
  {
    forall from
      ensures Since(history + [entry], key, from) == Since(history, key, from)
    {
      SinceOneMore(history, entry, key, from);
    }
  }

  /** While the clock does not go back, no key is granted more than one less than twice the limit within any half-open
      interval as long as the window. */
  lemma WindowBound(options: Options, requests: seq<Request>, key: string, from: int)
    requires options.enabled && ClockNeverGoesBack(requests)
    ensures Grants(Run(options, requests).1, key, from, from + options.window) <= Bound(options)
  {
    var history := Run(options, requests).1;
    if 0 < options.window {
      RunCounts(options, requests, key);
      GrantsSince(history, key, from, from + options.window);
    } else {
      NoTime(history, key, from, from + options.window);
    }
  }

  lemma {:induction false} NoTime(history: seq<Entry>, key: string, from: int, to: int)
    requires to <= from
    ensures Grants(history, key, from, to) == 0
  {
    if history != [] {
      NoTime(history[..|history| - 1], key, from, to);
    }
  }

  /** So many requests at one time. */
  function Repeated(key: string, now: int, n: nat): seq<Request> {
    if n == 0 then [] else Repeated(key, now, n - 1) + [Request(key, now)]
  }

  /** One request at time 0, as many as are left just before the window ends, and a full limit when it has ended. */
  function BurstRequests(options: Options, key: string): seq<Request>
    requires options.permitLimit >= 1
  {
    [Request(key, 0)] + Repeated(key, options.window - 1, options.permitLimit - 1) + [Request(key, options.window)]
    + Repeated(key, options.window, options.permitLimit - 1)
  }

  /** The bound is reached, for every limit and every window of at least two units of time: these requests have that
      many grants in the window's length from just before the first window's end. */
  lemma BoundReached(options: Options, key: string)
    requires options.enabled && options.permitLimit >= 1 && options.window >= 2
    ensures ClockNeverGoesBack(BurstRequests(options, key))
    ensures var from := options.window - 1;
            Grants(Run(options, BurstRequests(options, key)).1, key, from, from + options.window) == Bound(options)
  {
    BurstInOrder(options, key);
    hide Run, Grants, CounterOf, ClockNeverGoesBack, Repeated, BurstRequests;
    var w, n := options.window, options.permitLimit - 1;
    FirstWindow(options, key);
    SecondWindow(options, key, [Request(key, 0)] + Repeated(key, w - 1, n));
    BurstParts(options, key);
  }

  lemma BurstParts(options: Options, key: string)
    requires options.permitLimit >= 1
    ensures BurstRequests(options, key) ==
            [Request(key, 0)] + Repeated(key, options.window - 1, options.permitLimit - 1)
            + [Request(key, options.window)] + Repeated(key, options.window, options.permitLimit - 1)
  {
  }

  lemma FirstWindow(options: Options, key: string)
    requires options.enabled && options.permitLimit >= 1 && options.window >= 2
    ensures var from, n := options.window - 1, options.permitLimit - 1;
            var run := Run(options, [Request(key, 0)] + Repeated(key, from, n));
            CounterOf(run.0, key) == Some(Counter(0, n + 1)) && Grants(run.1, key, from, from + options.window) == n
  {
    hide Run, Grants, CounterOf, Repeated;
    var from, one := options.window - 1, [Request(key, 0)];
    EmptyRun(options, key, from, from + options.window);
    assert [] + one == one;
    RunOneMore(options, [], one[0], from, from + options.window);
    RunRepeated(options, one, key, from, options.permitLimit - 1, from, from + options.window);
  }

  lemma SecondWindow(options: Options, key: string, requests: seq<Request>)
    requires options.enabled && options.permitLimit >= 1 && options.window >= 2
    requires CounterOf(Run(options, requests).0, key) == Some(Counter(0, options.permitLimit))
    ensures var from, w, n := options.window - 1, options.window, options.permitLimit - 1;
            Grants(Run(options, requests + [Request(key, w)] + Repeated(key, w, n)).1, key, from, from + w) ==
              Grants(Run(options, requests).1, key, from, from + w) + n + 1
  {
    hide Run, Grants, CounterOf, Repeated;
    var from, w := options.window - 1, options.window;
    RunOneMore(options, requests, Request(key, w), from, from + w);
    RunRepeated(options, requests + [Request(key, w)], key, w, options.permitLimit - 1, from, from + w);
  }

  lemma EmptyRun(options: Options, key: string, from: int, to: int)
    ensures CounterOf(Run(options, []).0, key) == None && Grants(Run(options, []).1, key, from, to) == 0
  {
  }

  lemma {:induction false} RepeatedTimes(key: string, now: int, n: nat)
    ensures |Repeated(key, now, n)| == n && forall i :: 0 <= i < n ==> Repeated(key, now, n)[i].now == now
  {
    if n > 0 {
      RepeatedTimes(key, now, n - 1);
    }
  }

  lemma BurstInOrder(options: Options, key: string)
    requires options.permitLimit >= 1 && options.window >= 2
    ensures ClockNeverGoesBack(BurstRequests(options, key))
  {
    RepeatedTimes(key, options.window - 1, options.permitLimit - 1);
    RepeatedTimes(key, options.window, options.permitLimit - 1);
  }

  /** Requests at one time within the window and the limit are all granted. */
  lemma {:induction false} RunRepeated(
    options: Options, requests: seq<Request>, key: string, now: int, n: nat, from: int, to: int)
    requires options.enabled && CounterOf(Run(options, requests).0, key).Some?
    requires now - CounterOf(Run(options, requests).0, key).value.startedAt < options.window && from <= now < to
    requires CounterOf(Run(options, requests).0, key).value.count + n <= options.permitLimit
    ensures var counter, after := CounterOf(Run(options, requests).0, key).value, requests + Repeated(key, now, n);
            && CounterOf(Run(options, after).0, key) == Some(counter.(count := counter.count + n))
            && Grants(Run(options, after).1, key, from, to) == Grants(Run(options, requests).1, key, from, to) + n
  {
    hide Run, Grants, CounterOf;
    if n == 0 {
      assert requests + Repeated(key, now, n) == requests;
    } else {
      RunRepeated(options, requests, key, now, n - 1, from, to);
      var front := requests + Repeated(key, now, n - 1);
      assert requests + Repeated(key, now, n) == front + [Request(key, now)];
      RunOneMore(options, front, Request(key, now), from, to);
    }
  }

  lemma RunOneMore(options: Options, requests: seq<Request>, request: Request, from: int, to: int)
    requires options.enabled
    ensures var updated := Updated(options, CounterOf(Run(options, requests).0, request.key), request.now);
            && CounterOf(Run(options, requests + [request]).0, request.key) == Some(updated)
            && Grants(Run(options, requests + [request]).1, request.key, from, to) ==
                 Grants(Run(options, requests).1, request.key, from, to) +
                 if updated.count <= options.permitLimit && from <= request.now < to then 1 else 0
  {
    assert (requests + [request])[..|requests|] == requests;
    var history, longer := Run(options, requests).1, Run(options, requests + [request]).1;
    assert longer[..|history|] == history;
  }

  /** A refusal means that the limit is used up: exactly so many grants were made since the start of a window that is
      less than a window length ago. */
  lemma RefusalMeansFull(options: Options, requests: seq<Request>, key: string, now: int) returns (start: int)
    requires options.enabled && 0 < options.window && ClockNeverGoesBack(requests + [Request(key, now)])
    requires !Acquired(options, Run(options, requests).0, key, now).1
    ensures start <= now < start + options.window
    ensures Grants(Run(options, requests).1, key, start, now + 1) == Limit(options)
  {
    var (counters, history) := Run(options, requests);
    assert forall i :: 0 <= i < |requests| ==> (requests + [Request(key, now)])[i] == requests[i];
    assert (requests + [Request(key, now)])[|requests|].now == now;
    assert ClockNeverGoesBack(requests);
    assert forall i :: 0 <= i < |requests| ==> requests[i].now < now + 1;
    RunCounts(options, requests, key);
    NothingAfterNow(options, requests, key, now + 1);
    var counter := CounterOf(counters, key);
    start := Updated(options, counter, now).startedAt;
    WindowOf(options, counter, now);
    GrantsSince(history, key, start, now + 1);
    if counter.Some? && start == counter.value.startedAt {
    } else {
      NothingAtNow(options, counter, history, key, now);
    }
  }

  lemma NothingAtNow(options: Options, counter: Option<Counter>, history: seq<Entry>, key: string, now: int)
    requires Counts(options, counter, history, key)
    requires counter.Some? ==> counter.value.startedAt + options.window <= now
    ensures Since(history, key, now) == 0
  {
    if counter.Some? {
      SinceFalls(history, key, counter.value.startedAt + options.window, now);
    }
  }
}
