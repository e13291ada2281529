/** The sliding-window rate limiter: deques popped early and swept now and then, against
    the plain count over every call ever accepted. */
module RateLimit {

  type Key = string

  const SWEEP_ABOVE := 1024

  /** One call of `allow`. */
  datatype Call = Call(key: Key, now: real)

  // --- The reference: the full history ----------------------------------------

  /** The instants at which calls for `k` were accepted, in order. */
  function Times(h: seq<Call>, k: Key): seq<real> {
    if h == [] then []
    else Times(h[..|h| - 1], k) + if h[|h| - 1].key == k then [h[|h| - 1].now] else []
  }

  /** How many of them fall strictly after `start`. */
  function Recent(ts: seq<real>, start: real): nat {
    if ts == [] then 0 else (if ts[0] > start then 1 else 0) + Recent(ts[1..], start)
  }

  predicate NaiveAllow(h: seq<Call>, c: Call, window: real, max: int) {
    Recent(Times(h, c.key), c.now - window) < max
  }

  // --- The structure ----------------------------------------------------------

  type Hits = map<Key, seq<real>>

  function Deque(m: Hits, k: Key): seq<real> {
    if k in m then m[k] else []
  }

  /** The early pops: hits leave at the old end once they are out of the window. */
  function Expire(ts: seq<real>, start: real): seq<real> {
    if ts == [] || ts[0] > start then ts else Expire(ts[1..], start)
  }

  function Swept(m: Hits, start: real): Hits {
    map k | k in m && Expire(m[k], start) != [] :: Expire(m[k], start)
  }

  /** One call; `sweep` says whether the garbage sweep runs, should the call be accepted. */
  function Step(m: Hits, c: Call, window: real, max: int, sweep: bool): (Hits, bool) {
    var start := c.now - window;
    var hits := Expire(Deque(m, c.key), start);
    if |hits| >= max then (m[c.key := hits], false)
    else
      var m1 := m[c.key := hits + [c.now]];
      (if sweep then Swept(m1, start) else m1, true)
  }

  class RateLimiter {
    const maxAttempts: int
    const window: real
    var hits: Hits

    constructor (maxAttempts: int, window: real)
      ensures this.maxAttempts == maxAttempts && this.window == window && hits == map[]
    {
      this.maxAttempts, this.window, hits := maxAttempts, window, map[];
    }

    method Allow(key: Key, now: real) returns (ok: bool)
      modifies this
      ensures (hits, ok) == Step(old(hits), Call(key, now), window, maxAttempts,
                                 |old(hits).Keys + {key}| > 1024)
    {
      var start := now - window;
      var queue := if key in hits then hits[key] else [];
      while queue != [] && queue[0] <= start
        invariant Expire(queue, start) == Expire(Deque(hits, key), start)
        decreases |queue|
      {
        queue := queue[1..];
      }
      if |queue| >= maxAttempts {
        hits := hits[key := queue];
        return false;
      }
      hits := hits[key := queue + [now]];
      assert hits.Keys == old(hits).Keys + {key};
      if |hits.Keys| > SWEEP_ABOVE {
        Sweep(start);
      }
      ok := true;
    }

    method Sweep(start: real)
      modifies this
      ensures hits == Swept(old(hits), start)
    {
      var todo := hits.Keys;
      ghost var whole := hits;
      while todo != {}
        invariant todo <= hits.Keys <= whole.Keys
        invariant forall k :: k in todo ==> hits[k] == whole[k]
        invariant forall k :: k in whole && k !in todo ==>
          (k in hits <==> Expire(whole[k], start) != []) && (k in hits ==> hits[k] == Expire(whole[k], start))
      {
        var key :| key in todo;
        var queue := hits[key];
        while queue != [] && queue[0] <= start
          invariant Expire(queue, start) == Expire(whole[key], start)
          decreases |queue|
        {
          queue := queue[1..];
        }
        hits := if queue == [] then hits - {key} else hits[key := queue];
        todo := todo - {key};
      }
    }
  }

  // --- The refinement ---------------------------------------------------------

  predicate Sorted(ts: seq<real>) {
    forall i, j :: 0 <= i < j < |ts| ==> ts[i] <= ts[j]
  }

  /** `d` is what is left of `ts` after hits no newer than `start` were dropped. */
  predicate Trimmed(d: seq<real>, ts: seq<real>, start: real) {
    |d| <= |ts| && d == ts[|ts| - |d|..] && forall i :: 0 <= i < |ts| - |d| ==> ts[i] <= start
  }

  lemma {:induction false} ExpireTrims(d: seq<real>, ts: seq<real>, start: real, now: real)
    requires Trimmed(d, ts, start) && start <= now && Sorted(ts)
    ensures Trimmed(Expire(d, now), ts, now)
    ensures |Expire(d, now)| == Recent(ts, now)
    ensures forall i :: 0 <= i < |Expire(d, now)| ==> Expire(d, now)[i] > now
    decreases |d|
  {
    if d == [] {
      NoneRecent(ts, now);
    } else if d[0] > now {
      LiveTrims(d, ts, start, now);
    } else {
      assert d[1..] == ts[|ts| - |d[1..]|..];
      ExpireTrims(d[1..], ts, now, now);
    }
  }

  /** Nothing to drop: all of `d` is inside the window, all before it is outside. */
  lemma LiveTrims(d: seq<real>, ts: seq<real>, start: real, now: real)
    requires Trimmed(d, ts, start) && start <= now && Sorted(ts) && d != [] && d[0] > now
    ensures |d| == Recent(ts, now) && forall i :: 0 <= i < |d| ==> d[i] > now
  {
    var cut := |ts| - |d|;
    assert ts[cut] == d[0];
    assert forall i :: 0 <= i < |d| ==> d[i] == ts[cut + i] && d[i] >= d[0];
    RecentSplits(ts, cut, now);
    NoneRecent(ts[..cut], now);
    AllRecent(d, now);
  }

  lemma {:induction false} NoneRecent(ts: seq<real>, start: real)
    requires forall i :: 0 <= i < |ts| ==> ts[i] <= start
    ensures Recent(ts, start) == 0
  {
    if ts == [] {
    } else {
      NoneRecent(ts[1..], start);
    }
  }

  lemma {:induction false} AllRecent(ts: seq<real>, start: real)
    requires forall i :: 0 <= i < |ts| ==> ts[i] > start
    ensures Recent(ts, start) == |ts|
  {
    if ts == [] {
    } else {
      AllRecent(ts[1..], start);
    }
  }

  lemma {:induction false} RecentSplits(ts: seq<real>, cut: nat, start: real)
    requires cut <= |ts|
    ensures Recent(ts, start) == Recent(ts[..cut], start) + Recent(ts[cut..], start)
  {
    if cut == 0 {
      assert ts[..0] == [];
    } else {
      assert ts[..cut][1..] == ts[1..][..cut - 1];
      assert ts[cut..] == ts[1..][cut - 1..];
      RecentSplits(ts[1..], cut - 1, start);
    }
  }

  lemma {:induction false} TimesSorted(h: seq<Call>, k: Key, now: real)
    requires forall i :: 0 <= i < |h| ==> h[i].now <= now
    requires forall i, j :: 0 <= i < j < |h| ==> h[i].now <= h[j].now
    ensures Sorted(Times(h, k))
    ensures forall i :: 0 <= i < |Times(h, k)| ==> Times(h, k)[i] <= now
  {
    if h == [] {
    } else {
      TimesSorted(h[..|h| - 1], k, h[|h| - 1].now);
    }
  }

  /** Every deque is the history of its key, less hits that are out of the window. */
  ghost predicate Refines(m: Hits, h: seq<Call>, last: real, window: real) {
    && Ordered(h, last)
    && (forall k: Key :: Trimmed(Deque(m, k), Times(h, k), last - window))
  }

  /** What one call leaves under a key: the key called expires and gains the hit, if
      there is one; a sweep expires every key. */
  function NextDeque(d: seq<real>, start: real, hit: seq<real>, mine: bool, sweep: bool): seq<real> {
    var d1 := if mine then Expire(d, start) + hit else d;
    if sweep then Expire(d1, start) else d1
  }

  lemma StepDeque(m: Hits, c: Call, window: real, max: int, sweep: bool, k: Key)
    ensures var (m1, ok) := Step(m, c, window, max, sweep);
      Deque(m1, k) == NextDeque(Deque(m, k), c.now - window, if ok then [c.now] else [], k == c.key, ok && sweep)
  {
    var start := c.now - window;
    var hits := Expire(Deque(m, c.key), start);
    var m1 := m[c.key := hits + [c.now]];
    assert Deque(Swept(m1, start), k) == Expire(Deque(m1, k), start);
    assert hits + [] == hits;
  }

  lemma TimesAppend(h: seq<Call>, c: Call, k: Key)
    ensures Times(h + [c], k) == Times(h, k) + if c.key == k then [c.now] else []
  {
    assert (h + [c])[..|h|] == h;
  }

  lemma TrimmedAppend(d: seq<real>, ts: seq<real>, start: real, t: real)
    requires Trimmed(d, ts, start)
    ensures Trimmed(d + [t], ts + [t], start)
  {
    assert (ts + [t])[|ts| - |d|..] == ts[|ts| - |d|..] + [t];
  }

  /** What a call does to one key's deque keeps it a trimmed history. */
  lemma TrimmedStep(d: seq<real>, ts: seq<real>, ts1: seq<real>, before: real, start: real, hit: seq<real>,
                    mine: bool, sweep: bool)
    requires Trimmed(d, ts, before) && before <= start && |hit| <= 1
    requires ts1 == if mine then ts + hit else ts
    requires Sorted(ts) && Sorted(ts1)
    ensures Trimmed(NextDeque(d, start, hit, mine, sweep), ts1, start)
  {
    ExpireTrims(d, ts, before, start);
    var d1 := if mine then Expire(d, start) + hit else d;
    if mine && hit != [] {
      TrimmedAppend(Expire(d, start), ts, start, hit[0]);
      assert hit == [hit[0]];
    } else if mine {
      assert ts1 == ts && d1 == Expire(d, start);
    }
    assert Trimmed(d1, ts1, start);
    ExpireTrims(d1, ts1, start, start);
  }

  ghost predicate Ordered(h: seq<Call>, last: real) {
    && (forall i :: 0 <= i < |h| ==> h[i].now <= last)
    && (forall i, j :: 0 <= i < j < |h| ==> h[i].now <= h[j].now)
  }

  lemma StepTrims(m: Hits, h: seq<Call>, last: real, c: Call, window: real, max: int, sweep: bool, k: Key)
    requires Ordered(h, last) && last <= c.now && Trimmed(Deque(m, k), Times(h, k), last - window)
    ensures var (m1, ok) := Step(m, c, window, max, sweep);
      Trimmed(Deque(m1, k), Times(if ok then h + [c] else h, k), c.now - window)
  {
    var (m1, ok) := Step(m, c, window, max, sweep);
    StepDeque(m, c, window, max, sweep, k);
    HistoryTrims(Deque(m, k), h, last, c, ok, k, if ok then h + [c] else h, if ok then [c.now] else [],
                 last - window, c.now - window, ok && sweep);
  }

  lemma HistoryTrims(d: seq<real>, h: seq<Call>, last: real, c: Call, ok: bool, k: Key, h1: seq<Call>, hit: seq<real>,
                     before: real, start: real, swept: bool)
    requires Ordered(h, last) && last <= c.now && before <= start && Trimmed(d, Times(h, k), before)
    requires h1 == (if ok then h + [c] else h) && hit == if ok then [c.now] else []
    ensures Trimmed(NextDeque(d, start, hit, k == c.key, swept), Times(h1, k), start)
  {
    HistoryStep(h, last, c, ok, h1, hit, k);
    if k == c.key {
      TrimmedStep(d, Times(h, k), Times(h1, k), before, start, hit, true, swept);
    } else {
      TrimmedStep(d, Times(h, k), Times(h1, k), before, start, hit, false, swept);
    }
  }

  lemma HistoryStep(h: seq<Call>, last: real, c: Call, ok: bool, h1: seq<Call>, hit: seq<real>, k: Key)
    requires Ordered(h, last) && last <= c.now
    requires h1 == (if ok then h + [c] else h) && hit == if ok then [c.now] else []
    ensures Sorted(Times(h, k)) && Sorted(Times(h1, k))
    ensures Times(h1, k) == if k == c.key then Times(h, k) + hit else Times(h, k)
  {
    TimesSorted(h, k, last);
    if ok {
      TimesAppend(h, c, k);
      TimesSorted(h1, k, c.now);
    } else {
      assert Times(h, k) + hit == Times(h, k);
    }
  }

  lemma StepAnswers(m: Hits, h: seq<Call>, last: real, c: Call, window: real, max: int, sweep: bool)
    requires Refines(m, h, last, window) && last <= c.now
    ensures Step(m, c, window, max, sweep).1 == NaiveAllow(h, c, window, max)
  {
    TimesSorted(h, c.key, last);
    ExpireTrims(Deque(m, c.key), Times(h, c.key), last - window, c.now - window);
  }

  lemma StepOrders(h: seq<Call>, last: real, c: Call, ok: bool)
    requires Ordered(h, last) && last <= c.now
    ensures Ordered(if ok then h + [c] else h, c.now)
  {
  }

  /** One call answers as the full history does, sweep or no sweep. */
  lemma StepRefines(m: Hits, h: seq<Call>, last: real, c: Call, window: real, max: int, sweep: bool)
    requires Refines(m, h, last, window) && last <= c.now
    ensures var (m1, ok) := Step(m, c, window, max, sweep);
      && ok == NaiveAllow(h, c, window, max)
      && Refines(m1, if ok then h + [c] else h, c.now, window)
  {
    var (m1, ok) := Step(m, c, window, max, sweep);
    StepAnswers(m, h, last, c, window, max, sweep);
    StepOrders(h, last, c, ok);
    forall k: Key ensures Trimmed(Deque(m1, k), Times(if ok then h + [c] else h, k), c.now - window) {
      StepTrims(m, h, last, c, window, max, sweep, k);
    }
  }

  /** The answers of the structure over a run, with a sweep wherever `sweeps` says so. */
  function Answers(m: Hits, cs: seq<Call>, window: real, max: int, sweeps: seq<bool>): seq<bool>
    requires |sweeps| == |cs|
    decreases |cs|
  {
    if cs == [] then []
    else
      var (m1, ok) := Step(m, cs[0], window, max, sweeps[0]);
      [ok] + Answers(m1, cs[1..], window, max, sweeps[1..])
  }

  function NaiveAnswers(h: seq<Call>, cs: seq<Call>, window: real, max: int): seq<bool>
    decreases |cs|
  {
    if cs == [] then []
    else
      var ok := NaiveAllow(h, cs[0], window, max);
      [ok] + NaiveAnswers(if ok then h + [cs[0]] else h, cs[1..], window, max)
  }

  lemma {:induction false} RunRefines(m: Hits, h: seq<Call>, last: real, cs: seq<Call>, window: real, max: int,
                                      sweeps: seq<bool>)
    requires |sweeps| == |cs| && Refines(m, h, last, window)
    requires forall i :: 0 <= i < |cs| ==> last <= cs[i].now
    requires forall i, j :: 0 <= i < j < |cs| ==> cs[i].now <= cs[j].now
    ensures Answers(m, cs, window, max, sweeps) == NaiveAnswers(h, cs, window, max)
    decreases |cs|
  {
    if cs == [] {
    } else {
      StepRefines(m, h, last, cs[0], window, max, sweeps[0]);
      var (m1, ok) := Step(m, cs[0], window, max, sweeps[0]);
      RunRefines(m1, if ok then h + [cs[0]] else h, cs[0].now, cs[1..], window, max, sweeps[1..]);
    }
  }

  /** For non-decreasing times a call is allowed exactly when fewer than `max` earlier
      accepted calls for its key fall in the last window; no answer depends on when, or
      whether, sweeps happen. */
  lemma AnswersAreTheWindowCount(cs: seq<Call>, window: real, max: int, sweeps: seq<bool>)
    requires |sweeps| == |cs|
    requires forall i, j :: 0 <= i < j < |cs| ==> cs[i].now <= cs[j].now
    ensures Answers(map[], cs, window, max, sweeps) == NaiveAnswers([], cs, window, max)
  {
    if cs != [] {
      RunRefines(map[], [], cs[0].now, cs, window, max, sweeps);
    }
  }

  /** A sweep leaves only keys with a hit inside the window: an address that stopped
      calling costs memory for a window at most. */
  lemma SweepLeavesOnlyLiveKeys(m: Hits, h: seq<Call>, last: real, c: Call, window: real, max: int, k: Key)
    requires Ordered(h, last) && last <= c.now && Trimmed(Deque(m, k), Times(h, k), last - window)
    requires Step(m, c, window, max, true).1 && k in Step(m, c, window, max, true).0
    ensures exists t :: t in Times(h + [c], k) && t > c.now - window
  {
    var d := Deque(Step(m, c, window, max, true).0, k);
    StepTrims(m, h, last, c, window, max, true, k);
    SweptHead(m, c, window, max, k);
    TrimmedHead(d, Times(h + [c], k), c.now - window);
  }

  lemma SweptHead(m: Hits, c: Call, window: real, max: int, k: Key)
    requires Step(m, c, window, max, true).1 && k in Step(m, c, window, max, true).0
    ensures var d := Deque(Step(m, c, window, max, true).0, k); d != [] && d[0] > c.now - window
  {
    SweptIsExpired(m[c.key := Expire(Deque(m, c.key), c.now - window) + [c.now]], c.now - window, k);
  }

  lemma TrimmedHead(d: seq<real>, ts: seq<real>, start: real)
    requires Trimmed(d, ts, start) && d != []
    ensures d[0] in ts
  {
    assert d[0] == ts[|ts| - |d|];
  }

  lemma {:induction false} ExpireIdempotent(ts: seq<real>, start: real)
    ensures Expire(Expire(ts, start), start) == Expire(ts, start)
    ensures Expire(ts, start) != [] ==> Expire(ts, start)[0] > start
  {
    if ts == [] || ts[0] > start {
    } else {
      ExpireIdempotent(ts[1..], start);
    }
  }

  lemma SweptIsExpired(m: Hits, start: real, k: Key)
    requires k in Swept(m, start)
    ensures Swept(m, start)[k] != [] && Swept(m, start)[k][0] > start
  {
    ExpireIdempotent(m[k], start);
  }
}
