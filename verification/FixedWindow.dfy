/**
  The fixed-window counter that both the per-IP limiter and the API-key limiter keep in a shared
  map: one bucket a key, opened by the first request after the previous window has passed.

  `BucketAfter` is the history of one key on its own: no map, no other key, no cleanup. The lemmas
  say what such a history guarantees; `SharedMapIsPerKeyHistory` says that the shared map, with its
  stale buckets deleted at arbitrary moments, decides every request as that history does.
 */
module FixedWindow {
  import opened Wrappers

  datatype Bucket = Bucket(count: int, resetTime: int)

  /** A request of one key: when it came and the limit that applied to it. */
  datatype Hit = Hit(at: int, limit: int)

  predicate Live(b: Option<Bucket>, now: int) {
    b.Some? && now <= b.value.resetTime
  }

  predicate Admits(b: Option<Bucket>, h: Hit) {
    Live(b, h.at) ==> b.value.count < h.limit
  }

  function Advance(b: Option<Bucket>, h: Hit, windowMs: int): Bucket {
    if !Live(b, h.at) then Bucket(1, h.at + windowMs)
    else if b.value.count < h.limit then Bucket(b.value.count + 1, b.value.resetTime)
    else b.value
  }

  // ---------- The history of one key ----------

  function BucketAfter(hits: seq<Hit>, windowMs: int): Option<Bucket> {
    if hits == [] then None
    else Some(Advance(BucketAfter(hits[..|hits| - 1], windowMs), hits[|hits| - 1], windowMs))
  }

  /** Was the request at position `i` let through? */
  predicate Admitted(hits: seq<Hit>, windowMs: int, i: nat)
    requires i < |hits|
  {
    Admits(BucketAfter(hits[..i], windowMs), hits[i])
  }

  /** Did the request at position `i` open a new window? */
  predicate Opens(hits: seq<Hit>, windowMs: int, i: nat)
    requires i < |hits|
  {
    !Live(BucketAfter(hits[..i], windowMs), hits[i].at)
  }

  /** How many requests with `lo <= at <= hi` were let through. */
  function AdmittedBetween(hits: seq<Hit>, windowMs: int, lo: int, hi: int): nat {
    if hits == [] then 0
    else
      var n := |hits| - 1;
      AdmittedBetween(hits[..n], windowMs, lo, hi)
      + if lo <= hits[n].at <= hi && Admitted(hits, windowMs, n) then 1 else 0
  }

  /** How many requests from position `s` on were let through. */
  function AdmittedFrom(hits: seq<Hit>, windowMs: int, s: nat): nat {
    if |hits| <= s then 0
    else
      var n := |hits| - 1;
      AdmittedFrom(hits[..n], windowMs, s) + if Admitted(hits, windowMs, n) then 1 else 0
  }

  ghost predicate InOrder(hits: seq<Hit>) {
    forall i, j :: 0 <= i < j < |hits| ==> hits[i].at <= hits[j].at
  }

  /** No request was subject to a limit above `max`; an opening request counts whatever the limit. */
  ghost predicate LimitedBy(hits: seq<Hit>, max: int) {
    1 <= max && forall i :: 0 <= i < |hits| ==> hits[i].limit <= max
  }

  lemma {:induction false} CountWithinLimit(hits: seq<Hit>, windowMs: int, max: int)
    requires LimitedBy(hits, max)
    ensures BucketAfter(hits, windowMs).Some? ==> 1 <= BucketAfter(hits, windowMs).value.count <= max
  {
    if hits == [] {
    } else {
      CountWithinLimit(hits[..|hits| - 1], windowMs, max);
    }
  }

  /**
    The window in progress after `hits` is the `j`-th one, counting from 0, that has let a request
    of the interval from `lo` through. If the first of them was open before the interval began, its
    opening request was not counted; if not, every one of them opened inside the interval. Either
    way each next window opened more than `windowMs` after the one before it.
   */
  ghost predicate Touched(b: Bucket, n: nat, windowMs: int, max: int, lo: int, j: nat) {
    || (n + 1 <= j * max + b.count && lo + j * (windowMs + 1) <= b.resetTime)
    || (n <= j * max + b.count && lo + j * (windowMs + 1) + windowMs <= b.resetTime)
  }

  /**
    The most requests of a key that a closed interval of `span` milliseconds can let through: windows
    open at least `windowMs + 1` apart, and one that was open before may still have room for all but
    the request that opened it.
   */
  function Ceiling(span: nat, windowMs: nat, max: int): int {
    CeilingFor(span / (windowMs + 1), span % (windowMs + 1) == 0, max)
  }

  function CeilingFor(steps: nat, whole: bool, max: int): int {
    if whole then (steps + 1) * max else (steps + 2) * max - 1
  }

  lemma Scaled(j: nat, k: nat, unit: int)
    requires j <= k && 0 <= unit
    ensures j * unit <= k * unit
  {
    assert (k - j) * unit >= 0;
  }

  /** How many windows fit: `j` steps of `unit` within `span`, and within one millisecond less. */
  lemma StepsWithin(j: nat, unit: nat, span: nat)
    requires 0 < unit
    ensures j * unit <= span ==> j <= span / unit
    ensures j * unit < span ==> j <= if span % unit == 0 then span / unit - 1 else span / unit
  {
    var q := span / unit;
    assert span == q * unit + span % unit;
    if q < j {
      Scaled(q + 1, j, unit);
      assert (q + 1) * unit == q * unit + unit;
    }
  }

  lemma CountWithinCeiling(n: nat, j: nat, count: int, steps: nat, whole: bool, max: int)
    requires 1 <= max && count <= max
    requires (n <= j * max + count && j <= steps)
          || (n + 1 <= j * max + count && j <= if whole then steps else steps + 1)
    ensures n <= CeilingFor(steps, whole, max)
  {
    var most := if (n <= j * max + count && j <= steps) || whole then steps else steps + 1;
    Scaled(j, most, max);
    assert (steps + 1) * max == steps * max + max && (steps + 2) * max == (steps + 1) * max + max;
  }

  lemma TouchedWithinCeiling(b: Bucket, n: nat, windowMs: nat, max: int, lo: int, span: nat, j: nat)
    requires 1 <= max && b.count <= max && b.resetTime - windowMs <= lo + span
    requires Touched(b, n, windowMs, max, lo, j)
    ensures n <= Ceiling(span, windowMs, max)
  {
    var unit := windowMs + 1;
    StepsWithin(j, unit, span);
    if j > 0 {
      StepsWithin(j - 1, unit, span);
      assert j * unit == (j - 1) * unit + unit;
    }
    CountWithinCeiling(n, j, b.count, span / unit, span % unit == 0, max);
  }

  lemma {:induction false} WindowsTouched(hits: seq<Hit>, windowMs: nat, max: int, lo: int, span: nat)
    returns (j: nat)
    requires InOrder(hits) && LimitedBy(hits, max)
    requires 0 < AdmittedBetween(hits, windowMs, lo, lo + span)
    ensures AdmittedBetween(hits, windowMs, lo, lo + span) <= Ceiling(span, windowMs, max)
    ensures BucketAfter(hits, windowMs).Some?
    ensures hits[|hits| - 1].at <= lo + span ==>
              && BucketAfter(hits, windowMs).value.resetTime - windowMs <= hits[|hits| - 1].at
              && Touched(BucketAfter(hits, windowMs).value, AdmittedBetween(hits, windowMs, lo, lo + span),
                         windowMs, max, lo, j)
  {
    var n := |hits| - 1;
    var hi := lo + span;
    var init, h := hits[..n], hits[n];
    CountWithinLimit(hits, windowMs, max);
    CountWithinLimit(init, windowMs, max);
    OpenedBefore(hits, windowMs);
    j := 0;
    if AdmittedBetween(init, windowMs, lo, hi) != 0 {
      j := WindowsTouched(init, windowMs, max, lo, span);
      if h.at <= hi && Opens(hits, windowMs, n) {
        // the window before reset at or after lo + j * (windowMs + 1), and this one opens later still
        assert (j + 1) * max == j * max + max;
        assert (j + 1) * (windowMs + 1) == j * (windowMs + 1) + (windowMs + 1);
        j := j + 1;
      }
    }
    if h.at <= hi {
      TouchedWithinCeiling(BucketAfter(hits, windowMs).value, AdmittedBetween(hits, windowMs, lo, hi), windowMs, max, lo, span, j);
    }
  }

  lemma {:induction false} OpenedBefore(hits: seq<Hit>, windowMs: int)
    requires InOrder(hits) && hits != []
    ensures BucketAfter(hits, windowMs).value.resetTime - windowMs <= hits[|hits| - 1].at
  {
    if |hits| > 1 { OpenedBefore(hits[..|hits| - 1], windowMs); }
  }

  /** Whatever the requests, a closed interval lets no more than the ceiling of a key through. */
  lemma IntervalIsBounded(hits: seq<Hit>, windowMs: nat, max: int, lo: int, span: nat)
    requires InOrder(hits) && LimitedBy(hits, max)
    ensures AdmittedBetween(hits, windowMs, lo, lo + span) <= Ceiling(span, windowMs, max)
  {
    if AdmittedBetween(hits, windowMs, lo, lo + span) > 0 {
      var j := WindowsTouched(hits, windowMs, max, lo, span);
    } else {
      Scaled(0, span / (windowMs + 1) + 1, max);
      assert (span / (windowMs + 1) + 2) * max == (span / (windowMs + 1) + 1) * max + max;
    }
  }

  lemma QuotientBelow(span: nat, k: nat, unit: nat)
    requires 0 < unit && span < k * unit
    ensures span / unit < k
  {
    assert span == span / unit * unit + span % unit;
    if k <= span / unit { Scaled(k, span / unit, unit); }
  }

  lemma QuotientIs(span: nat, q: nat, r: nat, unit: nat)
    requires span == q * unit + r && r < unit
    ensures span / unit == q && span % unit == r
  {
    assert (q + 1) * unit == q * unit + unit;
    QuotientBelow(span, q + 1, unit);
    assert span == span / unit * unit + span % unit;
    if span / unit < q {
      assert (span / unit + 1) * unit == span / unit * unit + unit;
      Scaled(span / unit + 1, q, unit);
    }
  }

  /** In terms of whole windows: less than one more than fits. */
  lemma CeilingOfWindows(k: nat, windowMs: nat, max: int)
    requires 1 <= max
    ensures 0 <= k * windowMs && Ceiling(k * windowMs, windowMs, max) <= (k + 1) * max
  {
    Scaled(0, k, windowMs);
    if k == 0 {
      QuotientIs(0, 0, 0, windowMs + 1);
    } else {
      assert k * (windowMs + 1) == k * windowMs + k;
      QuotientBelow(k * windowMs, k, windowMs + 1);
      Scaled(k * windowMs / (windowMs + 1) + 2, k + 1, max);
      assert (k * windowMs / (windowMs + 1) + 2) * max == (k * windowMs / (windowMs + 1) + 1) * max + max;
    }
  }

  lemma CeilingOfFewWindows(k: nat, windowMs: nat, max: int)
    requires 1 <= k <= windowMs
    ensures 0 <= k * windowMs && Ceiling(k * windowMs, windowMs, max) == (k + 1) * max - 1
  {
    Scaled(0, k, windowMs);
    assert (k - 1) * (windowMs + 1) == k * windowMs + k - (windowMs + 1);
    QuotientIs(k * windowMs, k - 1, windowMs + 1 - k, windowMs + 1);
  }

  /** In `k` windows' time less than one window more than fits: at most `(k + 1) * max`. */
  lemma AtMostOneExtraWindow(hits: seq<Hit>, windowMs: nat, max: int, lo: int, k: nat)
    requires InOrder(hits) && LimitedBy(hits, max)
    ensures AdmittedBetween(hits, windowMs, lo, lo + k * windowMs) <= (k + 1) * max
    ensures 1 <= k <= windowMs ==> AdmittedBetween(hits, windowMs, lo, lo + k * windowMs) <= (k + 1) * max - 1
  {
    Scaled(0, k, windowMs);
    IntervalIsBounded(hits, windowMs, max, lo, k * windowMs);
    CeilingOfWindows(k, windowMs, max);
    if 1 <= k <= windowMs { CeilingOfFewWindows(k, windowMs, max); }
  }

  // ---------- The ceiling is exact ----------

  /**
    When the `k`-th window of a greedy history passes. Its windows follow each other as closely as
    they can; with `early` the first one opens so that it passes right at the start `lo`.
   */
  function PassesAt(k: nat, lo: int, windowMs: nat, early: bool): int {
    if k > 0 then PassesAt(k - 1, lo, windowMs, early) + windowMs + 1
    else if early then lo
    else lo + windowMs
  }

  /** The first request of a window opens it; the others come at once, but not before `lo`. */
  function GreedyAt(k: nat, j: nat, lo: int, windowMs: nat, early: bool): int {
    var opens := PassesAt(k, lo, windowMs, early) - windowMs;
    if j == 0 || lo <= opens then opens else lo
  }

  /** `k` full windows and `m` requests of the next. */
  function Greedy(k: nat, m: nat, lo: int, windowMs: nat, max: nat, early: bool): seq<Hit>
    decreases k, m
  {
    if m > 0 then Greedy(k, m - 1, lo, windowMs, max, early) + [Hit(GreedyAt(k, m - 1, lo, windowMs, early), max)]
    else if k > 0 then Greedy(k - 1, max, lo, windowMs, max, early)
    else []
  }

  /** A history that gets the most out of an interval of so many steps of `windowMs + 1`, and less than one more. */
  function Greediest(lo: int, windowMs: nat, max: nat, steps: nat, whole: bool): seq<Hit> {
    if whole then Greedy(steps, max, lo, windowMs, max, false) else Greedy(steps + 1, max, lo, windowMs, max, true)
  }

  lemma {:induction false} PassesWithin(k: nat, lo: int, windowMs: nat, early: bool)
    ensures PassesAt(k, lo, windowMs, early) == lo + k * (windowMs + 1) + if early then 0 else windowMs
    ensures lo <= PassesAt(k, lo, windowMs, early)
    ensures k > 0 || !early ==> lo <= PassesAt(k, lo, windowMs, early) - windowMs
  {
    if k > 0 {
      PassesWithin(k - 1, lo, windowMs, early);
      assert k * (windowMs + 1) == (k - 1) * (windowMs + 1) + (windowMs + 1);
    }
  }

  lemma OneMoreHit(hits: seq<Hit>, h: Hit, windowMs: nat, lo: int, hi: int)
    ensures BucketAfter(hits + [h], windowMs) == Some(Advance(BucketAfter(hits, windowMs), h, windowMs))
    ensures AdmittedBetween(hits + [h], windowMs, lo, hi)
         == AdmittedBetween(hits, windowMs, lo, hi)
            + if lo <= h.at <= hi && Admits(BucketAfter(hits, windowMs), h) then 1 else 0
  {
    assert (hits + [h])[..|hits|] == hits;
  }

  /** How many of the first `m` requests of window `k` and of all before it come in the interval. */
  function GreedyCount(k: nat, m: nat, max: nat, early: bool): int {
    if k > 0 then GreedyCount(k - 1, max, max, early) + m
    else if early then m - 1
    else m
  }

  lemma {:induction false} GreedyCountIs(k: nat, m: nat, max: nat, early: bool)
    ensures GreedyCount(k, m, max, early) == k * max + m - if early then 1 else 0
  {
    if k > 0 {
      GreedyCountIs(k - 1, max, max, early);
      assert k * max == (k - 1) * max + max;
    }
  }

  /** The counter after a history: its bucket, and how many requests of the interval it has let through. */
  ghost predicate Counted(hits: seq<Hit>, windowMs: nat, lo: int, hi: int, b: Bucket, n: int) {
    BucketAfter(hits, windowMs) == Some(b) && AdmittedBetween(hits, windowMs, lo, hi) == n
  }

  lemma FirstOfWindow(hits: seq<Hit>, h: Hit, windowMs: nat, lo: int, hi: int)
    requires !Live(BucketAfter(hits, windowMs), h.at) && h.at <= hi
    ensures Counted(hits + [h], windowMs, lo, hi, Bucket(1, h.at + windowMs),
                    AdmittedBetween(hits, windowMs, lo, hi) + if lo <= h.at then 1 else 0)
  {
    OneMoreHit(hits, h, windowMs, lo, hi);
  }

  lemma OthersOfWindow(hits: seq<Hit>, h: Hit, windowMs: nat, lo: int, hi: int, b: Bucket, n: int)
    requires Counted(hits, windowMs, lo, hi, b, n) && h.at <= b.resetTime && b.count < h.limit && lo <= h.at <= hi
    ensures Counted(hits + [h], windowMs, lo, hi, Bucket(b.count + 1, b.resetTime), n + 1)
  {
    OneMoreHit(hits, h, windowMs, lo, hi);
  }

  /** Every request of a greedy history is let through, and only an early opening falls outside the interval. */
  lemma {:induction false} GreedyCounted(k: nat, m: nat, lo: int, hi: int, windowMs: nat, max: nat, early: bool)
    requires 1 <= m <= max && (early ==> 1 <= windowMs)
    requires lo <= hi && PassesAt(k, lo, windowMs, early) - windowMs <= hi
    ensures Counted(Greedy(k, m, lo, windowMs, max, early), windowMs, lo, hi, Bucket(m, PassesAt(k, lo, windowMs, early)),
                    GreedyCount(k, m, max, early))
    decreases k, m
  {
    var before, h := Greedy(k, m - 1, lo, windowMs, max, early), Hit(GreedyAt(k, m - 1, lo, windowMs, early), max);
    PassesWithin(k, lo, windowMs, early);
    if m > 1 {
      GreedyCounted(k, m - 1, lo, hi, windowMs, max, early);
      OthersOfWindow(before, h, windowMs, lo, hi, Bucket(m - 1, PassesAt(k, lo, windowMs, early)), GreedyCount(k, m - 1, max, early));
    } else if k > 0 {
      PassesWithin(k - 1, lo, windowMs, early);
      GreedyCounted(k - 1, max, lo, hi, windowMs, max, early);
      FirstOfWindow(before, h, windowMs, lo, hi);
    } else {
      FirstOfAll(before, h, windowMs, lo, hi);
    }
  }

  lemma FirstOfAll(hits: seq<Hit>, h: Hit, windowMs: nat, lo: int, hi: int)
    requires hits == [] && h.at <= hi
    ensures Counted(hits + [h], windowMs, lo, hi, Bucket(1, h.at + windowMs), if lo <= h.at then 1 else 0)
  {
    FirstOfWindow(hits, h, windowMs, lo, hi);
  }

  /** Requests in order, within the limit, the last of them at `last` or before. */
  ghost predicate Tidy(hits: seq<Hit>, max: int, last: int) {
    InOrder(hits) && LimitedBy(hits, max) && forall i :: 0 <= i < |hits| ==> hits[i].at <= last
  }

  lemma TidyAppend(hits: seq<Hit>, h: Hit, max: int, last: int)
    requires Tidy(hits, max, last) && last <= h.at && h.limit <= max
    ensures Tidy(hits + [h], max, h.at)
  {
  }

  lemma {:induction false} GreedyIsTidy(k: nat, m: nat, lo: int, windowMs: nat, max: nat, early: bool)
    requires 1 <= m <= max
    ensures Tidy(Greedy(k, m, lo, windowMs, max, early), max, GreedyAt(k, m - 1, lo, windowMs, early))
    decreases k, m
  {
    var before, h := Greedy(k, m - 1, lo, windowMs, max, early), Hit(GreedyAt(k, m - 1, lo, windowMs, early), max);
    if m > 1 {
      GreedyIsTidy(k, m - 1, lo, windowMs, max, early);
      TidyAppend(before, h, max, GreedyAt(k, m - 2, lo, windowMs, early));
    } else if k > 0 {
      PassesWithin(k - 1, lo, windowMs, early);
      GreedyIsTidy(k - 1, max, lo, windowMs, max, early);
      TidyAppend(before, h, max, GreedyAt(k - 1, max - 1, lo, windowMs, early));
    } else {
      assert before == [];
    }
  }

  lemma CeilingIsGreedy(steps: nat, whole: bool, max: nat)
    ensures CeilingFor(steps, whole, max)
         == if whole then GreedyCount(steps, max, max, false) else GreedyCount(steps + 1, max, max, true)
  {
    GreedyCountIs(steps, max, max, false);
    GreedyCountIs(steps + 1, max, max, true);
    assert (steps + 1) * max == steps * max + max && (steps + 2) * max == (steps + 1) * max + max;
  }

  /** The last window of the greediest history opens inside the interval. */
  lemma GreedyFits(lo: int, span: nat, windowMs: nat, steps: nat, rest: nat)
    requires span == steps * (windowMs + 1) + rest
    ensures PassesAt(steps, lo, windowMs, false) - windowMs <= lo + span
    ensures 0 < rest ==> PassesAt(steps + 1, lo, windowMs, true) - windowMs <= lo + span
  {
    PassesWithin(steps, lo, windowMs, false);
    PassesWithin(steps, lo, windowMs, true);
  }

  lemma GreedyHistory(k: nat, lo: int, hi: int, windowMs: nat, max: nat, early: bool)
    requires 1 <= max && (early ==> 1 <= windowMs)
    requires lo <= hi && PassesAt(k, lo, windowMs, early) - windowMs <= hi
    ensures var hits := Greedy(k, max, lo, windowMs, max, early);
            && InOrder(hits) && LimitedBy(hits, max)
            && AdmittedBetween(hits, windowMs, lo, hi) == GreedyCount(k, max, max, early)
  {
    GreedyCounted(k, max, lo, hi, windowMs, max, early);
    GreedyIsTidy(k, max, lo, windowMs, max, early);
  }

  /** The history keeps to the limit and gets exactly `n` requests through in the interval. */
  ghost predicate Reaches(hits: seq<Hit>, windowMs: nat, max: int, lo: int, hi: int, n: int) {
    InOrder(hits) && LimitedBy(hits, max) && AdmittedBetween(hits, windowMs, lo, hi) == n
  }

  lemma GreedyReaches(lo: int, hi: int, windowMs: nat, max: nat, steps: nat, rest: nat)
    requires 1 <= max && rest <= windowMs && hi == lo + steps * (windowMs + 1) + rest
    ensures Reaches(Greediest(lo, windowMs, max, steps, rest == 0), windowMs, max, lo, hi, CeilingFor(steps, rest == 0, max))
  {
    Scaled(0, steps, windowMs + 1);
    CeilingIsGreedy(steps, rest == 0, max);
    GreedyFits(lo, hi - lo, windowMs, steps, rest);
    if rest == 0 {
      GreedyHistory(steps, lo, hi, windowMs, max, false);
    } else {
      GreedyHistory(steps + 1, lo, hi, windowMs, max, true);
    }
  }

  lemma CeilingIs(span: nat, windowMs: nat, max: nat, n: int) returns (steps: nat, rest: nat)
    requires n == Ceiling(span, windowMs, max)
    ensures rest <= windowMs && span == steps * (windowMs + 1) + rest
    ensures n == CeilingFor(steps, rest == 0, max)
  {
    steps, rest := span / (windowMs + 1), span % (windowMs + 1);
  }

  /** The ceiling is reached, for every limit, window and interval. */
  lemma CeilingIsReached(lo: int, span: nat, windowMs: nat, max: nat, n: int) returns (hits: seq<Hit>)
    requires 1 <= max && n == Ceiling(span, windowMs, max)
    ensures Reaches(hits, windowMs, max, lo, lo + span, n)
  {
    var steps, rest := CeilingIs(span, windowMs, max, n);
    hits := Greediest(lo, windowMs, max, steps, rest == 0);
    GreedyReaches(lo, lo + span, windowMs, max, steps, rest);
  }

  /** The counter promises `most` for every interval of `span` milliseconds of every history. */
  ghost predicate Promises(span: nat, windowMs: nat, max: int, most: int) {
    forall hits: seq<Hit>, lo: int, hi: int :: InOrder(hits) && LimitedBy(hits, max) && hi == lo + span ==>
      AdmittedBetween(hits, windowMs, lo, hi) <= most
  }

  /** The ceiling is the strongest promise of its kind that the counter keeps. */
  lemma PromisedExactlyFromTheCeilingOn(span: nat, windowMs: nat, max: nat, most: int)
    requires 1 <= max
    ensures Promises(span, windowMs, max, most) <==> Ceiling(span, windowMs, max) <= most
  {
    if Promises(span, windowMs, max, most) {
      var hits := CeilingIsReached(0, span, windowMs, max, Ceiling(span, windowMs, max));
      assert AdmittedBetween(hits, windowMs, 0, span) <= most;
    }
    if Ceiling(span, windowMs, max) <= most {
      forall hits: seq<Hit>, lo: int, hi: int | InOrder(hits) && LimitedBy(hits, max) && hi == lo + span
        ensures AdmittedBetween(hits, windowMs, lo, hi) <= most
      {
        IntervalIsBounded(hits, windowMs, max, lo, span);
      }
    }
  }

  /**
    A sliding window lets at most `max` through in any interval of its length or less. The counter
    does so exactly for limit 1, or for intervals of a single instant.
   */
  lemma SlidingExactlyForLimitOne(span: nat, windowMs: nat, max: nat)
    requires 1 <= max && span <= windowMs
    ensures Promises(span, windowMs, max, max) <==> max == 1 || span == 0
  {
    PromisedExactlyFromTheCeilingOn(span, windowMs, max, max);
    QuotientIs(span, 0, span, windowMs + 1);
  }

  /** Position `s` opened the window that is current once `hits` have been served. */
  ghost predicate OpenedAt(hits: seq<Hit>, windowMs: int, s: nat) {
    && s < |hits|
    && Opens(hits, windowMs, s)
    && forall i :: s < i < |hits| ==> !Opens(hits, windowMs, i)
  }

  /** What a bucket means: which request opened it, and how many it has let through since. */
  lemma {:induction false} BucketMeaning(hits: seq<Hit>, windowMs: int) returns (s: nat)
    requires hits != []
    ensures OpenedAt(hits, windowMs, s)
    ensures BucketAfter(hits, windowMs) == Some(Bucket(AdmittedFrom(hits, windowMs, s), hits[s].at + windowMs))
  {
    var n := |hits| - 1;
    var init := hits[..n];
    if Opens(hits, windowMs, n) {
      s := n;
    } else {
      s := BucketMeaning(init, windowMs);
      assert forall i :: 0 <= i < n ==> init[..i] == hits[..i];
      assert forall i :: 0 <= i < n ==> Opens(init, windowMs, i) == Opens(hits, windowMs, i);
    }
  }

  lemma OneOpening(hits: seq<Hit>, windowMs: int, s: nat, s': nat)
    requires OpenedAt(hits, windowMs, s) && OpenedAt(hits, windowMs, s')
    ensures s == s'
  {
  }

  /**
    A request is refused exactly when the last window opened has not yet passed and has already let
    through as many requests as this request's limit.
   */
  lemma RefusedExactlyWhenWindowFull(hits: seq<Hit>, h: Hit, windowMs: int)
    ensures !Admits(BucketAfter(hits, windowMs), h) <==>
            exists s: nat :: && OpenedAt(hits, windowMs, s)
                             && h.at <= hits[s].at + windowMs
                             && h.limit <= AdmittedFrom(hits, windowMs, s)
  {
    if hits != [] {
      var s := BucketMeaning(hits, windowMs);
      forall s': nat | OpenedAt(hits, windowMs, s') ensures s' == s {
        OneOpening(hits, windowMs, s, s');
      }
    }
  }

  /** With one limit for every request, a refusal means that exactly that many were let through. */
  lemma RefusedAfterExactlyMax(hits: seq<Hit>, h: Hit, windowMs: int, s: nat)
    requires LimitedBy(hits, h.limit)
    requires OpenedAt(hits, windowMs, s)
    requires !Admits(BucketAfter(hits, windowMs), h)
    ensures AdmittedFrom(hits, windowMs, s) == h.limit
  {
    CountWithinLimit(hits, windowMs, h.limit);
    var s' := BucketMeaning(hits, windowMs);
    OneOpening(hits, windowMs, s, s');
  }

  // ---------- The shared map ----------

  datatype Event = Request(key: string, hit: Hit) | Cleanup(at: int)

  function TimeOf(e: Event): int {
    match e
    case Request(_, hit) => hit.at
    case Cleanup(at) => at
  }

  function Serve(buckets: map<string, Bucket>, key: string, h: Hit, windowMs: int): map<string, Bucket> {
    buckets[key := Advance(Get(buckets, key), h, windowMs)]
  }

  function DropStale(buckets: map<string, Bucket>, now: int): map<string, Bucket> {
    map key | key in buckets && !(now > buckets[key].resetTime) :: buckets[key]
  }

  function Handle(buckets: map<string, Bucket>, e: Event, windowMs: int): map<string, Bucket> {
    match e
    case Request(key, hit) => Serve(buckets, key, hit, windowMs)
    case Cleanup(at) => DropStale(buckets, at)
  }

  /** The map after a run that began with no bucket. */
  function BucketsAfter(events: seq<Event>, windowMs: int): map<string, Bucket> {
    if events == [] then map[]
    else Handle(BucketsAfter(events[..|events| - 1], windowMs), events[|events| - 1], windowMs)
  }

  /** The requests of one key, in order. */
  function HitsOf(events: seq<Event>, key: string): seq<Hit> {
    if events == [] then []
    else
      var e := events[|events| - 1];
      HitsOf(events[..|events| - 1], key) + if e.Request? && e.key == key then [e.hit] else []
  }

  ghost predicate ClockRuns(events: seq<Event>) {
    forall i, j :: 0 <= i < j < |events| ==> TimeOf(events[i]) <= TimeOf(events[j])
  }

  /** The map holds the key's own bucket, or dropped it once it could no longer matter. */
  lemma {:induction false} MapTracksHistory(events: seq<Event>, windowMs: int, key: string)
    requires ClockRuns(events)
    ensures var own := BucketAfter(HitsOf(events, key), windowMs);
            || Get(BucketsAfter(events, windowMs), key) == own
            || (key !in BucketsAfter(events, windowMs) && events != [] && !Live(own, TimeOf(events[|events| - 1])))
  {
    if events == [] {
    } else {
      var n := |events| - 1;
      MapTracksHistory(events[..n], windowMs, key);
      var before := HitsOf(events[..n], key);
      match events[n]
      case Cleanup(at) =>
        assert HitsOf(events, key) == before;
      case Request(k, hit) =>
        if k == key {
          assert HitsOf(events, key)[..|before|] == before;
        } else {
          assert HitsOf(events, key) == before;
        }
    }
  }

  /**
    Simulation: after any run of requests and cleanups, the shared map decides the next request of
    a key exactly as the history of that key alone does.
   */
  lemma SharedMapIsPerKeyHistory(events: seq<Event>, key: string, h: Hit, windowMs: int)
    requires ClockRuns(events + [Request(key, h)])
    ensures Admits(Get(BucketsAfter(events, windowMs), key), h)
       <==> Admits(BucketAfter(HitsOf(events, key), windowMs), h)
  {
    var all := events + [Request(key, h)];
    assert forall i :: 0 <= i < |events| ==> all[i] == events[i];
    MapTracksHistory(events, windowMs, key);
    if events != [] {
      assert TimeOf(all[|events| - 1]) <= TimeOf(all[|events|]);
    }
  }

  /** The same run with the cleanups left out. */
  function WithoutCleanups(events: seq<Event>): seq<Event> {
    if events == [] then []
    else
      var e := events[|events| - 1];
      WithoutCleanups(events[..|events| - 1]) + if e.Request? then [e] else []
  }

  lemma {:induction false} CleanupsAreNoRequests(events: seq<Event>, key: string)
    ensures HitsOf(WithoutCleanups(events), key) == HitsOf(events, key)
  {
    if events == [] {
    } else {
      var n := |events| - 1;
      CleanupsAreNoRequests(events[..n], key);
      var kept := WithoutCleanups(events[..n]);
      if events[n].Request? {
        assert WithoutCleanups(events) == kept + [events[n]];
        assert (kept + [events[n]])[..|kept|] == kept;
      } else {
        assert WithoutCleanups(events) == kept;
      }
    }
  }

  lemma {:induction false} ClockStillRuns(events: seq<Event>, now: int)
    requires ClockRuns(events)
    requires forall i :: 0 <= i < |events| ==> TimeOf(events[i]) <= now
    ensures ClockRuns(WithoutCleanups(events))
    ensures forall i :: 0 <= i < |WithoutCleanups(events)| ==> TimeOf(WithoutCleanups(events)[i]) <= now
  {
    if events == [] {
    } else {
      ClockStillRuns(events[..|events| - 1], TimeOf(events[|events| - 1]));
    }
  }

  /** Deleting stale buckets at any moments changes no decision. */
  lemma CleanupIsInvisible(events: seq<Event>, key: string, h: Hit, windowMs: int)
    requires ClockRuns(events + [Request(key, h)])
    ensures Admits(Get(BucketsAfter(events, windowMs), key), h)
       <==> Admits(Get(BucketsAfter(WithoutCleanups(events), windowMs), key), h)
  {
    var all := events + [Request(key, h)];
    assert forall i :: 0 <= i < |events| ==> all[i] == events[i] && TimeOf(all[i]) <= TimeOf(all[|events|]);
    CleanupsAreNoRequests(events, key);
    ClockStillRuns(events, h.at);
    SharedMapIsPerKeyHistory(events, key, h, windowMs);
    SharedMapIsPerKeyHistory(WithoutCleanups(events), key, h, windowMs);
  }

  /** How many of a key's requests with `lo <= at <= hi` the shared map let through over a run. */
  function ServedBetween(events: seq<Event>, windowMs: int, key: string, lo: int, hi: int): nat {
    if events == [] then 0
    else
      var n := |events| - 1;
      var e := events[n];
      ServedBetween(events[..n], windowMs, key, lo, hi)
      + if && e.Request? && e.key == key && lo <= e.hit.at <= hi
           && Admits(Get(BucketsAfter(events[..n], windowMs), key), e.hit)
        then 1 else 0
  }

  lemma {:induction false} ServedAsAdmitted(events: seq<Event>, windowMs: int, key: string, lo: int, hi: int)
    requires ClockRuns(events)
    ensures ServedBetween(events, windowMs, key, lo, hi) == AdmittedBetween(HitsOf(events, key), windowMs, lo, hi)
  {
    if events == [] {
    } else {
      var n := |events| - 1;
      ServedAsAdmitted(events[..n], windowMs, key, lo, hi);
      var e, before := events[n], HitsOf(events[..n], key);
      if e.Request? && e.key == key {
        assert events[..n] + [Request(key, e.hit)] == events;
        SharedMapIsPerKeyHistory(events[..n], key, e.hit, windowMs);
        assert HitsOf(events, key)[..|before|] == before;
      } else {
        assert HitsOf(events, key) == before;
      }
    }
  }

  lemma {:induction false} HitsAreEvents(events: seq<Event>, key: string, max: int, now: int)
    requires ClockRuns(events) && 1 <= max
    requires forall i :: 0 <= i < |events| ==> TimeOf(events[i]) <= now
    requires forall i :: 0 <= i < |events| && events[i].Request? && events[i].key == key ==> events[i].hit.limit <= max
    ensures InOrder(HitsOf(events, key)) && LimitedBy(HitsOf(events, key), max)
    ensures forall i :: 0 <= i < |HitsOf(events, key)| ==> HitsOf(events, key)[i].at <= now
  {
    if events != [] {
      var n := |events| - 1;
      HitsAreEvents(events[..n], key, max, TimeOf(events[n]));
    }
  }

  /**
    The guarantee of the whole limiter: over any run of requests of any keys, with cleanups
    anywhere, no key gets more through in any interval than the ceiling for its own largest limit.
   */
  lemma LimiterBoundsEveryKey(events: seq<Event>, windowMs: nat, max: int, key: string, lo: int, span: nat)
    requires ClockRuns(events) && 1 <= max
    requires forall i :: 0 <= i < |events| && events[i].Request? && events[i].key == key ==> events[i].hit.limit <= max
    ensures ServedBetween(events, windowMs, key, lo, lo + span) <= Ceiling(span, windowMs, max)
  {
    ServedAsAdmitted(events, windowMs, key, lo, lo + span);
    if events != [] {
      HitsAreEvents(events, key, max, TimeOf(events[|events| - 1]));
    }
    IntervalIsBounded(HitsOf(events, key), windowMs, max, lo, span);
  }
}
