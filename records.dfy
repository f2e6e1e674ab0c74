/**
 * What the two index caches (js/core/Indexer.mjs and js/provider.mjs) have
 * in common: the 15-second freshness window, the cache state, the time
 * values of the `Date` objects their records carry, the sort by recency with
 * the comparator `(a, b) => b.date - a.date`, and `find` over the stored
 * records with loose (`==`) or strict (`===`) equality.
 */
module Records {
  import opened JsValues

  /** Milliseconds a stored index is served without fetching again. */
  const MaximumAge := 15000

  /** A call at `now` is served from the store: the last sync is younger than MaximumAge and no refresh is forced. */
  predicate Fresh(now: int, last: int, force: bool) {
    now - last < MaximumAge && !force
  }

  /** The store (`null` as None) and the time of the last sync. */
  datatype CacheState<T> = CacheState(store: Option<T>, last: int)

  /** The state after a `get` call, and what the call returned or threw. */
  datatype Synced<T> = Synced(state: CacheState<T>, result: Result<Option<T>>)

  /** Store `null`, last sync at time 0. */
  function Initial<T>(): CacheState<T> {
    CacheState(None, 0)
  }

  // ---------------------------------------------------------------------
  // Dates

  /** The time value of a Date: milliseconds since the epoch, or an invalid date (NaN). */
  datatype Time = Time(ms: int) | InvalidDate

  /** The largest distance from the epoch a Date can hold. */
  const MaxTime := 8640000000000000

  /** TimeClip: times beyond MaxTime either way make an invalid date. */
  function TimeClip(n: int): (r: Time)
    ensures r.Time? <==> -MaxTime <= n <= MaxTime
    ensures r.Time? ==> r.ms == n
  {
    if -MaxTime <= n <= MaxTime then Time(n) else InvalidDate
  }

  /**
   * `new Date(v)` for a JSON value. Strings go to `parse`, which stands for
   * `Date.parse`; arrays and objects are first turned into strings.
   */
  function DateOf(v: Json, parse: string -> Time): (r: Result<Time>)
    ensures v.JNum? ==> r == Ok(TimeClip(v.n))
    ensures v.JStr? ==> r == Ok(parse(v.s))
    ensures r.Err? <==> JsonToString(v).Err?
  {
    match v
    case JNull => Ok(Time(0))
    case JBool(b) => Ok(Time(if b then 1 else 0))
    case JNum(n) => Ok(TimeClip(n))
    case JStr(s) => Ok(parse(s))
    case _ =>
      match JsonToString(v)
      case Err(e) => Err(e)
      case Ok(s) => Ok(parse(s))
  }

  /** `new Date(v ?? 0)`: a missing or null date is the epoch. */
  function DateOrEpoch(v: Option<Json>, parse: string -> Time): (r: Result<Time>)
    ensures Nullish(v) ==> r == Ok(Time(0))
  {
    DateOf(if Nullish(v) then JNum(0) else v.value, parse)
  }

  /**
   * What the sort makes of `(a, b) => b.date - a.date`: the difference of
   * the time values, and +0 when either is NaN.
   */
  function Compare(a: Time, b: Time): int {
    if a.Time? && b.Time? then b.ms - a.ms else 0
  }

  // ---------------------------------------------------------------------
  // The sort by recency

  /**
   * Puts `x` into `s` behind every element the comparator does not order
   * after it, so that of two equal dates the one met first stays in front.
   */
  function Insert<R>(x: R, s: seq<R>, date: R -> Time): seq<R> {
    if s == [] then [x]
    else if Compare(date(s[0]), date(x)) <= 0 then [s[0]] + Insert(x, s[1..], date)
    else [x] + s
  }

  /** `items.sort((a, b) => b.date - a.date)` as a stable insertion sort. */
  function SortByRecency<R>(s: seq<R>, date: R -> Time): seq<R> {
    if s == [] then []
    else Insert(s[|s| - 1], SortByRecency(s[..|s| - 1], date), date)
  }

  /** Inserting keeps every record and adds exactly the inserted one. */
  lemma {:induction false} InsertPermutes<R>(x: R, s: seq<R>, date: R -> Time)
    ensures multiset(Insert(x, s, date)) == multiset(s) + multiset{x}
  {
    if s != [] && Compare(date(s[0]), date(x)) <= 0 {
      InsertPermutes(x, s[1..], date);
      assert s == [s[0]] + s[1..];
    }
  }

  /** The sort is a permutation of its input. */
  lemma {:induction false} SortPermutes<R>(s: seq<R>, date: R -> Time)
    ensures multiset(SortByRecency(s, date)) == multiset(s)
  {
    if s != [] {
      SortPermutes(s[..|s| - 1], date);
      InsertPermutes(s[|s| - 1], SortByRecency(s[..|s| - 1], date), date);
      assert s == s[..|s| - 1] + [s[|s| - 1]];
    }
  }

  /** Every record has a valid date. */
  predicate Timed<R>(s: seq<R>, date: R -> Time) {
    forall i :: 0 <= i < |s| ==> date(s[i]).Time?
  }

  predicate NotOlder(a: Time, b: Time) {
    a.Time? && b.Time? && a.ms >= b.ms
  }

  /** Each record is at least as recent as the next. */
  predicate Descending<R>(s: seq<R>, date: R -> Time) {
    forall i :: 0 <= i < |s| - 1 ==> NotOlder(date(s[i]), date(s[i + 1]))
  }

  lemma TailSorted<R>(s: seq<R>, date: R -> Time)
    requires s != [] && Timed(s, date) && Descending(s, date)
    ensures Timed(s[1..], date) && Descending(s[1..], date)
  {
    assert forall i :: 0 <= i < |s| - 1 ==> s[1..][i] == s[i + 1];
  }

  lemma ConsSorted<R>(a: R, s: seq<R>, date: R -> Time)
    requires s != [] && Timed(s, date) && Descending(s, date) && NotOlder(date(a), date(s[0]))
    ensures Timed([a] + s, date) && Descending([a] + s, date)
  {
    var r := [a] + s;
    assert forall i :: 1 <= i < |r| ==> r[i] == s[i - 1];
  }

  lemma {:induction false} InsertSorted<R>(x: R, s: seq<R>, date: R -> Time)
    requires Timed(s, date) && Descending(s, date) && date(x).Time?
    ensures Timed(Insert(x, s, date), date) && Descending(Insert(x, s, date), date)
    ensures Insert(x, s, date)[0] == x || Insert(x, s, date)[0] == s[0]
  {
    if s == [] {
      assert Insert(x, s, date) == [x];
    } else if Compare(date(s[0]), date(x)) <= 0 {
      var rest := Insert(x, s[1..], date);
      TailSorted(s, date);
      InsertSorted(x, s[1..], date);
      assert NotOlder(date(s[0]), date(rest[0])) by {
        if rest[0] != x {
          assert NotOlder(date(s[0]), date(s[1]));
        }
      }
      ConsSorted(s[0], rest, date);
    } else {
      ConsSorted(x, s, date);
    }
  }

  /** With valid dates, the sort leaves the most recent record first and each no older than the one before. */
  lemma {:induction false} SortSorted<R>(s: seq<R>, date: R -> Time)
    requires Timed(s, date)
    ensures Timed(SortByRecency(s, date), date) && Descending(SortByRecency(s, date), date)
  {
    if s != [] {
      SortSorted(s[..|s| - 1], date);
      InsertSorted(s[|s| - 1], SortByRecency(s[..|s| - 1], date), date);
    }
  }

  /** The records dated `t`, in their order. */
  function WithDate<R>(s: seq<R>, date: R -> Time, t: Time): seq<R> {
    if s == [] then []
    else (if date(s[0]) == t then [s[0]] else []) + WithDate(s[1..], date, t)
  }

  lemma {:induction false} WithDateConcat<R>(a: seq<R>, b: seq<R>, date: R -> Time, t: Time)
    ensures WithDate(a + b, date, t) == WithDate(a, date, t) + WithDate(b, date, t)
  {
    if a != [] {
      assert (a + b)[1..] == a[1..] + b;
      WithDateConcat(a[1..], b, date, t);
      ConcatAssoc(if date(a[0]) == t then [a[0]] else [], WithDate(a[1..], date, t), WithDate(b, date, t));
    } else {
      assert a + b == b;
    }
  }

  lemma {:induction false} NoneWithDate<R>(s: seq<R>, date: R -> Time, t: Time)
    requires Timed(s, date) && Descending(s, date) && t.Time?
    requires s != [] ==> date(s[0]).ms < t.ms
    ensures WithDate(s, date, t) == []
  {
    if s != [] {
      if |s| > 1 {
        assert NotOlder(date(s[0]), date(s[1]));
      }
      NoneWithDate(s[1..], date, t);
    }
  }

  lemma WithDateCons<R>(a: R, s: seq<R>, date: R -> Time, t: Time)
    ensures WithDate([a] + s, date, t) == WithDate([a], date, t) + WithDate(s, date, t)
  {
    assert ([a] + s)[1..] == s;
    assert [a][1..] == [];
  }

  /** Inserting behind the first record: that record stays in front of the rest. */
  lemma InsertBehindWithDate<R>(x: R, s: seq<R>, date: R -> Time, t: Time)
    requires s != [] && Compare(date(s[0]), date(x)) <= 0
    requires WithDate(Insert(x, s[1..], date), date, t) == WithDate(s[1..], date, t) + WithDate([x], date, t)
    ensures WithDate(Insert(x, s, date), date, t) == WithDate(s, date, t) + WithDate([x], date, t)
  {
    var rest := Insert(x, s[1..], date);
    assert Insert(x, s, date) == [s[0]] + rest;
    assert [s[0]] + s[1..] == s;
    WithDateCons(s[0], rest, date, t);
    WithDateCons(s[0], s[1..], date, t);
    var a, b, c := WithDate([s[0]], date, t), WithDate(s[1..], date, t), WithDate([x], date, t);
    ConcatAssoc(a, b, c);
  }

  lemma ConcatAssoc<T>(a: seq<T>, b: seq<T>, c: seq<T>)
    ensures a + (b + c) == (a + b) + c
  {
  }

  /** Inserting in front: no record of the sorted rest has the date of a more recent `x`. */
  lemma InsertFrontWithDate<R>(x: R, s: seq<R>, date: R -> Time, t: Time)
    requires Timed(s, date) && Descending(s, date) && date(x).Time?
    requires s != [] && Compare(date(s[0]), date(x)) > 0
    ensures WithDate(Insert(x, s, date), date, t) == WithDate(s, date, t) + WithDate([x], date, t)
  {
    assert Insert(x, s, date) == [x] + s;
    WithDateCons(x, s, date, t);
    if date(x) == t {
      NoneWithDate(s, date, t);
    } else {
      assert [x][1..] == [];
    }
  }

  lemma {:induction false} InsertWithDate<R>(x: R, s: seq<R>, date: R -> Time, t: Time)
    requires Timed(s, date) && Descending(s, date) && date(x).Time?
    ensures WithDate(Insert(x, s, date), date, t) == WithDate(s, date, t) + WithDate([x], date, t)
  {
    if s == [] {
      assert Insert(x, s, date) == [x];
    } else if Compare(date(s[0]), date(x)) <= 0 {
      TailSorted(s, date);
      InsertWithDate(x, s[1..], date, t);
      InsertBehindWithDate(x, s, date, t);
    } else {
      InsertFrontWithDate(x, s, date, t);
    }
  }

  lemma InsertLastWithDate<R>(init: seq<R>, last: R, sorted: seq<R>, date: R -> Time, t: Time)
    requires Timed(sorted, date) && Descending(sorted, date) && date(last).Time?
    requires WithDate(sorted, date, t) == WithDate(init, date, t)
    ensures WithDate(Insert(last, sorted, date), date, t) == WithDate(init + [last], date, t)
  {
    InsertWithDate(last, sorted, date, t);
    WithDateConcat(init, [last], date, t);
  }

  /**
   * Stability: with valid dates, the records of any one date come out of
   * the sort in the order they went in.
   */
  lemma {:induction false} SortKeepsDateGroups<R>(s: seq<R>, date: R -> Time, t: Time)
    requires Timed(s, date)
    ensures WithDate(SortByRecency(s, date), date, t) == WithDate(s, date, t)
  {
    if s != [] {
      var init, last := s[..|s| - 1], s[|s| - 1];
      assert Timed(init, date);
      SortSorted(init, date);
      SortKeepsDateGroups(init, date, t);
      assert s == init + [last];
      InsertLastWithDate(init, last, SortByRecency(init, date), date, t);
    }
  }

  // ---------------------------------------------------------------------
  // Loops that push one record per item

  /** The records `f` makes of `xs`, pushed in order; the first item that throws ends the loop with its error. */
  function CollectAll<X, Y>(xs: seq<X>, f: X -> Result<Y>): (r: Result<seq<Y>>)
    ensures r.Ok? ==> |r.value| == |xs|
  {
    if xs == [] then Ok([])
    else
      match CollectAll(xs[..|xs| - 1], f)
      case Err(e) => Err(e)
      case Ok(items) =>
        match f(xs[|xs| - 1])
        case Err(e) => Err(e)
        case Ok(x) => Ok(items + [x])
  }

  /** One more item: its error ends the loop, its record is pushed otherwise. */
  lemma CollectStep<X, Y>(xs: seq<X>, f: X -> Result<Y>, i: nat)
    requires i < |xs| && CollectAll(xs[..i], f).Ok?
    ensures CollectAll(xs[..i + 1], f) ==
      match f(xs[i])
      case Err(e) => Err(e)
      case Ok(x) => Ok(CollectAll(xs[..i], f).value + [x])
  {
    assert xs[..i + 1][..i] == xs[..i];
  }

  /** Once an item has thrown, the items after it change nothing. */
  lemma {:induction false} CollectErrorPersists<X, Y>(xs: seq<X>, f: X -> Result<Y>, i: nat)
    requires i <= |xs| && CollectAll(xs[..i], f).Err?
    ensures CollectAll(xs, f) == CollectAll(xs[..i], f)
    decreases |xs| - i
  {
    if i < |xs| {
      assert xs[..i + 1][..i] == xs[..i];
      CollectErrorPersists(xs, f, i + 1);
    } else {
      assert xs[..i] == xs;
    }
  }

  /** The loop succeeds exactly when no item throws, and then holds the record of each item at its index. */
  lemma {:induction false} CollectAllSpec<X, Y>(xs: seq<X>, f: X -> Result<Y>)
    ensures CollectAll(xs, f).Ok? <==> forall i :: 0 <= i < |xs| ==> f(xs[i]).Ok?
    ensures CollectAll(xs, f).Ok? ==> forall i :: 0 <= i < |xs| ==> CollectAll(xs, f).value[i] == f(xs[i]).value
  {
    if xs != [] {
      var init := xs[..|xs| - 1];
      CollectAllSpec(init, f);
      assert forall i :: 0 <= i < |init| ==> init[i] == xs[i];
    }
  }

  // ---------------------------------------------------------------------
  // Lookups

  /** Whether the callback of `find` accepts `x`: its key compared with `target` by `===` or `==`. */
  function Matches<R>(x: R, key: R -> Result<Option<Json>>, target: Option<Json>, strict: bool): Result<bool> {
    match key(x)
    case Err(e) => Err(e)
    case Ok(k) => if strict then Ok(StrictEquals(k, target)) else LooseEquals(k, target)
  }

  /** `items.find(p => key(p) == target)` (or `===`); a throwing callback ends the search. */
  function FindFirst<R>(items: seq<R>, key: R -> Result<Option<Json>>, target: Option<Json>, strict: bool): (r: Result<Option<R>>)
    ensures r.Ok? && r.value.Some? ==>
      r.value.value in items && Matches(r.value.value, key, target, strict) == Ok(true)
  {
    if items == [] then Ok(None)
    else
      match Matches(items[0], key, target, strict)
      case Err(e) => Err(e)
      case Ok(found) => if found then Ok(Some(items[0])) else FindFirst(items[1..], key, target, strict)
  }

  /** The first accepted record is the one found. */
  lemma {:induction false} FindFirstAt<R>(items: seq<R>, key: R -> Result<Option<Json>>, target: Option<Json>, strict: bool, i: nat)
    requires i < |items| && Matches(items[i], key, target, strict) == Ok(true)
    requires forall j :: 0 <= j < i ==> Matches(items[j], key, target, strict) == Ok(false)
    ensures FindFirst(items, key, target, strict) == Ok(Some(items[i]))
  {
    if i > 0 {
      assert Matches(items[0], key, target, strict) == Ok(false);
      FindFirstAt(items[1..], key, target, strict, i - 1);
    }
  }

  /** Nothing is found exactly when the callback rejects every record. */
  lemma {:induction false} FindFirstNone<R>(items: seq<R>, key: R -> Result<Option<Json>>, target: Option<Json>, strict: bool)
    ensures FindFirst(items, key, target, strict) == Ok(None) <==>
      forall j :: 0 <= j < |items| ==> Matches(items[j], key, target, strict) == Ok(false)
  {
    if items != [] {
      FindFirstNone(items[1..], key, target, strict);
      if Matches(items[0], key, target, strict) == Ok(false) {
        assert forall j :: 1 <= j < |items| ==> items[j] == items[1..][j - 1];
      }
    }
  }
}
