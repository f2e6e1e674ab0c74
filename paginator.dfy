/**
 * The paginator: `Paginator` (js/utils/Paginator.mjs) and its earlier copy
 * `PaginatorController` (js/utils.mjs). It keeps a 1-based page index that
 * `next` and `previous` move within `1..ceil(len / itemsPerPage)`, and
 * calls `onpagechange` after each move. The class field `items` shadows the
 * `items` getter, so reading `items` yields the whole list; the getter's
 * slice is kept here as `PageSlice`.
 */
module Pagination {

  /** `Math.ceil(len / k)` for a positive page size. */
  function TotalPagesOf(len: nat, k: nat): (r: nat)
    requires k > 0
    ensures r * k >= len
    ensures r > 0 ==> (r - 1) * k < len
    ensures r == 0 <==> len == 0
  {
    if len == 0 then 0
    else
      var r := (len + k - 1) / k;
      assert r * k + (len + k - 1) % k == len + k - 1;
      r
  }

  /** Where `next` leaves the index: one further, unless already at or past the last page. */
  function NextIndex(p: int, total: nat): (r: int)
    ensures p >= total ==> r == p
    ensures p < total ==> r == p + 1 && r <= total
  {
    if p >= total then p else p + 1
  }

  /** Where `previous` leaves the index: one back, unless already at or before the first page. */
  function PreviousIndex(p: int): (r: int)
    ensures p <= 1 ==> r == p
    ensures p > 1 ==> r == p - 1 && r >= 1
  {
    if p <= 1 then p else p - 1
  }

  /** The range the index keeps: 1 up to the number of pages, and 1 for an empty list. */
  predicate InRange(p: int, total: nat) {
    1 <= p <= if total == 0 then 1 else total
  }

  /** A move that changed the index, undone by the other move, gives the index back. */
  lemma NextThenPrevious(p: int, total: nat)
    requires InRange(p, total) && NextIndex(p, total) != p
    ensures PreviousIndex(NextIndex(p, total)) == p
  {
  }

  lemma PreviousThenNext(p: int, total: nat)
    requires InRange(p, total) && PreviousIndex(p) != p
    ensures NextIndex(PreviousIndex(p), total) == p
  {
  }

  /** A sequence of moves: `true` for `next`, `false` for `previous`. */
  function Moves(p: int, total: nat, moves: seq<bool>): int
    decreases |moves|
  {
    if moves == [] then p
    else
      var q := if moves[0] then NextIndex(p, total) else PreviousIndex(p);
      Moves(q, total, moves[1..])
  }

  /** Any sequence of moves over a fixed list keeps the index in range. */
  lemma {:induction false} MovesInRange(p: int, total: nat, moves: seq<bool>)
    requires InRange(p, total)
    ensures InRange(Moves(p, total, moves), total)
    decreases |moves|
  {
    if moves != [] {
      var q := if moves[0] then NextIndex(p, total) else PreviousIndex(p);
      MovesInRange(q, total, moves[1..]);
    }
  }

  /** The getter's slice: from (p - 1) * k to min(start + k, len); empty past the end. */
  function PageSlice<T>(items: seq<T>, p: int, k: nat): (r: seq<T>)
    requires k > 0 && p >= 1
    ensures |r| <= k
  {
    var start := (p - 1) * k;
    var end := if start + k < |items| then start + k else |items|;
    if start <= end then items[start..end] else []
  }

  /** Concatenation of a list of pages. */
  function Flatten<T>(pages: seq<seq<T>>): seq<T> {
    if pages == [] then [] else pages[0] + Flatten(pages[1..])
  }

  /** The slices of pages `p` to `total`. */
  function PagesFrom<T>(items: seq<T>, k: nat, p: nat, total: nat): seq<seq<T>>
    requires k > 0
    decreases total - p
  {
    if p == 0 || p > total then [] else [PageSlice(items, p, k)] + PagesFrom(items, k, p + 1, total)
  }

  /** The pages `1..totalPages` of the getter, put together, are the whole list in order. */
  lemma PagesCoverItems<T>(items: seq<T>, k: nat)
    requires k > 0
    ensures Flatten(PagesFrom(items, k, 1, TotalPagesOf(|items|, k))) == items
  {
    PagesCoverFrom(items, k, 1);
  }

  lemma MulMono(a: nat, b: nat, k: nat)
    requires a <= b
    ensures a * k <= b * k
  {
    assert b * k == a * k + (b - a) * k;
  }

  /** Page `p` exists exactly when it starts before the end of the list. */
  lemma PageExists(p: nat, len: nat, k: nat)
    requires k > 0 && p >= 1
    ensures p <= TotalPagesOf(len, k) <==> (p - 1) * k < len
  {
    var total := TotalPagesOf(len, k);
    if p <= total {
      MulMono(p - 1, total - 1, k);
    } else {
      MulMono(total, p - 1, k);
    }
  }

  /** Each page of a non-empty list is non-empty, and every page but the last is full. */
  lemma PageSliceSize<T>(items: seq<T>, p: nat, k: nat)
    requires k > 0 && |items| > 0 && InRange(p, TotalPagesOf(|items|, k))
    ensures 1 <= |PageSlice(items, p, k)| <= k
    ensures p < TotalPagesOf(|items|, k) ==> |PageSlice(items, p, k)| == k
  {
    var start := (p - 1) * k;
    PageExists(p, |items|, k);
    PageExists(p + 1, |items|, k);
    NextStart(p, k);
    SliceLength(items, p, k);
  }

  /** Pages start at or after 0, and page `p + 1` starts `k` after page `p`. */
  lemma NextStart(p: nat, k: nat)
    requires p >= 1
    ensures 0 <= (p - 1) * k
    ensures (p + 1 - 1) * k == (p - 1) * k + k
  {
  }

  /** A page that starts inside the list holds `k` items, or the rest of the list when fewer remain. */
  lemma SliceLength<T>(items: seq<T>, p: nat, k: nat)
    requires k > 0 && p >= 1
    ensures var start := (p - 1) * k;
      start < |items| ==> |PageSlice(items, p, k)| == if start + k < |items| then k else |items| - start
  {
  }

  lemma {:induction false} PagesCoverFrom<T>(items: seq<T>, k: nat, p: nat)
    requires k > 0 && 1 <= p && (p - 1) * k <= |items|
    ensures Flatten(PagesFrom(items, k, p, TotalPagesOf(|items|, k))) == items[(p - 1) * k..]
    decreases |items| - (p - 1) * k
  {
    var total := TotalPagesOf(|items|, k);
    var start := (p - 1) * k;
    PageExists(p, |items|, k);
    NextStart(p, k);
    var pages := PagesFrom(items, k, p, total);
    if start < |items| {
      var page := PageSlice(items, p, k);
      var rest := PagesFrom(items, k, p + 1, total);
      assert pages == [page] + rest;
      FlattenCons(page, rest);
      PageSliceIs(items, p, k);
      if start + k < |items| {
        PagesCoverFrom(items, k, p + 1);
        assert Flatten(rest) == items[start + k..];
        assert page == items[start..start + k];
        SplitAt(items, start, start + k);
      } else {
        PageExists(p + 1, |items|, k);
        assert rest == [];
        assert page == items[start..];
      }
    } else {
      assert pages == [];
    }
  }

  /** The getter's slice of a page that starts inside the list. */
  lemma PageSliceIs<T>(items: seq<T>, p: nat, k: nat)
    requires k > 0 && p >= 1
    ensures var start := (p - 1) * k;
      start < |items| ==> PageSlice(items, p, k) == items[start..if start + k < |items| then start + k else |items|]
  {
  }

  lemma SplitAt<T>(s: seq<T>, i: int, j: int)
    requires 0 <= i <= j <= |s|
    ensures s[i..] == s[i..j] + s[j..]
  {
  }

  lemma FlattenCons<T>(page: seq<T>, rest: seq<seq<T>>)
    ensures Flatten([page] + rest) == page + Flatten(rest)
  {
    assert ([page] + rest)[1..] == rest;
  }

  /** What `onpagechange(pageIndex, totalPages, items)` was called with. */
  datatype PageChange<T> = PageChange(pageIndex: int, totalPages: nat, items: seq<T>)

  class Paginator<T> {
    /** The public field; it shadows the getter of the same name. */
    var items: seq<T>
    var itemsPerPage: nat
    /** `#pageIndex` */
    var pageIndex: int
    /** Whether an `onpagechange` callback is set. */
    var listening: bool
    /** The calls made to `onpagechange` so far. */
    var notified: seq<PageChange<T>>

    function TotalPages(): nat
      reads this
      requires itemsPerPage > 0
    {
      TotalPagesOf(|items|, itemsPerPage)
    }

    /** The index is a page of the current list (1 when the list is empty). */
    predicate Valid()
      reads this
    {
      itemsPerPage > 0 && InRange(pageIndex, TotalPages())
    }

    constructor (items: seq<T>, itemsPerPage: nat, listening: bool)
      requires itemsPerPage > 0
      ensures Valid() && pageIndex == 1
      ensures this.items == items && this.itemsPerPage == itemsPerPage && this.listening == listening
      ensures notified == []
    {
      this.items := items;
      this.itemsPerPage := itemsPerPage;
      this.listening := listening;
      this.pageIndex := 1;
      this.notified := [];
    }

    /** `next()`: moves forward unless on the last page; reports the move to the listener. */
    method Next()
      requires itemsPerPage > 0
      modifies this
      ensures items == old(items) && itemsPerPage == old(itemsPerPage) && listening == old(listening)
      ensures pageIndex == NextIndex(old(pageIndex), TotalPages())
      ensures notified == old(notified) +
        if pageIndex != old(pageIndex) && listening then [PageChange(pageIndex, TotalPages(), items)] else []
      ensures old(Valid()) ==> Valid()
    {
      if pageIndex >= TotalPages() {
        return;
      }
      pageIndex := pageIndex + 1;
      if listening {
        notified := notified + [PageChange(pageIndex, TotalPages(), items)];
      }
    }

    /** `previous()`: moves back unless on the first page; reports the move to the listener. */
    method Previous()
      requires itemsPerPage > 0
      modifies this
      ensures items == old(items) && itemsPerPage == old(itemsPerPage) && listening == old(listening)
      ensures pageIndex == PreviousIndex(old(pageIndex))
      ensures notified == old(notified) +
        if pageIndex != old(pageIndex) && listening then [PageChange(pageIndex, TotalPages(), items)] else []
      ensures old(Valid()) ==> Valid()
    {
      if pageIndex <= 1 {
        return;
      }
      pageIndex := pageIndex - 1;
      if listening {
        notified := notified + [PageChange(pageIndex, TotalPages(), items)];
      }
    }
  }
}
