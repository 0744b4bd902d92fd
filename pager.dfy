/**
 * The pagination walker every listing function of the tool repeats, and the
 * per-item fan-out some of them run on each page before keeping it.
 */
module Pager {
  import opened Types
  import opened Text
  import opened GhApi

  /** The outcome of a loop that stops at its first failure: what it finished, and that failure. */
  datatype Partial<B> = Partial(done: seq<B>, err: Option<Error>)

  /**
   * Apply f to each element in order, stopping at the first error; the
   * results gathered before the failure are kept.
   */
  function FanOut<A, B>(xs: seq<A>, f: A -> Result<B>): (r: Partial<B>)
    ensures |r.done| <= |xs|
    ensures forall i :: 0 <= i < |r.done| ==> f(xs[i]) == Ok(r.done[i])
    ensures r.err.None? <==> |r.done| == |xs|
    ensures r.err.Some? ==> f(xs[|r.done|]) == Err(r.err.value)
    decreases |xs|
  {
    if xs == [] then Partial([], None)
    else
      var r := FanOut(xs[..|xs| - 1], f);
      if r.err.Some? then r
      else match f(xs[|xs| - 1])
        case Ok(v) => Partial(r.done + [v], None)
        case Err(e) => Partial(r.done, Some(e))
  }

  /** The fan-out as a loop: the shape of every `for _, x := range xs { ...; if err != nil { return } }`. */
  method RunFanOut<A, B>(xs: seq<A>, f: A -> Result<B>) returns (done: seq<B>, err: Option<Error>)
    ensures Partial(done, err) == FanOut(xs, f)
  {
    done := [];
    for i := 0 to |xs|
      invariant Partial(done, None) == FanOut(xs[..i], f)
    {
      assert xs[..i + 1][..i] == xs[..i];
      match f(xs[i]) {
        case Ok(v) =>
          done := done + [v];
        case Err(e) =>
          err := Some(e);
          return;
      }
    }
    assert xs[..|xs|] == xs;
    err := None;
  }

  /** A fan-out whose every call succeeds yields one result per element. */
  lemma FanOutTotal<A, B>(xs: seq<A>, f: A -> Result<B>)
    requires forall i :: 0 <= i < |xs| ==> f(xs[i]).Ok?
    ensures FanOut(xs, f).err.None?
    ensures |FanOut(xs, f).done| == |xs|
  {
  }

  /** An element whose call fails stops the fan-out there or earlier. */
  lemma {:induction false} FanOutStopsAt<A, B>(xs: seq<A>, f: A -> Result<B>, k: nat)
    requires k < |xs| && f(xs[k]).Err?
    ensures FanOut(xs, f).err.Some? && |FanOut(xs, f).done| <= k
    decreases |xs|
  {
    var init := xs[..|xs| - 1];
    if k < |xs| - 1 {
      assert init[k] == xs[k];
      FanOutStopsAt(init, f, k);
    }
  }

  /** Once the element after a clean prefix fails, nothing after it changes the outcome. */
  lemma {:induction false} FanOutAbortsAt<A, B>(xs: seq<A>, f: A -> Result<B>, i: nat)
    requires i < |xs| && FanOut(xs[..i], f).err.None? && f(xs[i]).Err?
    ensures FanOut(xs, f) == Partial(FanOut(xs[..i], f).done, Some(f(xs[i]).error))
    decreases |xs|
  {
    if i == |xs| - 1 {
      assert xs[..|xs| - 1] == xs[..i];
    } else {
      var init := xs[..|xs| - 1];
      assert init[..i] == xs[..i] && init[i] == xs[i];
      FanOutAbortsAt(init, f, i);
    }
  }

  /** A non-empty sequence appended to xs, with its last element split off. */
  lemma AppendLast<T>(xs: seq<T>, ys: seq<T>)
    requires ys != []
    ensures ys == ys[..|ys| - 1] + [ys[|ys| - 1]]
    ensures xs + ys == (xs + ys[..|ys| - 1]) + [ys[|ys| - 1]]
  {
  }

  /** Sequence concatenation regrouped. */
  lemma AppendAssoc<T>(a: seq<T>, b: seq<T>, c: seq<T>)
    ensures (a + b) + c == a + (b + c)
  {
  }

  /** Where a page is appended relative to the check of its error. */
  datatype AppendOrder = AppendThenCheck | CheckThenAppend

  /** What a walk returns, and the page numbers it requested, in order. */
  datatype Walked<T> = Walked(items: seq<T>, err: Option<Error>, requested: seq<int>)

  /** The first cursor of every walk. */
  const Start: ListPages := ListPages(0, 0, 0)

  /**
   * One walk from cursor lp, having gathered acc. The loop runs while
   * Next <= Last; a zero Next is read as page 1. After the fetch, the page's
   * items are fanned out (a failure there returns acc without the page); the
   * page is then appended before or after its error is checked; the walk ends
   * once the page equal to the previous Last (> 0) is fetched, or when the
   * page reports Last == 0. `fuel` bounds the number of fetches: the loop of
   * the source has no bound of its own.
   */
  function WalkFrom<T>(fetch: int -> Page<T>, enrich: T -> Result<T>, order: AppendOrder,
                       lp: ListPages, acc: seq<T>, requested: seq<int>, fuel: nat): (r: Walked<T>)
    ensures |requested| <= |r.requested| <= |requested| + fuel
    ensures lp.next <= lp.last && fuel > 0 ==> |r.requested| > |requested|
    decreases fuel
  {
    if lp.next > lp.last then Walked(acc, None, requested)
    else if fuel == 0 then Walked(acc, Some(PageBudgetExhausted), requested)
    else
      var p := if lp.next == 0 then 1 else lp.next;
      var page := fetch(p);
      var req := requested + [p];
      var fo := FanOut(page.items, enrich);
      if fo.err.Some? then Walked(acc, fo.err, req)
      else if page.err.Some? then
        Walked(if order == AppendThenCheck then acc + fo.done else acc, page.err, req)
      else if p == lp.last && lp.last > 0 then Walked(acc + fo.done, None, req)
      else if page.cursor.last == 0 then Walked(acc + fo.done, None, req)
      else WalkFrom(fetch, enrich, order, page.cursor, acc + fo.done, req, fuel - 1)
  }

  function Walk<T>(fetch: int -> Page<T>, enrich: T -> Result<T>, order: AppendOrder, fuel: nat): Walked<T> {
    WalkFrom(fetch, enrich, order, Start, [], [], fuel)
  }

  /** The enrichment of walkers that keep each listed item as it is. */
  function Keep<T>(x: T): Result<T> { Ok(x) }

  /**
   * The loop as every listing function writes it: bump a zero Next to 1,
   * fetch, fan out, append before or after the error check, then stop at the
   * previous Last or when the page reports no Last.
   */
  method WalkPages<T>(fetch: int -> Page<T>, enrich: T -> Result<T>, order: AppendOrder, fuel: nat)
    returns (items: seq<T>, err: Option<Error>, requested: seq<int>)
    ensures Walked(items, err, requested) == Walk(fetch, enrich, order, fuel)
  {
    var lp := Start;
    items, err, requested := [], None, [];
    var left := fuel;
    while lp.next <= lp.last
      invariant WalkFrom(fetch, enrich, order, lp, items, requested, left) == Walk(fetch, enrich, order, fuel)
      decreases left
    {
      if left == 0 {
        err := Some(PageBudgetExhausted);
        return;
      }
      if lp.next == 0 {
        lp := lp.(next := 1);
      }
      var page := fetch(lp.next);
      requested := requested + [lp.next];
      var done, ferr := RunFanOut(page.items, enrich);
      if ferr.Some? {
        err := ferr;
        return;
      }
      if order == AppendThenCheck {
        items := items + done;
      }
      if page.err.Some? {
        err := page.err;
        return;
      }
      if order == CheckThenAppend {
        items := items + done;
      }
      if lp.next == lp.last && lp.last > 0 {
        break;
      }
      lp := page.cursor;
      if lp.last == 0 {
        break;
      }
      left := left - 1;
    }
  }

  /** The items a page contributes once fanned out. */
  function Kept<T>(fetch: int -> Page<T>, enrich: T -> Result<T>, p: int): seq<T> {
    FanOut(fetch(p).items, enrich).done
  }

  /** Pages 1..n, concatenated in order. */
  function Collected<T>(fetch: int -> Page<T>, enrich: T -> Result<T>, n: nat): seq<T>
    decreases n
  {
    if n == 0 then [] else Collected(fetch, enrich, n - 1) + Kept(fetch, enrich, n)
  }

  /** The page numbers 1..n, in order. */
  function PagesUpTo(n: nat): (r: seq<int>)
    ensures |r| == n && forall i :: 0 <= i < n ==> r[i] == i + 1
    decreases n
  {
    if n == 0 then [] else PagesUpTo(n - 1) + [n]
  }

  /** A page that neither fails nor fails to fan out. */
  predicate PageFine<T>(fetch: int -> Page<T>, enrich: T -> Result<T>, p: int) {
    fetch(p).err.None? && FanOut(fetch(p).items, enrich).err.None?
  }

  /**
   * Pages 1..k-1 of an n-page listing are fine and each points at the next
   * one, reporting n as the last page, as GitHub's Link header does.
   */
  predicate ChainTo<T>(fetch: int -> Page<T>, enrich: T -> Result<T>, n: int, k: int) {
    forall p :: 1 <= p < k ==>
      PageFine(fetch, enrich, p) && fetch(p).cursor.next == p + 1 && fetch(p).cursor.last == n
  }

  /** The cursor the loop holds when it is about to request page k. */
  function CursorBefore<T>(fetch: int -> Page<T>, k: int): ListPages {
    if k <= 1 then Start else fetch(k - 1).cursor
  }

  /** Along a chain, the walk reaches page k having requested 1..k-1 and gathered their items. */
  lemma {:induction false} WalkReaches<T>(fetch: int -> Page<T>, enrich: T -> Result<T>, order: AppendOrder,
                                          n: int, k: int, fuel: nat)
    requires 1 <= k <= n && ChainTo(fetch, enrich, n, k) && fuel >= k - 1
    ensures Walk(fetch, enrich, order, fuel) ==
      WalkFrom(fetch, enrich, order, CursorBefore(fetch, k), Collected(fetch, enrich, k - 1), PagesUpTo(k - 1), fuel - (k - 1))
    decreases k
  {
    if k > 1 {
      WalkReaches(fetch, enrich, order, n, k - 1, fuel);
      assert PageFine(fetch, enrich, k - 1);
    }
  }

  /**
   * With well-formed cursors over n pages, the walk requests exactly pages
   * 1..n, in order, once each, and returns their items concatenated.
   */
  lemma WalkAllPages<T>(fetch: int -> Page<T>, enrich: T -> Result<T>, order: AppendOrder, n: int, fuel: nat)
    requires 1 <= n && ChainTo(fetch, enrich, n, n) && PageFine(fetch, enrich, n)
    requires n == 1 ==> fetch(1).cursor.last == 0
    requires fuel >= n
    ensures Walk(fetch, enrich, order, fuel) == Walked(Collected(fetch, enrich, n), None, PagesUpTo(n))
  {
    WalkReaches(fetch, enrich, order, n, n, fuel);
  }

  /**
   * A page whose listing call fails ends the walk with that error; the pages
   * before it are kept, and the failing page's items too when it is appended
   * before the check.
   */
  lemma WalkFailsAt<T>(fetch: int -> Page<T>, enrich: T -> Result<T>, order: AppendOrder, n: int, k: int, fuel: nat)
    requires 1 <= k <= n && ChainTo(fetch, enrich, n, k) && fuel >= k
    requires fetch(k).err.Some? && FanOut(fetch(k).items, enrich).err.None?
    ensures Walk(fetch, enrich, order, fuel) ==
      Walked(Collected(fetch, enrich, k - 1) + (if order == AppendThenCheck then Kept(fetch, enrich, k) else []),
             fetch(k).err, PagesUpTo(k))
  {
    WalkReaches(fetch, enrich, order, n, k, fuel);
    if order == CheckThenAppend {
      assert Collected(fetch, enrich, k - 1) + [] == Collected(fetch, enrich, k - 1);
    }
  }

  /** A failure while fanning out a page ends the walk without that page, whatever the append order. */
  lemma WalkEnrichFailsAt<T>(fetch: int -> Page<T>, enrich: T -> Result<T>, order: AppendOrder, n: int, k: int, fuel: nat)
    requires 1 <= k <= n && ChainTo(fetch, enrich, n, k) && fuel >= k
    requires FanOut(fetch(k).items, enrich).err.Some?
    ensures Walk(fetch, enrich, order, fuel) ==
      Walked(Collected(fetch, enrich, k - 1), FanOut(fetch(k).items, enrich).err, PagesUpTo(k))
  {
    WalkReaches(fetch, enrich, order, n, k, fuel);
  }

  /** A walk only ever adds to what it has gathered and to the pages it has requested. */
  lemma {:induction false} WalkExtends<T>(fetch: int -> Page<T>, enrich: T -> Result<T>, order: AppendOrder,
                                          lp: ListPages, acc: seq<T>, requested: seq<int>, fuel: nat)
    ensures acc <= WalkFrom(fetch, enrich, order, lp, acc, requested, fuel).items
    ensures requested <= WalkFrom(fetch, enrich, order, lp, acc, requested, fuel).requested
    decreases fuel
  {
    if lp.next <= lp.last && fuel > 0 {
      var p := if lp.next == 0 then 1 else lp.next;
      var page := fetch(p);
      var done := FanOut(page.items, enrich).done;
      WalkExtends(fetch, enrich, order, page.cursor, acc + done, requested + [p], fuel - 1);
    }
  }

  /** Every walk given at least one fetch requests page 1 first. */
  lemma WalkStartsAtPageOne<T>(fetch: int -> Page<T>, enrich: T -> Result<T>, order: AppendOrder, fuel: nat)
    requires fuel >= 1
    ensures |Walk(fetch, enrich, order, fuel).requested| >= 1
    ensures Walk(fetch, enrich, order, fuel).requested[0] == 1
  {
    var done := FanOut(fetch(1).items, enrich).done;
    WalkExtends(fetch, enrich, order, fetch(1).cursor, [] + done, [] + [1], fuel - 1);
  }

  /**
   * A page reporting Next == 0 with Last > 0 sends the loop back to page 1:
   * if page 1 itself answers so with Last > 1, the walk requests page 1 over
   * and over until the fetch budget runs out. The loop of the source never
   * ends here.
   */
  lemma {:induction false} WalkRestarts<T>(fetch: int -> Page<T>, enrich: T -> Result<T>, order: AppendOrder,
                                           lp: ListPages, acc: seq<T>, requested: seq<int>, fuel: nat)
    requires PageFine(fetch, enrich, 1) && fetch(1).cursor.next == 0 && fetch(1).cursor.last > 1
    requires lp == Start || lp == fetch(1).cursor
    ensures WalkFrom(fetch, enrich, order, lp, acc, requested, fuel).err == Some(PageBudgetExhausted)
    ensures |WalkFrom(fetch, enrich, order, lp, acc, requested, fuel).requested| == |requested| + fuel
    ensures forall i :: |requested| <= i < |requested| + fuel ==>
      WalkFrom(fetch, enrich, order, lp, acc, requested, fuel).requested[i] == 1
    decreases fuel
  {
    if fuel > 0 {
      var rest := WalkFrom(fetch, enrich, order, fetch(1).cursor, acc + Kept(fetch, enrich, 1), requested + [1], fuel - 1);
      WalkRestarts(fetch, enrich, order, fetch(1).cursor, acc + Kept(fetch, enrich, 1), requested + [1], fuel - 1);
      WalkExtends(fetch, enrich, order, fetch(1).cursor, acc + Kept(fetch, enrich, 1), requested + [1], fuel - 1);
      assert rest.requested[|requested|] == (requested + [1])[|requested|];
    }
  }

  /** x is what enrich made of some item. */
  ghost predicate Enriched<T(!new)>(enrich: T -> Result<T>, x: T) {
    exists y :: enrich(y) == Ok(x)
  }

  /** Every item a walk adds is the enrichment of an item some page listed. */
  lemma {:induction false} WalkItemsEnriched<T(!new)>(fetch: int -> Page<T>, enrich: T -> Result<T>, order: AppendOrder,
                                                lp: ListPages, acc: seq<T>, requested: seq<int>, fuel: nat)
    ensures var w := WalkFrom(fetch, enrich, order, lp, acc, requested, fuel);
      |acc| <= |w.items| &&
      forall i :: |acc| <= i < |w.items| ==> Enriched(enrich, w.items[i])
    decreases fuel
  {
    var r := WalkFrom(fetch, enrich, order, lp, acc, requested, fuel);
    if lp.next <= lp.last && fuel > 0 {
      var p := if lp.next == 0 then 1 else lp.next;
      var page := fetch(p);
      var req := requested + [p];
      var fo := FanOut(page.items, enrich);
      var next := acc + fo.done;
      forall i | |acc| <= i < |next| ensures Enriched(enrich, next[i]) {
        assert next[i] == fo.done[i - |acc|];
        assert enrich(page.items[i - |acc|]) == Ok(next[i]);
      }
      if fo.err.Some? || (page.err.Some? && order != AppendThenCheck) {
        assert r.items == acc;
      } else if page.err.Some? || (p == lp.last && lp.last > 0) || page.cursor.last == 0 {
        assert r.items == next;
      } else {
        var w := WalkFrom(fetch, enrich, order, page.cursor, next, req, fuel - 1);
        assert r == w;
        WalkItemsEnriched(fetch, enrich, order, page.cursor, next, req, fuel - 1);
        WalkExtends(fetch, enrich, order, page.cursor, next, req, fuel - 1);
        forall i | |acc| <= i < |w.items| ensures Enriched(enrich, w.items[i]) {
          if i < |next| {
            assert w.items[i] == next[i];
          }
        }
      }
    }
  }
}
