/**
 * The three ORM queries the core relies on, over a table held in store
 * iteration order: first() (find, findOrFail, where(...)->first(), route-model
 * binding and belongsTo), where() (hasMany) and paginate(10).
 */
module Query {
  import opened Wrappers

  /** Position of the first row satisfying p, if any. */
  function FirstIndex<T>(xs: seq<T>, p: T -> bool): (r: Option<nat>)
    ensures r.Some? ==> r.value < |xs| && p(xs[r.value]) && forall j :: 0 <= j < r.value ==> !p(xs[j])
    ensures r.None? ==> forall j :: 0 <= j < |xs| ==> !p(xs[j])
  {
    if xs == [] then None
    else if p(xs[0]) then Some(0)
    else match FirstIndex(xs[1..], p)
      case None => None
      case Some(i) => Some(i + 1)
  }

  /** The first row satisfying p, in store order. */
  function FirstWhere<T>(xs: seq<T>, p: T -> bool): (r: Option<T>)
    ensures r.Some? ==> r.value in xs && p(r.value)
    ensures r.None? <==> forall i :: 0 <= i < |xs| ==> !p(xs[i])
  {
    match FirstIndex(xs, p)
    case None => None
    case Some(i) => Some(xs[i])
  }

  /** The rows satisfying p, in store order. */
  function Where<T>(xs: seq<T>, p: T -> bool): (r: seq<T>)
    ensures |r| <= |xs|
    ensures forall i :: 0 <= i < |r| ==> r[i] in xs && p(r[i])
    ensures forall i :: 0 <= i < |xs| && p(xs[i]) ==> xs[i] in r
  {
    if xs == [] then [] else (if p(xs[0]) then [xs[0]] else []) + Where(xs[1..], p)
  }

  /** Filtering keeps store order: the filter of a concatenation is the concatenation of the filters. */
  lemma {:induction false} WhereAppend<T>(xs: seq<T>, ys: seq<T>, p: T -> bool)
    ensures Where(xs + ys, p) == Where(xs, p) + Where(ys, p)
  {
    if xs == [] {
      assert xs + ys == ys;
    } else {
      var h := if p(xs[0]) then [xs[0]] else [];
      assert (xs + ys)[0] == xs[0] && (xs + ys)[1..] == xs[1..] + ys;
      assert Where(xs + ys, p) == h + Where(xs[1..] + ys, p);
      WhereAppend(xs[1..], ys, p);
      assert h + (Where(xs[1..], p) + Where(ys, p)) == (h + Where(xs[1..], p)) + Where(ys, p);
    }
  }

  /** Rows never appear more often in a filter than in the table. */
  lemma {:induction false} WhereCount<T>(xs: seq<T>, p: T -> bool, x: T)
    ensures multiset(Where(xs, p))[x] == (if p(x) then multiset(xs)[x] else 0)
  {
    if xs != [] {
      WhereCount(xs[1..], p, x);
      assert xs == [xs[0]] + xs[1..];
    }
  }

  // ---- paginate(10) ----

  const PerPage: nat := 10

  /** The page parameter: an integer of at least 1, otherwise page 1. */
  function CurrentPage(page: Option<int>): (n: nat)
    ensures n >= 1
    ensures page.Some? && page.value >= 1 ==> n == page.value
    ensures page.None? || page.value < 1 ==> n == 1
  {
    if page.Some? && page.value >= 1 then page.value else 1
  }

  /** How many rows precede the requested page. */
  function Offset(page: Option<int>): nat {
    (CurrentPage(page) - 1) * PerPage
  }

  /** The rows shown on the requested page. */
  function Paginate<T>(xs: seq<T>, page: Option<int>): (r: seq<T>)
    ensures |r| <= PerPage
    ensures forall k :: 0 <= k < |r| ==> Offset(page) + k < |xs| && r[k] == xs[Offset(page) + k]
  {
    var start := Offset(page);
    if start >= |xs| then []
    else if start + PerPage <= |xs| then xs[start..start + PerPage]
    else xs[start..]
  }

  /** The number of the last page; an empty table still has page 1. */
  function LastPage(total: nat): (n: nat)
    ensures n >= 1
    ensures (n - 1) * PerPage < total || total == 0
    ensures total <= n * PerPage
  {
    if total == 0 then 1 else (total + PerPage - 1) / PerPage
  }

  /** The paginator's meta block; from and to are null on an empty page. */
  datatype PageMeta = PageMeta(currentPage: nat, from: Option<nat>, lastPage: nat, perPage: nat,
                               to: Option<nat>, total: nat)

  /**
   * The meta block of the requested page: from and to number its first and
   * last rows from 1, and are null when the page holds no row.
   */
  function Meta<T>(xs: seq<T>, page: Option<int>): (m: PageMeta)
    ensures m.from.Some? <==> Paginate(xs, page) != []
    ensures m.to.Some? <==> Paginate(xs, page) != []
    ensures m.from.Some? ==> m.from.value == Offset(page) + 1 && m.to.value - m.from.value + 1 == |Paginate(xs, page)|
    ensures m.to.Some? ==> m.to.value <= |xs|
  {
    var n := |Paginate(xs, page)|;
    PageMeta(CurrentPage(page), if n > 0 then Some(Offset(page) + 1) else None, LastPage(|xs|), PerPage,
             if n > 0 then Some(Offset(page) + n) else None, |xs|)
  }

  /** Every row is shown, at position i % 10 of page i / 10 + 1. */
  lemma PageCovers<T>(xs: seq<T>, i: nat)
    requires i < |xs|
    ensures var pg := Paginate(xs, Some(i / PerPage + 1));
      i % PerPage < |pg| && pg[i % PerPage] == xs[i]
  {
    var start := (i / PerPage) * PerPage;
    assert start + i % PerPage == i;
  }

  /** Pages up to the last one are full except possibly the last; pages past it are empty. */
  lemma PageSizes<T>(xs: seq<T>, n: int)
    ensures n > LastPage(|xs|) ==> Paginate(xs, Some(n)) == []
    ensures 1 <= n < LastPage(|xs|) ==> |Paginate(xs, Some(n))| == PerPage
    ensures |xs| > 0 && n == LastPage(|xs|) ==> |Paginate(xs, Some(n))| > 0
  {
    if n > LastPage(|xs|) {
      assert (n - 1) * PerPage >= LastPage(|xs|) * PerPage;
    } else if 1 <= n < LastPage(|xs|) {
      assert n * PerPage <= (LastPage(|xs|) - 1) * PerPage;
    }
  }
}
