/** The standard library's `binary_search_by`, as used on levels and on block entries. */
module Search {
  import opened Keys

  /** `Ok(i)`: an equal element is at `i`; `Err(i)`: it would be inserted at `i`. */
  datatype SearchResult = Ok(index: nat) | Err(index: nat)

  function Middle(lo: nat, hi: nat): (mid: nat)
    requires lo < hi
    ensures lo <= mid < hi
  {
    lo + (hi - lo) / 2
  }

  function BinarySearchIn(cmp: nat -> Ordering, lo: nat, hi: nat): (r: SearchResult)
    requires lo <= hi
    ensures lo <= r.index <= hi
    ensures r.Ok? ==> r.index < hi && cmp(r.index) == Equal
    decreases hi - lo
  {
    if lo == hi then Err(lo)
    else
      var mid := Middle(lo, hi);
      match cmp(mid)
      case Less => BinarySearchIn(cmp, mid + 1, hi)
      case Greater => BinarySearchIn(cmp, lo, mid)
      case Equal => Ok(mid)
  }

  function BinarySearch(cmp: nat -> Ordering, len: nat): SearchResult {
    BinarySearchIn(cmp, 0, len)
  }

  /** Comparing a strictly ascending list of `len` elements with a probe. */
  ghost predicate Ascending(cmp: nat -> Ordering, len: nat) {
    forall i, j :: 0 <= i < j < len && cmp(i) != Less ==> cmp(j) == Greater
  }

  lemma {:induction false} SearchIn(cmp: nat -> Ordering, lo: nat, hi: nat, len: nat)
    requires lo <= hi <= len && Ascending(cmp, len)
    requires forall i :: 0 <= i < lo ==> cmp(i) == Less
    requires forall i :: hi <= i < len ==> cmp(i) == Greater
    ensures var r := BinarySearchIn(cmp, lo, hi);
            r.Err? ==>
              && (forall i :: 0 <= i < r.index ==> cmp(i) == Less)
              && (forall i :: r.index <= i < len ==> cmp(i) == Greater)
    decreases hi - lo
  {
    if lo < hi {
      var mid := Middle(lo, hi);
      match cmp(mid)
      case Less =>
        BelowLess(cmp, mid, len);
        SearchIn(cmp, mid + 1, hi, len);
      case Greater =>
        AboveGreater(cmp, mid, len);
        SearchIn(cmp, lo, mid, len);
      case Equal =>
    }
  }

  lemma BelowLess(cmp: nat -> Ordering, mid: nat, len: nat)
    requires mid < len && Ascending(cmp, len) && cmp(mid) == Less
    ensures forall i :: 0 <= i <= mid ==> cmp(i) == Less
  {
    forall i | 0 <= i < mid ensures cmp(i) == Less {
      assert cmp(i) != Less ==> cmp(mid) == Greater;
    }
  }

  lemma AboveGreater(cmp: nat -> Ordering, mid: nat, len: nat)
    requires mid < len && Ascending(cmp, len) && cmp(mid) == Greater
    ensures forall i :: mid <= i < len ==> cmp(i) == Greater
  {
  }

  /** On an ascending list the search reports an equal element if there is one,
      and otherwise the insertion point. */
  lemma SearchCorrect(cmp: nat -> Ordering, len: nat)
    requires Ascending(cmp, len)
    ensures var r := BinarySearch(cmp, len);
            && (r.Ok? <==> exists i :: 0 <= i < len && cmp(i) == Equal)
            && (forall i :: 0 <= i < r.index ==> cmp(i) == Less)
            && (forall i :: r.index < i < len ==> cmp(i) == Greater)
            && (r.Err? && r.index < len ==> cmp(r.index) == Greater)
  {
    SearchIn(cmp, 0, len, len);
    var r := BinarySearch(cmp, len);
    if r.Ok? {
      forall i | 0 <= i < r.index ensures cmp(i) == Less {
        assert cmp(i) != Less ==> cmp(r.index) == Greater;
      }
    }
  }

  /** A list of `n` elements, then smaller ones up to `m`, then elements above both: the probe `f` for one
      of the first and the probe `g` for one of the second part take the same way until they leave the
      third, and there one of them is sent to the wrong side. */
  lemma {:induction false} OneGoesAstray(f: nat -> Ordering, g: nat -> Ordering, n: nat, m: nat, hi: nat)
    requires 0 < n < m <= hi
    requires forall i :: m <= i < hi ==> f(i) == g(i) == Greater
    requires forall i :: n <= i < m ==> f(i) == Less
    requires forall i :: 0 <= i < n ==> g(i) == Greater
    ensures var a, b := BinarySearchIn(f, 0, hi), BinarySearchIn(g, 0, hi);
            (a.Err? && a.index > n) || (b.Err? && b.index < n)
    decreases hi
  {
    var mid := Middle(0, hi);
    if mid >= m {
      OneGoesAstray(f, g, n, m, mid);
    }
  }

  /** Only the comparator's answers matter. */
  lemma {:induction false} SearchExtensional(f: nat -> Ordering, g: nat -> Ordering, lo: nat, hi: nat)
    requires lo <= hi
    requires forall i :: lo <= i < hi ==> f(i) == g(i)
    ensures BinarySearchIn(f, lo, hi) == BinarySearchIn(g, lo, hi)
    decreases hi - lo
  {
    if lo < hi {
      var mid := Middle(lo, hi);
      SearchExtensional(f, g, mid + 1, hi);
      SearchExtensional(f, g, lo, mid);
    }
  }
}
