/**
 * Sequence operations that the monitors take from their standard libraries:
 * `Vec::retain` / iterator `filter`, `slice::reverse` and the stable sorts
 * (Rust `sort_by` / `sort_by_key`, Go `sort.SliceStable`).  The library sort
 * is modelled by a stable insertion sort; what the callers rely on about it
 * (a permutation, ordered by the comparator, equal elements in input order)
 * is proved here once.
 */
module Seqs {

  // ---------------------------------------------------------------------
  // Filtering
  // ---------------------------------------------------------------------

  /** The elements of `s` that satisfy `keep`, in their order in `s`. */
  function Filter<T(!new)>(s: seq<T>, keep: T -> bool): (r: seq<T>)
    ensures |r| <= |s|
    ensures forall x :: x in r <==> x in s && keep(x)
  {
    if s == [] then []
    else
      var rest := Filter(s[1..], keep);
      if keep(s[0]) then [s[0]] + rest else rest
  }

  /** Filtering keeps every occurrence of a kept element and none of the others. */
  lemma {:induction false} FilterCounts<T(!new)>(s: seq<T>, keep: T -> bool, x: T)
    ensures multiset(Filter(s, keep))[x] == if keep(x) then multiset(s)[x] else 0
  {
    if s != [] {
      FilterCounts(s[1..], keep, x);
      assert s == [s[0]] + s[1..];
    }
  }

  lemma FilterShrinksMultiset<T(!new)>(s: seq<T>, keep: T -> bool)
    ensures multiset(Filter(s, keep)) <= multiset(s)
  {
    forall x ensures multiset(Filter(s, keep))[x] <= multiset(s)[x] {
      FilterCounts(s, keep, x);
    }
  }

  /** `a` is `b` with some elements deleted. */
  predicate IsSubsequence<T(==)>(a: seq<T>, b: seq<T>) {
    if a == [] then true
    else if b == [] then false
    else if a[0] == b[0] then IsSubsequence(a[1..], b[1..])
    else IsSubsequence(a, b[1..])
  }

  lemma {:induction false} FilterIsSubsequence<T(!new)>(s: seq<T>, keep: T -> bool)
    ensures IsSubsequence(Filter(s, keep), s)
  {
    if s != [] {
      FilterIsSubsequence(s[1..], keep);
      var rest := Filter(s[1..], keep);
      if !keep(s[0]) && rest != [] {
        SubsequenceSkipsHead(rest, s);
      }
    }
  }

  /** A subsequence of a tail is a subsequence of the whole. */
  lemma {:induction false} SubsequenceSkipsHead<T>(a: seq<T>, b: seq<T>)
    requires b != [] && IsSubsequence(a, b[1..])
    ensures IsSubsequence(a, b)
  {
    if a != [] && a[0] == b[0] {
      if b[1..] != [] && a[0] != b[1..][0] {
        SubsequenceSkipsHead(a, b[1..]);
        SubsequenceDropHead(a, b[1..]);
      } else if b[1..] != [] {
        SubsequenceDropHead(a, b[1..]);
      }
    }
  }

  lemma {:induction false} SubsequenceDropHead<T>(a: seq<T>, b: seq<T>)
    requires a != [] && IsSubsequence(a, b)
    ensures IsSubsequence(a[1..], b)
  {
    if a[0] == b[0] {
      if a[1..] != [] && b[1..] != [] && a[1..][0] != b[0] {
        SubsequenceSkipsHead(a[1..], b);
      } else if a[1..] != [] {
        SubsequenceSkipsHead(a[1..], b);
      }
    } else {
      SubsequenceDropHead(a, b[1..]);
      if a[1..] != [] { SubsequenceSkipsHead(a[1..], b); }
    }
  }

  lemma {:induction false} SubsequenceReflexive<T>(s: seq<T>)
    ensures IsSubsequence(s, s)
  {
    if s != [] { SubsequenceReflexive(s[1..]); }
  }

  /** Filtering twice with the same test filters once. */
  lemma {:induction false} FilterIdempotent<T(!new)>(s: seq<T>, keep: T -> bool)
    ensures Filter(Filter(s, keep), keep) == Filter(s, keep)
  {
    if s != [] {
      FilterIdempotent(s[1..], keep);
    }
  }

  /** Filtering a concatenation filters each part. */
  lemma {:induction false} FilterAppend<T(!new)>(a: seq<T>, b: seq<T>, keep: T -> bool)
    ensures Filter(a + b, keep) == Filter(a, keep) + Filter(b, keep)
  {
    if a != [] {
      FilterAppend(a[1..], b, keep);
      assert (a + b)[0] == a[0] && (a + b)[1..] == a[1..] + b;
    } else {
      assert a + b == b;
    }
  }

  /** Filtering an extended sequence filters the prefix, then the new element. */
  lemma {:induction false} FilterSnoc<T(!new)>(s: seq<T>, x: T, keep: T -> bool)
    ensures Filter(s + [x], keep) == Filter(s, keep) + (if keep(x) then [x] else [])
  {
    var t := s + [x];
    if s == [] {
      assert t == [x] && t[1..] == [];
    } else {
      assert t[0] == s[0] && t[1..] == s[1..] + [x];
      FilterSnoc(s[1..], x, keep);
    }
  }

  // ---------------------------------------------------------------------
  // Reversal
  // ---------------------------------------------------------------------

  function Reverse<T>(s: seq<T>): (r: seq<T>)
    ensures |r| == |s|
    ensures forall i :: 0 <= i < |s| ==> r[i] == s[|s| - 1 - i]
  {
    if s == [] then [] else Reverse(s[1..]) + [s[0]]
  }

  /** Reversing and filtering commute. */
  lemma {:induction false} FilterReverse<T(!new)>(s: seq<T>, keep: T -> bool)
    ensures Filter(Reverse(s), keep) == Reverse(Filter(s, keep))
  {
    if s != [] {
      FilterReverse(s[1..], keep);
      FilterSnoc(Reverse(s[1..]), s[0], keep);
      var rest := Filter(s[1..], keep);
      if keep(s[0]) {
        assert ([s[0]] + rest)[1..] == rest;
      }
    }
  }

  lemma {:induction false} ReversePermutes<T>(s: seq<T>)
    ensures multiset(Reverse(s)) == multiset(s)
  {
    if s != [] {
      ReversePermutes(s[1..]);
      assert s == [s[0]] + s[1..];
    }
  }

  // ---------------------------------------------------------------------
  // Stable sorting
  // ---------------------------------------------------------------------

  /** `le` is a comparator's "not after": total and transitive. */
  ghost predicate TotalPreorder<T(!new)>(le: (T, T) -> bool) {
    && (forall a, b :: le(a, b) || le(b, a))
    && (forall a, b, c :: le(a, b) && le(b, c) ==> le(a, c))
  }

  predicate SortedBy<T>(s: seq<T>, le: (T, T) -> bool) {
    forall i, j :: 0 <= i < j < |s| ==> le(s[i], s[j])
  }

  /** Neither of `a`, `b` sorts after the other. */
  predicate Tied<T>(a: T, b: T, le: (T, T) -> bool) {
    le(a, b) && le(b, a)
  }

  /** The elements of `s` tied with `x`, in their order in `s`. */
  function TiedWith<T(!new)>(s: seq<T>, x: T, le: (T, T) -> bool): seq<T> {
    Filter(s, y => Tied(y, x, le))
  }

  /** Puts `x` before the first element it does not sort after. */
  function Insert<T>(x: T, s: seq<T>, le: (T, T) -> bool): (r: seq<T>)
    ensures |r| == |s| + 1
  {
    if s == [] || le(x, s[0]) then [x] + s else [s[0]] + Insert(x, s[1..], le)
  }

  /** Insertion sort, inserting earlier elements in front of equal later ones. */
  function StableSort<T>(s: seq<T>, le: (T, T) -> bool): (r: seq<T>)
    ensures |r| == |s|
  {
    if s == [] then [] else Insert(s[0], StableSort(s[1..], le), le)
  }

  lemma {:induction false} InsertPermutes<T>(x: T, s: seq<T>, le: (T, T) -> bool)
    ensures multiset(Insert(x, s, le)) == multiset{x} + multiset(s)
  {
    if s != [] && !le(x, s[0]) {
      InsertPermutes(x, s[1..], le);
      assert s == [s[0]] + s[1..];
    }
  }

  lemma {:induction false} StableSortPermutes<T>(s: seq<T>, le: (T, T) -> bool)
    ensures multiset(StableSort(s, le)) == multiset(s)
  {
    if s != [] {
      StableSortPermutes(s[1..], le);
      InsertPermutes(s[0], StableSort(s[1..], le), le);
      assert s == [s[0]] + s[1..];
    }
  }

  lemma {:induction false} InsertSorted<T(!new)>(x: T, s: seq<T>, le: (T, T) -> bool)
    requires TotalPreorder(le) && SortedBy(s, le)
    ensures SortedBy(Insert(x, s, le), le)
  {
    if s != [] && !le(x, s[0]) {
      var t := s[1..];
      InsertSorted(x, t, le);
      InsertPermutes(x, t, le);
      var r := Insert(x, t, le);
      forall j | 0 <= j < |r| ensures le(s[0], r[j]) {
        assert r[j] in multiset(r);
        assert r[j] == x || r[j] in t;
      }
    }
  }

  lemma {:induction false} StableSortSorted<T(!new)>(s: seq<T>, le: (T, T) -> bool)
    requires TotalPreorder(le)
    ensures SortedBy(StableSort(s, le), le)
  {
    if s != [] {
      StableSortSorted(s[1..], le);
      InsertSorted(s[0], StableSort(s[1..], le), le);
    }
  }

  lemma {:induction false} InsertKeepsTies<T(!new)>(a: T, s: seq<T>, x: T, le: (T, T) -> bool)
    requires TotalPreorder(le) && SortedBy(s, le)
    ensures TiedWith(Insert(a, s, le), x, le)
         == if Tied(a, x, le) then [a] + TiedWith(s, x, le) else TiedWith(s, x, le)
  {
    assert s != [] ==> s == [s[0]] + s[1..];
    if s != [] && !le(a, s[0]) {
      InsertKeepsTies(a, s[1..], x, le);
      assert [s[0]] + Insert(a, s[1..], le) == Insert(a, s, le);
      if Tied(a, x, le) {
        assert !Tied(s[0], x, le);
      }
    }
  }

  /** Stability: elements tied under `le` leave the sort in their input order. */
  lemma {:induction false} StableSortKeepsTies<T(!new)>(s: seq<T>, x: T, le: (T, T) -> bool)
    requires TotalPreorder(le)
    ensures TiedWith(StableSort(s, le), x, le) == TiedWith(s, x, le)
  {
    if s != [] {
      StableSortKeepsTies(s[1..], x, le);
      StableSortSorted(s[1..], le);
      InsertKeepsTies(s[0], StableSort(s[1..], le), x, le);
      assert s == [s[0]] + s[1..];
    }
  }

  /** Everything callers use about the stable sort, in one place. */
  lemma StableSortSpec<T(!new)>(s: seq<T>, le: (T, T) -> bool)
    requires TotalPreorder(le)
    ensures multiset(StableSort(s, le)) == multiset(s)
    ensures SortedBy(StableSort(s, le), le)
    ensures forall x :: TiedWith(StableSort(s, le), x, le) == TiedWith(s, x, le)
  {
    StableSortPermutes(s, le);
    StableSortSorted(s, le);
    forall x ensures TiedWith(StableSort(s, le), x, le) == TiedWith(s, x, le) {
      StableSortKeepsTies(s, x, le);
    }
  }

  /**
   * Sorting stably and then reversing (the descending order of the monitors)
   * is a permutation, ordered in reverse, and puts tied elements in reverse
   * input order.
   */
  lemma ReversedStableSortSpec<T(!new)>(s: seq<T>, le: (T, T) -> bool)
    requires TotalPreorder(le)
    ensures multiset(Reverse(StableSort(s, le))) == multiset(s)
    ensures forall i, j :: 0 <= i < j < |s| ==> le(Reverse(StableSort(s, le))[j], Reverse(StableSort(s, le))[i])
    ensures forall x :: TiedWith(Reverse(StableSort(s, le)), x, le) == Reverse(TiedWith(s, x, le))
  {
    var asc := StableSort(s, le);
    StableSortSpec(s, le);
    ReversePermutes(asc);
    ReverseSortedDescends(asc, le);
    forall x ensures TiedWith(Reverse(asc), x, le) == Reverse(TiedWith(s, x, le)) {
      FilterReverse(asc, y => Tied(y, x, le));
    }
  }

  /** Reversing an ascending sequence gives a descending one. */
  lemma ReverseSortedDescends<T>(s: seq<T>, le: (T, T) -> bool)
    requires SortedBy(s, le)
    ensures forall i, j :: 0 <= i < j < |s| ==> le(Reverse(s)[j], Reverse(s)[i])
  {
  }
}
