/** Sequence helpers shared by the alert list, the portfolio and both
    favourites lists: JavaScript's `filter`, the order-preservation relation it
    establishes, and the membership toggle used for favourites. */
module Lists {

  /** `r` can be obtained from `s` by deleting elements, keeping the order of
      the rest. */
  predicate IsSubsequence<T(==,!new)>(r: seq<T>, s: seq<T>)
  {
    r == [] ||
    (s != [] && ((r[0] == s[0] && IsSubsequence(r[1..], s[1..])) || IsSubsequence(r, s[1..])))
  }

  /** No element occurs twice. */
  predicate NoDuplicates<T(==,!new)>(s: seq<T>)
  {
    forall i, j :: 0 <= i < j < |s| ==> s[i] != s[j]
  }

  /** `Array.prototype.filter`: the elements satisfying `keep`, in order;
      `FilterCount` adds that each occurs as often as in `s`. */
  function Filter<T(==,!new)>(s: seq<T>, keep: T -> bool): (r: seq<T>)
    ensures forall x :: x in r <==> x in s && keep(x)
    ensures IsSubsequence(r, s)
    ensures (forall x :: x in s ==> keep(x)) ==> r == s
  {
    if s == [] then []
    else if keep(s[0]) then [s[0]] + Filter(s[1..], keep)
    else Filter(s[1..], keep)
  }

  lemma {:induction false} FilterAppend<T(!new)>(s: seq<T>, t: seq<T>, keep: T -> bool)
    ensures Filter(s + t, keep) == Filter(s, keep) + Filter(t, keep)
  {
    if s == [] {
      assert s + t == t;
    } else {
      assert (s + t)[1..] == s[1..] + t;
      FilterAppend(s[1..], t, keep);
    }
  }

  /** Every kept element occurs in the result as often as in the input. */
  lemma {:induction false} FilterCount<T(!new)>(s: seq<T>, keep: T -> bool)
    ensures forall x :: multiset(Filter(s, keep))[x] == if keep(x) then multiset(s)[x] else 0
  {
    if s != [] {
      FilterCount(s[1..], keep);
      assert s == [s[0]] + s[1..];
    }
  }

  /** Filtering out one value removes exactly its occurrences. */
  lemma {:induction false} FilterOutCount<T(!new)>(s: seq<T>, x: T)
    ensures multiset(Filter(s, y => y != x)) == multiset(s)[x := 0]
  {
    if s != [] {
      FilterOutCount(s[1..], x);
      assert s == [s[0]] + s[1..];
    }
  }

  lemma {:induction false} FilterKeepsNoDuplicates<T(!new)>(s: seq<T>, keep: T -> bool)
    requires NoDuplicates(s)
    ensures NoDuplicates(Filter(s, keep))
  {
    if s != [] {
      FilterKeepsNoDuplicates(s[1..], keep);
      if keep(s[0]) {
        assert s[0] !in s[1..];
        assert s[0] !in Filter(s[1..], keep);
      }
    }
  }

  /** Appending a value not yet present keeps a list duplicate-free. */
  lemma AppendFreshNoDuplicates<T(!new)>(s: seq<T>, x: T)
    requires NoDuplicates(s) && x !in s
    ensures NoDuplicates(s + [x])
  {
  }

  /** The favourites toggle: a present value is removed everywhere, an absent
      one is appended at the end. */
  function Toggle<T(==,!new)>(s: seq<T>, x: T): (r: seq<T>)
    ensures x in r <==> x !in s
    ensures forall y :: y != x ==> (y in r <==> y in s)
    ensures x !in s ==> r == s + [x]
    ensures x in s ==> IsSubsequence(r, s)
    ensures x in s ==> multiset(r) == multiset(s)[x := 0]
  {
    FilterOutCount(s, x);
    if x in s then Filter(s, y => y != x) else s + [x]
  }

  /** Toggling an absent value twice gives back exactly the original list. */
  lemma ToggleTwiceAbsent<T(!new)>(s: seq<T>, x: T)
    requires x !in s
    ensures Toggle(Toggle(s, x), x) == s
  {
    FilterAppend(s, [x], y => y != x);
  }

  /** A value present in a duplicate-free list occurs exactly once. */
  lemma OccursOnce<T(!new)>(s: seq<T>, x: T)
    requires x in s && NoDuplicates(s)
    ensures multiset(s)[x] == 1
  {
    var i :| 0 <= i < |s| && s[i] == x;
    assert s == s[..i] + [x] + s[i+1..];
    assert x !in s[..i] && x !in s[i+1..];
    assert multiset(s) == multiset(s[..i]) + multiset{x} + multiset(s[i+1..]);
  }

  /** Toggling a present value twice on a duplicate-free list gives back the
      same elements, with `x` moved to the end. */
  lemma ToggleTwicePresent<T(!new)>(s: seq<T>, x: T)
    requires x in s && NoDuplicates(s)
    ensures Toggle(Toggle(s, x), x) == Filter(s, y => y != x) + [x]
    ensures multiset(Toggle(Toggle(s, x), x)) == multiset(s)
  {
    var removed := Filter(s, y => y != x);
    assert Toggle(s, x) == removed;
    assert x !in removed;
    assert Toggle(removed, x) == removed + [x];
    FilterOutCount(s, x);
    OccursOnce(s, x);
    assert multiset(removed + [x]) == multiset(s)[x := 0] + multiset{x};
  }

  /** Order is restored only for a value that was absent: toggling the first
      of two favourites twice moves it behind the other. */
  lemma ToggleTwiceReorders()
    ensures Toggle(Toggle(["bitcoin", "ethereum"], "bitcoin"), "bitcoin") == ["ethereum", "bitcoin"]
  {
    var s := ["bitcoin", "ethereum"];
    assert "bitcoin" in s;
    assert Filter(s, y => y != "bitcoin") == ["ethereum"];
  }

  /** The toggle never introduces a duplicate. */
  lemma ToggleKeepsNoDuplicates<T(!new)>(s: seq<T>, x: T)
    requires NoDuplicates(s)
    ensures NoDuplicates(Toggle(s, x))
  {
    if x in s {
      FilterKeepsNoDuplicates(s, y => y != x);
    }
  }
}
