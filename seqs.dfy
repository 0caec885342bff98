// The array updates the store applies to a document's reference lists:
// `$pull` with `$in`, `$push` with `$each`, `$addToSet`, and the filtering
// a `find` performs over a collection.

module Seqs {

  /** The elements of `s` satisfying `p`, in order. */
  function Filter<T(!new)>(s: seq<T>, p: T -> bool): (r: seq<T>)
    ensures forall x :: x in r <==> x in s && p(x)
    ensures |r| <= |s|
  {
    if s == [] then []
    else if p(s[0]) then [s[0]] + Filter(s[1..], p)
    else Filter(s[1..], p)
  }

  /** Filtering works element by element, so the survivors keep their order. */
  lemma {:induction false} FilterAppend<T(!new)>(a: seq<T>, b: seq<T>, p: T -> bool)
    ensures Filter(a + b, p) == Filter(a, p) + Filter(b, p)
  {
    if a != [] {
      var ab := a + b;
      assert ab[0] == a[0] && ab[1..] == a[1..] + b;
      FilterAppend(a[1..], b, p);
      if p(a[0]) {
        assert Filter(ab, p) == [a[0]] + Filter(ab[1..], p);
        assert [a[0]] + (Filter(a[1..], p) + Filter(b, p)) == ([a[0]] + Filter(a[1..], p)) + Filter(b, p);
      } else {
        assert Filter(ab, p) == Filter(ab[1..], p);
      }
    } else {
      assert a + b == b;
    }
  }

  /** A kept value keeps every occurrence; a dropped one loses them all. */
  lemma {:induction false} FilterCount<T(!new)>(s: seq<T>, p: T -> bool, x: T)
    ensures multiset(Filter(s, p))[x] == if p(x) then multiset(s)[x] else 0
  {
    if s != [] {
      FilterCount(s[1..], p, x);
      assert s == [s[0]] + s[1..];
    }
  }

  /** Filtering keeps everything when every element qualifies. */
  lemma {:induction false} FilterAll<T(!new)>(s: seq<T>, p: T -> bool)
    requires forall x :: x in s ==> p(x)
    ensures Filter(s, p) == s
  {
    if s != [] {
      FilterAll(s[1..], p);
    }
  }

  /** Filters that agree on every element agree. */
  lemma {:induction false} FilterSame<T(!new)>(s: seq<T>, p: T -> bool, q: T -> bool)
    requires forall x :: x in s ==> p(x) == q(x)
    ensures Filter(s, p) == Filter(s, q)
  {
    if s != [] {
      FilterSame(s[1..], p, q);
    }
  }

  /** `$pull: { field: { $in: xs } }`: every occurrence of every element of `xs` goes. */
  function Pull<T(==,!new)>(s: seq<T>, xs: seq<T>): (r: seq<T>)
    ensures forall x :: x in r <==> x in s && x !in xs
    ensures |r| <= |s|
  {
    if s == [] then []
    else if s[0] in xs then Pull(s[1..], xs)
    else [s[0]] + Pull(s[1..], xs)
  }

  /** Each pulled value loses every occurrence; every other value keeps all of its. */
  lemma {:induction false} PullCount<T(!new)>(s: seq<T>, xs: seq<T>, x: T)
    ensures multiset(Pull(s, xs))[x] == if x in xs then 0 else multiset(s)[x]
  {
    if s != [] {
      PullCount(s[1..], xs, x);
      assert s == [s[0]] + s[1..];
    }
  }

  /** Pulling works element by element, so the survivors keep their order. */
  lemma {:induction false} PullAppend<T(!new)>(a: seq<T>, b: seq<T>, xs: seq<T>)
    ensures Pull(a + b, xs) == Pull(a, xs) + Pull(b, xs)
  {
    if a != [] {
      var ab := a + b;
      assert ab[0] == a[0] && ab[1..] == a[1..] + b;
      PullAppend(a[1..], b, xs);
      if a[0] in xs {
        assert Pull(ab, xs) == Pull(ab[1..], xs);
        assert Pull(a, xs) == Pull(a[1..], xs);
      } else {
        assert Pull(ab, xs) == [a[0]] + Pull(ab[1..], xs);
        assert Pull(a, xs) == [a[0]] + Pull(a[1..], xs);
        assert [a[0]] + (Pull(a[1..], xs) + Pull(b, xs)) == ([a[0]] + Pull(a[1..], xs)) + Pull(b, xs);
      }
    } else {
      assert a + b == b;
    }
  }

  /** Pulling what is not there changes nothing. */
  lemma {:induction false} PullAbsent<T(!new)>(s: seq<T>, xs: seq<T>)
    requires forall x :: x in xs ==> x !in s
    ensures Pull(s, xs) == s
  {
    if s != [] {
      PullAbsent(s[1..], xs);
    }
  }

  /** `$addToSet`: append unless already present. */
  function SetAdd<T(==,!new)>(s: seq<T>, x: T): (r: seq<T>)
    ensures forall y :: y in r <==> y in s || y == x
    ensures multiset(r)[x] == if x in s then multiset(s)[x] else 1
  {
    if x in s then s else s + [x]
  }

  /** Pulling what `$addToSet` just added to a list without it gives the list back. */
  lemma SetAddThenPull<T(!new)>(s: seq<T>, x: T)
    requires x !in s
    ensures Pull(SetAdd(s, x), [x]) == s
  {
    PullAppend(s, [x], [x]);
    PullAbsent(s, [x]);
    assert Pull([x], [x]) == [];
  }

  predicate NoDup<T(==)>(s: seq<T>) {
    forall i, j :: 0 <= i < j < |s| ==> s[i] != s[j]
  }

  /** `$addToSet` never introduces a duplicate. */
  lemma SetAddNoDup<T(!new)>(s: seq<T>, x: T)
    requires NoDup(s)
    ensures NoDup(SetAdd(s, x))
  {
  }
}
