/** Stable sorting by a total preorder, and when sorting forgets the order of its input. */
module Sorting {

  ghost predicate Preorder<T(!new)>(le: (T, T) -> bool) {
    && (forall a, b :: le(a, b) || le(b, a))
    && (forall a, b, c :: le(a, b) && le(b, c) ==> le(a, c))
  }

  ghost predicate Sorted<T>(s: seq<T>, le: (T, T) -> bool) {
    forall i, j :: 0 <= i < j < |s| ==> le(s[i], s[j])
  }

  /** Only equal elements of `s` are ranked equal. */
  ghost predicate NoTies<T>(s: seq<T>, le: (T, T) -> bool) {
    forall a, b :: a in s && b in s && le(a, b) && le(b, a) ==> a == b
  }

  function Insert<T>(x: T, s: seq<T>, le: (T, T) -> bool): (r: seq<T>)
    ensures |r| == |s| + 1
  {
    if s == [] || le(x, s[0]) then [x] + s else [s[0]] + Insert(x, s[1..], le)
  }

  /** Stable sort: elements ranked equal keep their order. */
  function SortBy<T>(s: seq<T>, le: (T, T) -> bool): (r: seq<T>)
    ensures |r| == |s|
  {
    if s == [] then [] else Insert(s[0], SortBy(s[1..], le), le)
  }

  lemma {:induction false} InsertKeepsAll<T>(x: T, s: seq<T>, le: (T, T) -> bool)
    ensures multiset(Insert(x, s, le)) == multiset(s) + multiset{x}
  {
    if s != [] && !le(x, s[0]) {
      InsertKeepsAll(x, s[1..], le);
      assert s == [s[0]] + s[1..];
    }
  }

  lemma {:induction false} InsertSorted<T(!new)>(x: T, s: seq<T>, le: (T, T) -> bool)
    requires Preorder(le) && Sorted(s, le)
    ensures Sorted(Insert(x, s, le), le)
  {
    if s != [] && !le(x, s[0]) {
      var rest := Insert(x, s[1..], le);
      InsertSorted(x, s[1..], le);
      InsertKeepsAll(x, s[1..], le);
      forall j | 0 <= j < |rest| ensures le(s[0], rest[j]) {
        assert rest[j] in multiset(rest);
      }
    }
  }

  /** A sorted permutation of the input. */
  lemma {:induction false} SortByIsSorted<T(!new)>(s: seq<T>, le: (T, T) -> bool)
    requires Preorder(le)
    ensures Sorted(SortBy(s, le), le)
    ensures multiset(SortBy(s, le)) == multiset(s)
  {
    if s != [] {
      SortByIsSorted(s[1..], le);
      InsertSorted(s[0], SortBy(s[1..], le), le);
      InsertKeepsAll(s[0], SortBy(s[1..], le), le);
      assert s == [s[0]] + s[1..];
    }
  }

  /** The elements ranked equal to `x`, in order. */
  function Ties<T>(s: seq<T>, x: T, le: (T, T) -> bool): (r: seq<T>) {
    if s == [] then [] else Tie(s[0], x, le) + Ties(s[1..], x, le)
  }

  function Tie<T>(y: T, x: T, le: (T, T) -> bool): (r: seq<T>) {
    if le(x, y) && le(y, x) then [y] else []
  }

  lemma {:induction false} InsertStable<T(!new)>(y: T, s: seq<T>, x: T, le: (T, T) -> bool)
    requires Preorder(le)
    ensures Ties(Insert(y, s, le), x, le) == Ties([y] + s, x, le)
  {
    assert ([y] + s)[1..] == s;
    if s != [] && !le(y, s[0]) {
      InsertStable(y, s[1..], x, le);
      assert ([y] + s[1..])[1..] == s[1..];
      assert Insert(y, s, le) == [s[0]] + Insert(y, s[1..], le);
      assert ([s[0]] + Insert(y, s[1..], le))[1..] == Insert(y, s[1..], le);
      assert Ties(s, x, le) == Tie(s[0], x, le) + Ties(s[1..], x, le);
    }
  }

  /** Elements ranked equal keep their relative order. */
  lemma {:induction false} SortByIsStable<T(!new)>(s: seq<T>, x: T, le: (T, T) -> bool)
    requires Preorder(le)
    ensures Ties(SortBy(s, le), x, le) == Ties(s, x, le)
  {
    if s != [] {
      var rest := SortBy(s[1..], le);
      SortByIsStable(s[1..], x, le);
      InsertStable(s[0], rest, x, le);
      assert ([s[0]] + rest)[1..] == rest;
    }
  }

  lemma SameFirst<T(!new)>(a: seq<T>, b: seq<T>, le: (T, T) -> bool)
    requires Preorder(le) && Sorted(a, le) && Sorted(b, le) && NoTies(a, le)
    requires multiset(a) == multiset(b) && a != [] && b != []
    ensures a[0] == b[0]
  {
    assert a[0] in multiset(b) && b[0] in multiset(a);
    assert le(a[0], a[0]) && le(b[0], b[0]);
  }

  lemma TailSorted<T>(s: seq<T>, le: (T, T) -> bool)
    requires s != [] && Sorted(s, le)
    ensures Sorted(s[1..], le) && (NoTies(s, le) ==> NoTies(s[1..], le))
  {
  }

  /** Without ties there is only one sorted arrangement. */
  lemma {:induction false} SortedUnique<T(!new)>(a: seq<T>, b: seq<T>, le: (T, T) -> bool)
    requires Preorder(le) && Sorted(a, le) && Sorted(b, le) && NoTies(a, le)
    requires multiset(a) == multiset(b)
    ensures a == b
  {
    assert |a| == |multiset(a)| == |multiset(b)| == |b|;
    if a != [] {
      SameFirst(a, b, le);
      SameTails(a, b);
      TailSorted(a, le);
      TailSorted(b, le);
      SortedUnique(a[1..], b[1..], le);
      FirstAndTail(a, b);
    }
  }

  lemma SameTails<T>(a: seq<T>, b: seq<T>)
    requires a != [] && b != [] && a[0] == b[0] && multiset(a) == multiset(b)
    ensures multiset(a[1..]) == multiset(b[1..])
  {
    SameCounts(a, b, 0, 0);
    assert Without(a, 0) == a[1..] && Without(b, 0) == b[1..];
  }

  lemma FirstAndTail<T>(a: seq<T>, b: seq<T>)
    requires a != [] && b != [] && a[0] == b[0] && a[1..] == b[1..]
    ensures a == b
  {
    assert a == [a[0]] + a[1..] && b == [b[0]] + b[1..];
  }

  /** Without ties sorting forgets exactly the order: two inputs sort alike if and only if they are permutations. */
  lemma SortForgetsOrder<T(!new)>(a: seq<T>, b: seq<T>, le: (T, T) -> bool)
    requires Preorder(le) && NoTies(a, le)
    ensures SortBy(a, le) == SortBy(b, le) <==> multiset(a) == multiset(b)
  {
    SortByIsSorted(a, le);
    SortByIsSorted(b, le);
    if multiset(a) == multiset(b) {
      forall x | x in SortBy(a, le) ensures x in a {
        assert x in multiset(SortBy(a, le));
      }
      SortedUnique(SortBy(a, le), SortBy(b, le), le);
    }
  }

  // ---- images of permutations ----

  function Mapped<S, T>(s: seq<S>, f: S -> T): (r: seq<T>)
    ensures |r| == |s| && forall i :: 0 <= i < |s| ==> r[i] == f(s[i])
  {
    if s == [] then [] else [f(s[0])] + Mapped(s[1..], f)
  }

  function Without<T>(s: seq<T>, k: nat): (r: seq<T>)
    requires k < |s|
    ensures |r| == |s| - 1
  {
    s[..k] + s[k + 1..]
  }

  lemma WithoutCounts<T>(s: seq<T>, k: nat)
    requires k < |s|
    ensures multiset(s) == multiset(Without(s, k)) + multiset{s[k]}
  {
    assert s == s[..k] + [s[k]] + s[k + 1..];
  }

  lemma {:induction false} MappedWithout<S, T>(s: seq<S>, k: nat, f: S -> T)
    requires k < |s|
    ensures Mapped(Without(s, k), f) == Without(Mapped(s, f), k)
  {
  }

  lemma MappedCounts<S, T>(s: seq<S>, k: nat, f: S -> T)
    requires k < |s|
    ensures multiset(Mapped(s, f)) == multiset(Mapped(Without(s, k), f)) + multiset{f(s[k])}
  {
    MappedWithout(s, k, f);
    WithoutCounts(Mapped(s, f), k);
  }

  lemma SameCounts<T>(a: seq<T>, b: seq<T>, j: nat, k: nat)
    requires j < |a| && k < |b| && a[j] == b[k]
    ensures multiset(a) == multiset(b) <==> multiset(Without(a, j)) == multiset(Without(b, k))
  {
    WithoutCounts(a, j);
    WithoutCounts(b, k);
    assert multiset(Without(a, j)) == multiset(a) - multiset{a[j]};
    assert multiset(Without(b, k)) == multiset(b) - multiset{b[k]};
  }

  lemma Position<T>(s: seq<T>, x: T) returns (k: nat)
    requires x in multiset(s)
    ensures k < |s| && s[k] == x
  {
    k :| 0 <= k < |s| && s[k] == x;
  }

  /** The images of a permutation are a permutation of the images. */
  lemma {:induction false} MappedPermutation<S, T>(a: seq<S>, b: seq<S>, f: S -> T)
    requires multiset(a) == multiset(b)
    ensures multiset(Mapped(a, f)) == multiset(Mapped(b, f))
    decreases |a|
  {
    assert |a| == |multiset(a)| == |multiset(b)| == |b|;
    if a != [] {
      var k := Position(b, a[0]);
      SameCounts(a, b, 0, k);
      MappedPermutation(Without(a, 0), Without(b, k), f);
      MappedCounts(a, 0, f);
      MappedCounts(b, k, f);
    }
  }

  predicate Distinct<T(==)>(s: seq<T>) {
    forall i, j :: 0 <= i < j < |s| ==> s[i] != s[j]
  }

  lemma WithoutDistinct<T>(s: seq<T>, k: nat)
    requires k < |s| && Distinct(s)
    ensures Distinct(Without(s, k))
    ensures forall x :: x in Without(s, k) <==> x in s && x != s[k]
  {
    var others := Without(s, k);
    assert forall i :: 0 <= i < |others| ==> others[i] == if i < k then s[i] else s[i + 1];
    forall x | x in s && x != s[k] ensures x in others {
      var i :| 0 <= i < |s| && s[i] == x;
      assert others[if i < k then i else i - 1] == x;
    }
  }

  /** Two lists of the same distinct elements are permutations of each other. */
  lemma {:induction false} SameElements<T>(a: seq<T>, b: seq<T>)
    requires Distinct(a) && Distinct(b) && forall x :: x in a <==> x in b
    ensures multiset(a) == multiset(b)
    decreases |a|
  {
    if a != [] {
      assert a[0] in b;
      var k := Position(b, a[0]);
      WithoutDistinct(a, 0);
      WithoutDistinct(b, k);
      SameElements(Without(a, 0), Without(b, k));
      SameCounts(a, b, 0, k);
    } else if b != [] {
      FirstIn(b);
    }
  }

  lemma FirstIn<T>(s: seq<T>)
    requires s != []
    ensures s[0] in s
  {
  }
}
