/** Orders on values and the sorting that the source leaves to Python's `sorted`.

    Python compares strings by code point and lists element by element; both are the
    lexicographic order `LexLess` over an order on the elements.  `SortBy` is a stable
    sort, as `sorted` and `list.sort` are. */
module Ordering {

  /** A strict order in which "neither is less" is an equivalence: what a sort key induces. */
  ghost predicate StrictWeak<T(!new)>(lt: (T, T) -> bool) {
    && (forall a :: !lt(a, a))
    && (forall a, b, c :: lt(a, b) && lt(b, c) ==> lt(a, c))
    && (forall a, b, c :: !lt(a, b) && !lt(b, c) ==> !lt(a, c))
  }

  /** A strict order that tells any two different values apart. */
  ghost predicate StrictTotal<T(!new)>(lt: (T, T) -> bool) {
    && (forall a :: !lt(a, a))
    && (forall a, b, c :: lt(a, b) && lt(b, c) ==> lt(a, c))
    && (forall a, b :: a != b ==> lt(a, b) || lt(b, a))
  }

  lemma TotalIsWeak<T(!new)>(lt: (T, T) -> bool)
    requires StrictTotal(lt)
    ensures StrictWeak(lt)
  {
  }

  // ---------------------------------------------------------------- lexicographic order

  predicate LexLess<T(==)>(lt: (T, T) -> bool, a: seq<T>, b: seq<T>) {
    b != [] && (a == [] || (if a[0] != b[0] then lt(a[0], b[0]) else LexLess(lt, a[1..], b[1..])))
  }

  lemma {:induction false} LexTransitive<T(!new)>(lt: (T, T) -> bool, a: seq<T>, b: seq<T>, c: seq<T>)
    requires StrictTotal(lt) && LexLess(lt, a, b) && LexLess(lt, b, c)
    ensures LexLess(lt, a, c)
  {
    if a != [] && a[0] == b[0] && b[0] == c[0] {
      LexTransitive(lt, a[1..], b[1..], c[1..]);
    }
  }

  lemma {:induction false} LexTrichotomy<T(!new)>(lt: (T, T) -> bool, a: seq<T>, b: seq<T>)
    requires StrictTotal(lt)
    ensures !LexLess(lt, a, a)
    ensures a != b ==> LexLess(lt, a, b) || LexLess(lt, b, a)
  {
    if a != [] {
      if b != [] && a[0] == b[0] {
        LexTrichotomy(lt, a[1..], b[1..]);
        assert a == [a[0]] + a[1..] && b == [b[0]] + b[1..];
      } else {
        LexTrichotomy(lt, a[1..], a[1..]);
      }
    }
  }

  predicate CharLess(a: char, b: char) {
    a < b
  }

  predicate StringLess(a: string, b: string) {
    LexLess(CharLess, a, b)
  }

  predicate ListLess(a: seq<string>, b: seq<string>) {
    LexLess(StringLess, a, b)
  }

  lemma StringOrder()
    ensures StrictTotal(StringLess)
  {
    assert StrictTotal(CharLess);
    forall a, b, c | StringLess(a, b) && StringLess(b, c)
      ensures StringLess(a, c)
    {
      LexTransitive(CharLess, a, b, c);
    }
    forall a: string, b: string
      ensures !StringLess(a, a) && (a != b ==> StringLess(a, b) || StringLess(b, a))
    {
      LexTrichotomy(CharLess, a, b);
    }
  }

  /** A string comes first if it is a proper beginning of the other, or has the smaller character where they first differ. */
  lemma {:induction false} StringLessIff(a: string, b: string)
    ensures StringLess(a, b) <==> exists n: nat ::
      n <= |a| && n <= |b| && a[..n] == b[..n] && n < |b| && (n == |a| || (n < |a| && a[n] < b[n]))
  {
    if a != [] && b != [] && a[0] == b[0] {
      StringLessIff(a[1..], b[1..]);
      if n: nat :| n <= |a[1..]| && n < |b[1..]| && a[1..][..n] == b[1..][..n]
                   && (n == |a[1..]| || (n < |a[1..]| && a[1..][n] < b[1..][n])) {
        assert a[..n + 1] == [a[0]] + a[1..][..n] && b[..n + 1] == [b[0]] + b[1..][..n];
      }
      if n: nat :| n <= |a| && n < |b| && a[..n] == b[..n] && (n == |a| || (n < |a| && a[n] < b[n])) {
        assert n > 0 && a[1..][..n - 1] == a[..n][1..] && b[1..][..n - 1] == b[..n][1..];
      }
    } else {
      assert a[..0] == b[..0];
      forall n: nat | 0 < n <= |a| && n <= |b|
        ensures a[..n] != b[..n]
      {
        assert a[..n][0] == a[0] && b[..n][0] == b[0];
      }
    }
  }

  lemma ListOrder()
    ensures StrictTotal(ListLess)
  {
    StringOrder();
    forall a, b, c | ListLess(a, b) && ListLess(b, c)
      ensures ListLess(a, c)
    {
      LexTransitive(StringLess, a, b, c);
    }
    forall a: seq<string>, b: seq<string>
      ensures !ListLess(a, a) && (a != b ==> ListLess(a, b) || ListLess(b, a))
    {
      LexTrichotomy(StringLess, a, b);
    }
  }

  // ---------------------------------------------------------------- sorting

  /** No later element is less than an earlier one. */
  ghost predicate Sorted<T>(lt: (T, T) -> bool, s: seq<T>) {
    forall i, j :: 0 <= i < j < |s| ==> !lt(s[j], s[i])
  }

  /** Strictly increasing, hence without repetition. */
  ghost predicate Increasing<T>(lt: (T, T) -> bool, s: seq<T>) {
    forall i, j :: 0 <= i < j < |s| ==> lt(s[i], s[j])
  }

  function Insert<T(!new)>(lt: (T, T) -> bool, x: T, s: seq<T>): (r: seq<T>)
    requires StrictWeak(lt) && Sorted(lt, s)
    ensures multiset(r) == multiset([x]) + multiset(s)
    ensures Sorted(lt, r)
  {
    if s == [] || !lt(s[0], x) then
      [x] + s
    else
      var rest := Insert(lt, x, s[1..]);
      assert s == [s[0]] + s[1..];
      assert multiset([s[0]] + rest) == multiset([x]) + multiset(s);
      assert forall y :: y in rest ==> y in multiset(rest);
      assert forall y :: y in rest ==> !lt(y, s[0]);
      [s[0]] + rest
  }

  /** The list in order, equal keys in their original order. */
  function SortBy<T(!new)>(lt: (T, T) -> bool, s: seq<T>): (r: seq<T>)
    requires StrictWeak(lt)
    ensures multiset(r) == multiset(s)
    ensures Sorted(lt, r)
  {
    if s == [] then
      []
    else
      assert s == [s[0]] + s[1..];
      Insert(lt, s[0], SortBy(lt, s[1..]))
  }

  function Elements<T>(s: seq<T>): set<T> {
    set x | x in s
  }

  ghost predicate Distinct<T>(s: seq<T>) {
    forall i, j :: 0 <= i < j < |s| ==> s[i] != s[j]
  }

  lemma AppendDistinct<T>(s: seq<T>, x: T)
    requires Distinct(s) && x !in s
    ensures Distinct(s + [x])
  {
  }

  lemma {:induction false} DistinctMultiset<T>(s: seq<T>)
    requires Distinct(s)
    ensures forall x :: x in s ==> multiset(s)[x] == 1
  {
    if s != [] {
      assert s == [s[0]] + s[1..];
      DistinctMultiset(s[1..]);
      assert s[0] !in s[1..];
    }
  }

  lemma {:induction false} MultisetDistinct<T>(s: seq<T>)
    requires forall x :: multiset(s)[x] <= 1
    ensures Distinct(s)
  {
    if s != [] {
      var rest := s[1..];
      assert s == [s[0]] + rest;
      assert multiset(s) == multiset{s[0]} + multiset(rest);
      forall x
        ensures multiset(rest)[x] <= 1
      {
        assert multiset(rest)[x] <= multiset(s)[x];
      }
      MultisetDistinct(rest);
      assert multiset(s)[s[0]] == 1 + multiset(rest)[s[0]];
      assert s[0] !in rest;
    }
  }

  lemma SameElements<T>(a: seq<T>, b: seq<T>)
    requires multiset(a) == multiset(b)
    ensures forall x :: x in a <==> x in b
  {
    assert forall x :: x in a <==> x in multiset(a);
    assert forall x :: x in b <==> x in multiset(b);
  }

  lemma PermutationDistinct<T>(a: seq<T>, b: seq<T>)
    requires Distinct(a) && multiset(a) == multiset(b)
    ensures Distinct(b)
  {
    hide Distinct;
    DistinctMultiset(a);
    assert forall x :: x in a <==> x in multiset(a);
    forall x
      ensures multiset(b)[x] <= 1
    {
      assert multiset(b)[x] == multiset(a)[x];
    }
    MultisetDistinct(b);
  }

  /** Sorting a list without repetition gives the one increasing list of its elements. */
  lemma SortOfDistinct<T(!new)>(lt: (T, T) -> bool, s: seq<T>)
    requires StrictTotal(lt) && StrictWeak(lt) && Distinct(s)
    ensures Increasing(lt, SortBy(lt, s))
    ensures forall x :: x in SortBy(lt, s) <==> x in s
  {
    hide SortBy, StrictWeak;
    SameElements(SortBy(lt, s), s);
    PermutationDistinct(s, SortBy(lt, s));
  }

  lemma NonEmptyTogether<T>(a: seq<T>, b: seq<T>)
    requires forall x :: x in a ==> x in b
    ensures a != [] ==> b != []
  {
    if a != [] {
      assert a[0] in b;
    }
  }

  lemma {:induction false} IncreasingIsUnique<T(!new)>(lt: (T, T) -> bool, a: seq<T>, b: seq<T>)
    requires StrictTotal(lt) && Increasing(lt, a) && Increasing(lt, b)
    requires forall x :: x in a <==> x in b
    ensures a == b
  {
    NonEmptyTogether(a, b);
    NonEmptyTogether(b, a);
    if a != [] {
      assert a[0] in b && b[0] in a;
      assert a[0] == b[0];
      forall x
        ensures x in a[1..] <==> x in b[1..]
      {
        assert x in a[1..] ==> x in a && x != a[0];
        assert x in b[1..] ==> x in b && x != b[0];
      }
      IncreasingIsUnique(lt, a[1..], b[1..]);
      assert a == [a[0]] + a[1..] && b == [b[0]] + b[1..];
    }
  }

  // ---------------------------------------------------------------- sorting a set

  lemma {:induction false} LeastExists<T(!new)>(lt: (T, T) -> bool, s: set<T>)
    requires StrictTotal(lt) && s != {}
    ensures exists x :: x in s && forall y :: y in s && y != x ==> lt(x, y)
    decreases |s|
  {
    var z :| z in s;
    if s == {z} {
    } else {
      var rest := s - {z};
      assert s == rest + {z};
      LeastExists(lt, rest);
      var x :| x in rest && forall y :: y in rest && y != x ==> lt(x, y);
      var least := if lt(x, z) then x else z;
      assert least in s && forall y :: y in s && y != least ==> lt(least, y);
    }
  }

  /** `sorted` of a set: the increasing list of its elements. */
  function Listing<T(!new, ==)>(lt: (T, T) -> bool, s: set<T>): (r: seq<T>)
    requires StrictTotal(lt)
    ensures Increasing(lt, r)
    ensures forall x :: x in r <==> x in s
    ensures |r| == |s|
  {
    if s == {} then
      []
    else
      LeastExists(lt, s);
      var x :| x in s && forall y :: y in s && y != x ==> lt(x, y);
      [x] + Listing(lt, s - {x})
  }
}
