/** Sorting by a strict total order. The standard library's `sort.Slice` is represented by an
    insertion sort; `SortedUnique` says that on distinct elements the order alone fixes the
    result, so any correct sort returns the same sequence. */
module Sorting {

  ghost predicate StrictTotal<T(!new)>(less: (T, T) -> bool, domain: set<T>) {
    && (forall x | x in domain :: !less(x, x))
    && (forall x, y | x in domain && y in domain && x != y :: less(x, y) || less(y, x))
    && (forall x, y, z | x in domain && y in domain && z in domain && less(x, y) && less(y, z) :: less(x, z))
  }

  ghost predicate Sorted<T>(less: (T, T) -> bool, s: seq<T>) {
    forall i, j | 0 <= i < j < |s| :: less(s[i], s[j])
  }

  predicate Distinct<T(==)>(s: seq<T>) {
    forall i, j | 0 <= i < j < |s| :: s[i] != s[j]
  }

  function Elements<T(!new)>(s: seq<T>): (e: set<T>)
    ensures forall x :: x in e <==> x in s
    ensures s != [] ==> s[0] in e
  {
    set x | x in s
  }

  function Insert<T>(less: (T, T) -> bool, x: T, s: seq<T>): (r: seq<T>)
    ensures |r| == |s| + 1
    ensures multiset(r) == multiset(s) + multiset{x}
  {
    if s == [] then [x]
    else if less(x, s[0]) then [x] + s
    else
      assert s == [s[0]] + s[1..];
      [s[0]] + Insert(less, x, s[1..])
  }

  function Sort<T>(less: (T, T) -> bool, s: seq<T>): (r: seq<T>)
    ensures |r| == |s|
    ensures multiset(r) == multiset(s)
  {
    if s == [] then []
    else
      assert s == [s[0]] + s[1..];
      Insert(less, s[0], Sort(less, s[1..]))
  }

  lemma SameMembers<T(!new)>(a: seq<T>, b: seq<T>)
    requires multiset(a) == multiset(b)
    ensures forall x :: x in a <==> x in b
    ensures Elements(a) == Elements(b)
  {
    forall x ensures x in a <==> x in b {
      assert x in a <==> x in multiset(a);
      assert x in b <==> x in multiset(b);
    }
  }

  lemma InsertMembers<T(!new)>(less: (T, T) -> bool, x: T, s: seq<T>)
    ensures forall y :: y in Insert(less, x, s) <==> y in s || y == x
  {
    SameMembers(Insert(less, x, s), s + [x]);
  }

  lemma PrependSorted<T>(less: (T, T) -> bool, head: T, s: seq<T>)
    requires Sorted(less, s) && forall y | y in s :: less(head, y)
    ensures Sorted(less, [head] + s)
  {
  }

  lemma HeadBefore<T(!new)>(less: (T, T) -> bool, x: T, s: seq<T>, domain: set<T>, y: T)
    requires StrictTotal(less, domain) && x in domain && Elements(s) <= domain && Sorted(less, s)
    requires s != [] && less(x, s[0]) && y in s
    ensures less(x, y)
  {
    var k :| 0 <= k < |s| && s[k] == y;
    assert s[0] in s && y in Elements(s);
  }

  lemma {:induction false} InsertSorted<T(!new)>(less: (T, T) -> bool, x: T, s: seq<T>, domain: set<T>)
    requires StrictTotal(less, domain) && x in domain && Elements(s) <= domain
    requires Sorted(less, s) && x !in s
    ensures Sorted(less, Insert(less, x, s))
  {
    if s == [] {
    } else if less(x, s[0]) {
      forall y | y in s ensures less(x, y) {
        HeadBefore(less, x, s, domain, y);
      }
      PrependSorted(less, x, s);
    } else {
      assert s[0] in s && forall y :: y in s[1..] ==> y in s;
      InsertSorted(less, x, s[1..], domain);
      InsertMembers(less, x, s[1..]);
      PrependSorted(less, s[0], Insert(less, x, s[1..]));
    }
  }

  lemma {:induction false} SortSorted<T(!new)>(less: (T, T) -> bool, s: seq<T>, domain: set<T>)
    requires StrictTotal(less, domain) && Elements(s) <= domain && Distinct(s)
    ensures Sorted(less, Sort(less, s))
  {
    if s != [] {
      assert s[0] in s && forall y :: y in s[1..] ==> y in s;
      SortSorted(less, s[1..], domain);
      SameMembers(Sort(less, s[1..]), s[1..]);
      InsertSorted(less, s[0], Sort(less, s[1..]), domain);
    }
  }

  /** No element stands behind one that it precedes; elements may repeat. */
  ghost predicate NoInversion<T>(less: (T, T) -> bool, s: seq<T>) {
    forall i, j | 0 <= i < j < |s| :: !less(s[j], s[i])
  }

  lemma PrependOrdered<T>(less: (T, T) -> bool, head: T, s: seq<T>)
    requires NoInversion(less, s) && forall y | y in s :: !less(y, head)
    ensures NoInversion(less, [head] + s)
  {
  }

  lemma NotBehind<T(!new)>(less: (T, T) -> bool, x: T, s: seq<T>, domain: set<T>, y: T)
    requires StrictTotal(less, domain) && x in domain && Elements(s) <= domain && NoInversion(less, s)
    requires s != [] && less(x, s[0]) && y in s
    ensures !less(y, x)
  {
    var k :| 0 <= k < |s| && s[k] == y;
    assert s[0] in s && y in Elements(s) && s[0] in Elements(s);
  }

  lemma {:induction false} InsertOrdered<T(!new)>(less: (T, T) -> bool, x: T, s: seq<T>, domain: set<T>)
    requires StrictTotal(less, domain) && x in domain && Elements(s) <= domain && NoInversion(less, s)
    ensures NoInversion(less, Insert(less, x, s))
  {
    if s == [] {
    } else if less(x, s[0]) {
      forall y | y in s ensures !less(y, x) {
        NotBehind(less, x, s, domain, y);
      }
      PrependOrdered(less, x, s);
    } else {
      assert s[0] in s && forall y :: y in s[1..] ==> y in s;
      InsertOrdered(less, x, s[1..], domain);
      InsertMembers(less, x, s[1..]);
      PrependOrdered(less, s[0], Insert(less, x, s[1..]));
    }
  }

  lemma {:induction false} SortOrdered<T(!new)>(less: (T, T) -> bool, s: seq<T>, domain: set<T>)
    requires StrictTotal(less, domain) && Elements(s) <= domain
    ensures NoInversion(less, Sort(less, s))
  {
    if s != [] {
      assert s[0] in s && forall y :: y in s[1..] ==> y in s;
      SortOrdered(less, s[1..], domain);
      SameMembers(Sort(less, s[1..]), s[1..]);
      InsertOrdered(less, s[0], Sort(less, s[1..]), domain);
    }
  }

  lemma SortedDistinct<T(!new)>(less: (T, T) -> bool, s: seq<T>, domain: set<T>)
    requires StrictTotal(less, domain) && Elements(s) <= domain && Sorted(less, s)
    ensures Distinct(s)
  {
    forall i, j | 0 <= i < j < |s| ensures s[i] != s[j] {
      assert s[i] in s;
    }
  }

  /** The order alone fixes a sorted sequence: neither the sort nor the order in which the
      elements were presented matters. */
  lemma {:induction false} SortedUnique<T(!new)>(less: (T, T) -> bool, a: seq<T>, b: seq<T>, domain: set<T>)
    requires StrictTotal(less, domain) && Elements(a) == Elements(b) && Elements(a) <= domain
    requires Sorted(less, a) && Sorted(less, b)
    ensures a == b
  {
    if a != [] {
      assert a[0] in a;
      assert b != [];
      assert b[0] in b;
      HeadLeast(less, a, b[0]);
      HeadLeast(less, b, a[0]);
      assert a[0] in Elements(a) && b[0] in Elements(b);
      assert a[0] == b[0];
      TailElements(less, a, domain);
      TailElements(less, b, domain);
      SortedUnique(less, a[1..], b[1..], domain);
    }
  }

  lemma HeadLeast<T>(less: (T, T) -> bool, s: seq<T>, x: T)
    requires Sorted(less, s) && x in s
    ensures x == s[0] || less(s[0], x)
  {
    var k :| 0 <= k < |s| && s[k] == x;
  }

  lemma TailElements<T(!new)>(less: (T, T) -> bool, s: seq<T>, domain: set<T>)
    requires s != [] && StrictTotal(less, domain) && Elements(s) <= domain && Sorted(less, s)
    ensures Elements(s[1..]) == Elements(s) - {s[0]}
  {
    SortedDistinct(less, s, domain);
    forall x ensures x in Elements(s[1..]) <==> x in Elements(s) - {s[0]} {
      if x in s && x != s[0] {
        var k :| 0 <= k < |s| && s[k] == x;
        assert s[1..][k - 1] == x;
      }
    }
  }
}
