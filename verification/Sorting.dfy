/**
 Sorted sequences and the one fact every user of a sort relies on here: under a
 total order, the sorted arrangement of a multiset is unique. So a method may
 collect map keys in any order and sort them with any algorithm, and its result
 is still a function of the keys.
 */
module Sorting {

  ghost predicate TotalOrder<T(!new)>(le: (T, T) -> bool) {
    && (forall x, y :: le(x, y) || le(y, x))
    && (forall x, y :: le(x, y) && le(y, x) ==> x == y)
    && (forall x, y, z :: le(x, y) && le(y, z) ==> le(x, z))
  }

  ghost predicate Sorted<T>(le: (T, T) -> bool, s: seq<T>) {
    forall i, j | 0 <= i < j < |s| :: le(s[i], s[j])
  }

  ghost predicate NoDup<T>(s: seq<T>) {
    forall i, j | 0 <= i < j < |s| :: s[i] != s[j]
  }

  /** `s` lists the members of `xs`, each exactly once. */
  ghost predicate Lists<T(!new)>(s: seq<T>, xs: set<T>) {
    NoDup(s) && forall x :: x in s <==> x in xs
  }

  function Insert<T>(le: (T, T) -> bool, x: T, s: seq<T>): (r: seq<T>)
    ensures |r| == |s| + 1
    ensures multiset(r) == multiset(s) + multiset{x}
  {
    if s == [] || le(x, s[0]) then
      [x] + s
    else
      assert s == [s[0]] + s[1..];
      [s[0]] + Insert(le, x, s[1..])
  }

  lemma InsertMembers<T(!new)>(le: (T, T) -> bool, x: T, s: seq<T>)
    ensures forall y :: y in Insert(le, x, s) <==> y in s || y == x
  {
    var r := Insert(le, x, s);
    forall y ensures y in r <==> y in s || y == x {
      assert y in r <==> y in multiset(r);
      assert y in s <==> y in multiset(s);
    }
  }

  lemma {:induction false} InsertSorted<T(!new)>(le: (T, T) -> bool, x: T, s: seq<T>)
    requires TotalOrder(le) && Sorted(le, s)
    ensures Sorted(le, Insert(le, x, s))
  {
    if s == [] || le(x, s[0]) {
    } else {
      InsertSorted(le, x, s[1..]);
      InsertMembers(le, x, s[1..]);
      var r := Insert(le, x, s[1..]);
      forall k | 0 <= k < |r| ensures le(s[0], r[k]) {
        assert r[k] in r;
      }
    }
  }

  /** The library sorts of the program (`sort.Slice`, `sort.Strings`). */
  function Sort<T>(le: (T, T) -> bool, s: seq<T>): (r: seq<T>)
    ensures multiset(r) == multiset(s)
  {
    if s == [] then []
    else
      assert s == [s[0]] + s[1..];
      Insert(le, s[0], Sort(le, s[1..]))
  }

  lemma {:induction false} SortSorts<T(!new)>(le: (T, T) -> bool, s: seq<T>)
    requires TotalOrder(le)
    ensures Sorted(le, Sort(le, s)) && |Sort(le, s)| == |s|
  {
    if s != [] {
      SortSorts(le, s[1..]);
      InsertSorted(le, s[0], Sort(le, s[1..]));
    }
  }

  /** The first of a sorted sequence is least. */
  lemma LeastFirst<T(!new)>(le: (T, T) -> bool, a: seq<T>, x: T)
    requires TotalOrder(le) && Sorted(le, a) && x in a
    ensures le(a[0], x)
  {
    var k :| 0 <= k < |a| && a[k] == x;
    assert le(x, x);
  }

  lemma SameFirst<T(!new)>(le: (T, T) -> bool, a: seq<T>, b: seq<T>)
    requires TotalOrder(le) && Sorted(le, a) && Sorted(le, b)
    requires multiset(a) == multiset(b) && a != []
    ensures b != [] && a[0] == b[0]
  {
    assert a[0] in multiset(b);
    assert b[0] in multiset(a);
    LeastFirst(le, a, b[0]);
    LeastFirst(le, b, a[0]);
    hide Sorted;
  }

  lemma TailMultiset<T>(a: seq<T>)
    requires a != []
    ensures multiset(a[1..]) == multiset(a) - multiset{a[0]}
  {
    assert a == [a[0]] + a[1..];
  }

  /** Two sorted arrangements of the same elements are the same sequence. */
  lemma {:induction false} SortedUnique<T(!new)>(le: (T, T) -> bool, a: seq<T>, b: seq<T>)
    requires TotalOrder(le) && Sorted(le, a) && Sorted(le, b)
    requires multiset(a) == multiset(b)
    ensures a == b
  {
    if a == [] {
      assert |multiset(b)| == 0;
    } else {
      SameFirst(le, a, b);
      hide TotalOrder;
      assert a == [a[0]] + a[1..] && b == [b[0]] + b[1..];
      TailMultiset(a);
      TailMultiset(b);
      SortedUnique(le, a[1..], b[1..]);
    }
  }

  lemma TailLists<T(!new)>(s: seq<T>, xs: set<T>)
    requires Lists(s, xs) && s != []
    ensures s[0] in xs && Lists(s[1..], xs - {s[0]})
  {
    assert s[0] in s;
    var t := s[1..];
    forall y ensures y in t <==> y in xs - {s[0]} {
      if y in t {
        var k :| 0 <= k < |t| && t[k] == y;
        assert s[k + 1] == y;
      }
      if y in xs - {s[0]} {
        assert y in s;
      }
    }
  }

  /** A duplicate-free listing of a set has that set as its multiset. */
  lemma {:induction false} ListsMultiset<T(!new)>(s: seq<T>, xs: set<T>)
    requires Lists(s, xs)
    ensures multiset(s) == multiset(xs) && |s| == |xs|
  {
    if s == [] {
      assert xs == {};
    } else {
      TailLists(s, xs);
      ListsMultiset(s[1..], xs - {s[0]});
      assert s == [s[0]] + s[1..] && xs == (xs - {s[0]}) + {s[0]};
    }
  }

  /** Sorted listings of one set coincide. */
  lemma SortedListingUnique<T(!new)>(le: (T, T) -> bool, a: seq<T>, b: seq<T>, xs: set<T>)
    requires TotalOrder(le) && Sorted(le, a) && Sorted(le, b)
    requires Lists(a, xs) && Lists(b, xs)
    ensures a == b
  {
    ListsMultiset(a, xs);
    ListsMultiset(b, xs);
    SortedUnique(le, a, b);
  }

  /** Sorting a listing gives a sorted listing. */
  lemma SortLists<T(!new)>(le: (T, T) -> bool, s: seq<T>, xs: set<T>)
    requires TotalOrder(le) && Lists(s, xs)
    ensures Lists(Sort(le, s), xs) && Sorted(le, Sort(le, s))
  {
    var r := Sort(le, s);
    SortSorts(le, s);
    ListsMultiset(s, xs);
    MultisetLists(r, xs);
  }

  lemma {:induction false} MultisetLists<T(!new)>(s: seq<T>, xs: set<T>)
    requires multiset(s) == multiset(xs)
    ensures Lists(s, xs)
  {
    SameMembers(s, xs);
    if s != [] {
      var x := s[0];
      assert x in s;
      TailMultiset(s);
      assert multiset(xs - {x}) == multiset(xs) - multiset{x};
      MultisetLists(s[1..], xs - {x});
      ConsNoDup(s, xs);
    }
  }

  lemma SameMembers<T(!new)>(s: seq<T>, xs: set<T>)
    requires multiset(s) == multiset(xs)
    ensures forall x :: x in s <==> x in xs
  {
    forall x ensures x in s <==> x in xs {
      assert x in s <==> x in multiset(s);
    }
  }

  lemma ConsNoDup<T(!new)>(s: seq<T>, xs: set<T>)
    requires s != [] && Lists(s[1..], xs - {s[0]})
    ensures NoDup(s)
  {
    forall i, j | 0 <= i < j < |s| ensures s[i] != s[j] {
      assert s[j] == s[1..][j - 1];
      if i == 0 {
        assert s[1..][j - 1] in s[1..];
      } else {
        assert s[i] == s[1..][i - 1];
      }
    }
  }

  /** The sorted listing of a finite set. */
  ghost function SortedListing<T(!new)>(le: (T, T) -> bool, xs: set<T>): (r: seq<T>)
    requires TotalOrder(le)
    ensures Sorted(le, r) && Lists(r, xs)
  {
    if xs == {} then []
    else
      var x :| x in xs;
      var rest := SortedListing(le, xs - {x});
      InsertSorted(le, x, rest);
      InsertLists(le, x, rest, xs - {x});
      assert xs - {x} + {x} == xs;
      Insert(le, x, rest)
  }

  lemma InsertLists<T(!new)>(le: (T, T) -> bool, x: T, s: seq<T>, xs: set<T>)
    requires Lists(s, xs) && x !in xs
    ensures Lists(Insert(le, x, s), xs + {x})
  {
    ListsMultiset(s, xs);
    assert multiset(xs + {x}) == multiset(xs) + multiset{x};
    MultisetLists(Insert(le, x, s), xs + {x});
  }

  /** Collects a set into a sequence, in no particular order (a Go map range). */
  method Collect<T(==,!new)>(xs: set<T>) returns (s: seq<T>)
    ensures Lists(s, xs)
  {
    s := [];
    var left := xs;
    while left != {}
      invariant left <= xs
      invariant Lists(s, xs - left)
      decreases left
    {
      var x :| x in left;
      s := s + [x];
      left := left - {x};
    }
    assert xs - left == xs;
  }

  /** Rearranging the tail keeps it above the head. */
  lemma KeepsBound<T>(le: (T, T) -> bool, s: seq<T>, t: seq<T>, i: nat)
    requires |s| == |t| && i <= |s| && s[..i] == t[..i] && multiset(s[i..]) == multiset(t[i..])
    requires forall p, q | 0 <= p < i <= q < |s| :: le(s[p], s[q])
    ensures forall p, q | 0 <= p < i <= q < |t| :: le(t[p], t[q])
  {
    forall p, q | 0 <= p < i <= q < |t| ensures le(t[p], t[q]) {
      assert t[q] == t[i..][q - i] && t[q] in multiset(t[i..]);
      assert t[q] in s[i..];
      var k :| 0 <= k < |s[i..]| && s[i..][k] == t[q];
      assert s[i + k] == t[q] && t[p] == t[..i][p] == s[..i][p] == s[p];
    }
  }

  lemma SplitMultiset<T>(s: seq<T>, t: seq<T>, i: nat)
    requires |s| == |t| && i <= |s| && s[..i] == t[..i] && multiset(s) == multiset(t)
    ensures multiset(s[i..]) == multiset(t[i..])
  {
    assert s == s[..i] + s[i..] && t == t[..i] + t[i..];
    assert multiset(s) == multiset(s[..i]) + multiset(s[i..]);
    assert multiset(t) == multiset(t[..i]) + multiset(t[i..]);
    assert multiset(s[i..]) == multiset(s) - multiset(s[..i]);
    assert multiset(t[i..]) == multiset(t) - multiset(t[..i]);
  }

  /** One pass of the exchange sort: the least of the elements from `i` on moves to `i`. */
  method SelectLeast<T(!new)>(le: (T, T) -> bool, a: array<T>, i: nat)
    requires TotalOrder(le) && i < a.Length
    modifies a
    ensures a[..i] == old(a[..i]) && multiset(a[..]) == multiset(old(a[..]))
    ensures forall q | i <= q < a.Length :: le(a[i], a[q])
  {
    for j := i + 1 to a.Length
      invariant a[..i] == old(a[..i]) && multiset(a[..]) == multiset(old(a[..]))
      invariant forall q | i <= q < j :: le(a[i], a[q])
    {
      if !le(a[i], a[j]) {
        a[i], a[j] := a[j], a[i];
      }
    }
  }

  /** The exchange sort of the program: every later smaller element is swapped to the front. */
  method ExchangeSort<T(!new)>(le: (T, T) -> bool, a: array<T>)
    requires TotalOrder(le)
    modifies a
    ensures Sorted(le, a[..]) && multiset(a[..]) == multiset(old(a[..]))
  {
    for i := 0 to a.Length
      invariant multiset(a[..]) == multiset(old(a[..]))
      invariant Sorted(le, a[..i])
      invariant forall p, q | 0 <= p < i <= q < |a[..]| :: le(a[..][p], a[..][q])
    {
      ghost var s := a[..];
      SelectLeast(le, a, i);
      SplitMultiset(s, a[..], i);
      KeepsBound(le, s, a[..], i);
      assert a[..i + 1] == a[..i] + [a[i]];
    }
    assert a[..] == a[..a.Length];
  }
}
