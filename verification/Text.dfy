/**
 The few Go string operations the parsers and printers use: `strings.TrimSpace`,
 ASCII `strings.ToLower`, `strings.HasPrefix` and the bytewise order of strings.
 */
module Text {
  import opened Sorting

  /** `unicode.IsSpace`. */
  predicate IsSpace(c: char) {
    || '\t' <= c <= '\r'
    || c == ' '
    || c == '\U{85}' || c == '\U{A0}' || c == '\U{1680}'
    || '\U{2000}' <= c <= '\U{200A}'
    || c == '\U{2028}' || c == '\U{2029}' || c == '\U{202F}'
    || c == '\U{205F}' || c == '\U{3000}'
  }

  function TrimLeft(s: string): (r: string)
    ensures r == [] || !IsSpace(r[0])
    ensures |r| <= |s|
    ensures s != [] && !IsSpace(s[0]) ==> r == s
  {
    if s != [] && IsSpace(s[0]) then TrimLeft(s[1..]) else s
  }

  function TrimRight(s: string): (r: string)
    ensures r == [] || !IsSpace(r[|r| - 1])
    ensures r <= s
    ensures s != [] && !IsSpace(s[|s| - 1]) ==> r == s
  {
    if s != [] && IsSpace(s[|s| - 1]) then TrimRight(s[..|s| - 1]) else s
  }

  /** No white space at either end. */
  predicate Trimmed(s: string) {
    s == [] || (!IsSpace(s[0]) && !IsSpace(s[|s| - 1]))
  }

  function TrimSpace(s: string): (r: string)
    ensures Trimmed(r) && (Trimmed(s) <==> r == s)
  {
    var l := TrimLeft(s);
    var r := TrimRight(l);
    assert r != [] ==> r[0] == l[0];
    r
  }

  /** Leading white space does not matter to TrimSpace. */
  lemma {:induction false} TrimSpacePrefix(w: string, s: string)
    requires forall i | 0 <= i < |w| :: IsSpace(w[i])
    ensures TrimSpace(w + s) == TrimSpace(s)
  {
    if w == [] {
      assert w + s == s;
    } else {
      assert (w + s)[1..] == w[1..] + s;
      TrimSpacePrefix(w[1..], s);
    }
  }

  lemma {:induction false} TrimLeftAppend(a: string, b: string)
    requires TrimLeft(a) != []
    ensures TrimLeft(a + b) == TrimLeft(a) + b
  {
    assert a != [] && (a + b)[0] == a[0] && (a + b)[1..] == a[1..] + b;
    if IsSpace(a[0]) {
      TrimLeftAppend(a[1..], b);
    }
  }

  lemma {:induction false} TrimRightAppend(a: string, b: string)
    requires a != [] && !IsSpace(a[|a| - 1])
    ensures TrimRight(a + b) == a + TrimRight(b)
  {
    if b == [] {
      assert a + b == a;
    } else if IsSpace(b[|b| - 1]) {
      assert (a + b)[..|a + b| - 1] == a + b[..|b| - 1];
      TrimRightAppend(a, b[..|b| - 1]);
    }
  }

  lemma {:induction false} TrimLeftMembers(s: string)
    ensures forall c | c in TrimLeft(s) :: c in s
  {
    if s != [] && IsSpace(s[0]) {
      TrimLeftMembers(s[1..]);
    }
  }

  /** Trimming the right end works on the suffix alone when something of it is left. */
  lemma {:induction false} TrimRightSuffix(a: string, b: string)
    requires TrimRight(b) != []
    ensures TrimRight(a + b) == a + TrimRight(b)
  {
    if IsSpace(b[|b| - 1]) {
      assert (a + b)[..|a + b| - 1] == a + b[..|b| - 1];
      TrimRightSuffix(a, b[..|b| - 1]);
    }
  }

  /** A value is blank exactly when trimming either way leaves nothing. */
  lemma BlankRight(s: string)
    ensures TrimSpace(s) == [] <==> TrimRight(s) == []
    ensures TrimSpace(TrimRight(s)) == TrimSpace(s)
  {
    TrimCommutes(s);
    var l := TrimLeft(s);
    if l != [] {
      if TrimRight(l) == [] { NotAllSpace(l); }
    } else {
      AllSpaceTrims(s);
    }
  }

  lemma {:induction false} NotAllSpace(l: string)
    requires l != [] && !IsSpace(l[0])
    ensures TrimRight(l) != []
  {
    if IsSpace(l[|l| - 1]) { NotAllSpace(l[..|l| - 1]); }
  }

  lemma {:induction false} AllSpaceTrims(s: string)
    requires TrimLeft(s) == []
    ensures TrimRight(s) == []
  {
    if s != [] {
      assert IsSpace(s[0]);
      AllSpaceTrims(s[1..]);
      SpaceRight(s);
    }
  }

  lemma {:induction false} SpaceRight(s: string)
    requires s != [] && IsSpace(s[0]) && TrimRight(s[1..]) == []
    ensures TrimRight(s) == []
  {
    if |s| > 1 {
      assert s[1..][|s| - 2] == s[|s| - 1];
      assert s[1..][..|s| - 2] == s[..|s| - 1][1..];
      SpaceRight(s[..|s| - 1]);
    } else {
      assert s[..|s| - 1] == [];
    }
  }

  /** Trimming left after right is trimming right after left. */
  lemma {:induction false} TrimCommutes(s: string)
    ensures TrimSpace(TrimRight(s)) == TrimSpace(s)
  {
    if s != [] && IsSpace(s[|s| - 1]) {
      var t := s[..|s| - 1];
      TrimCommutes(t);
      TrimSpaceDropLast(s);
    }
  }

  lemma {:induction false} TrimSpaceDropLast(s: string)
    requires s != [] && IsSpace(s[|s| - 1])
    ensures TrimSpace(s) == TrimSpace(s[..|s| - 1])
  {
    if IsSpace(s[0]) {
      if |s| > 1 {
        assert s[1..][..|s| - 2] == s[..|s| - 1][1..];
        TrimSpaceDropLast(s[1..]);
      } else {
        assert s[1..] == [] && s[..|s| - 1] == [];
      }
    } else {
      assert |s| > 1;
      assert TrimLeft(s[..|s| - 1]) == s[..|s| - 1];
    }
  }

  /** The index of the first occurrence of a character, or the length. */
  function Find(s: string, c: char): (i: nat)
    ensures i <= |s|
  {
    if s == "" || s[0] == c then 0 else 1 + Find(s[1..], c)
  }

  lemma {:induction false} FindFirst(s: string, c: char, k: nat)
    requires k < |s| && s[k] == c && forall j | 0 <= j < k :: s[j] != c
    ensures Find(s, c) == k
  {
    if k > 0 {
      assert forall j | 0 <= j < k - 1 :: s[1..][j] == s[j + 1];
      FindFirst(s[1..], c, k - 1);
    }
  }

  /** Option maps. */
  type Options = map<string, string>

  /** A Go map lookup: the empty string for a missing key. */
  function Lookup(m: Options, key: string): string {
    if key in m then m[key] else ""
  }

  function LowerChar(c: char): char {
    if 'A' <= c <= 'Z' then ((c as int) + 32) as char else c
  }

  /** `strings.ToLower`, on the ASCII letters. */
  function Lower(s: string): (r: string)
    ensures |r| == |s|
  {
    seq(|s|, i requires 0 <= i < |s| => LowerChar(s[i]))
  }

  predicate HasPrefix(s: string, prefix: string) {
    prefix <= s
  }

  /** Go's order on strings: lexicographic by code unit. */
  predicate StrLe(a: string, b: string) {
    if a == [] then true
    else if b == [] then false
    else if a[0] != b[0] then a[0] < b[0]
    else StrLe(a[1..], b[1..])
  }

  lemma {:induction false} StrLeTotal(a: string, b: string)
    ensures StrLe(a, b) || StrLe(b, a)
  {
    if a != [] && b != [] && a[0] == b[0] { StrLeTotal(a[1..], b[1..]); }
  }

  lemma {:induction false} StrLeAntisymmetric(a: string, b: string)
    requires StrLe(a, b) && StrLe(b, a)
    ensures a == b
  {
    if a != [] && b != [] {
      StrLeAntisymmetric(a[1..], b[1..]);
      assert a == [a[0]] + a[1..] && b == [b[0]] + b[1..];
    }
  }

  lemma {:induction false} StrLeTransitive(a: string, b: string, c: string)
    requires StrLe(a, b) && StrLe(b, c)
    ensures StrLe(a, c)
  {
    if a != [] && a[0] == b[0] && b[0] == c[0] { StrLeTransitive(a[1..], b[1..], c[1..]); }
  }

  lemma StrLeIsTotalOrder()
    ensures TotalOrder(StrLe)
  {
    forall x, y ensures StrLe(x, y) || StrLe(y, x) { StrLeTotal(x, y); }
    forall x, y | StrLe(x, y) && StrLe(y, x) ensures x == y { StrLeAntisymmetric(x, y); }
    forall x, y, z | StrLe(x, y) && StrLe(y, z) ensures StrLe(x, z) { StrLeTransitive(x, y, z); }
  }

  /** The keys of an option map in the order every writer emits them. */
  ghost function SortedKeys(keys: set<string>): (r: seq<string>)
    ensures Sorted(StrLe, r) && Lists(r, keys)
  {
    StrLeIsTotalOrder();
    SortedListing(StrLe, keys)
  }

  lemma SortedKeysUnique(r: seq<string>, keys: set<string>)
    requires Sorted(StrLe, r) && Lists(r, keys)
    ensures r == SortedKeys(keys)
  {
    StrLeIsTotalOrder();
    SortedListingUnique(StrLe, r, SortedKeys(keys), keys);
  }

  /** The keys of a map through `sort.Strings`. */
  method ListSorted(keys: set<string>) returns (sorted: seq<string>)
    ensures sorted == SortedKeys(keys)
  {
    var listed := Collect(keys);
    StrLeIsTotalOrder();
    SortLists(StrLe, listed, keys);
    sorted := Sort(StrLe, listed);
    SortedKeysUnique(sorted, keys);
  }
}
