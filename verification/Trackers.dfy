/**
 Rewriting the tracker tiers of a torrent from the options `bt-exclude-tracker`, a
 list of URL prefixes to drop, and `bt-tracker`, a list of extra trackers to append.
 */
module Trackers {
  import opened Sorting
  import opened Text

  type Tier = seq<string>

  // ---- Comma lists ---------------------------------------------------------------

  /** `splitCommaList`: the trimmed, non-empty parts. */
  function SplitCommaList(s: string): (r: seq<string>)
    ensures "" !in r
    decreases |s|
  {
    if s == "" then []
    else
      var i := Find(s, ',');
      var head := TrimSpace(s[..i]);
      var rest := if i == |s| then [] else SplitCommaList(s[i + 1..]);
      if head == "" then rest else [head] + rest
  }

  /** A text without a comma is one part, or none if it is blank. */
  lemma {:induction false} OnePart(s: string)
    requires ',' !in s
    ensures SplitCommaList(s) == if TrimSpace(s) == "" then [] else [TrimSpace(s)]
  {
    NotFound(s, ',');
    assert s[..|s|] == s;
  }

  lemma {:induction false} NotFound(s: string, c: char)
    requires c !in s
    ensures Find(s, c) == |s|
  {
    if s != "" {
      NotFound(s[1..], c);
    }
  }

  /** A comma separates: the list of two texts joined by one is the list of the first and that of the second. */
  lemma {:induction false} PartsAppend(a: string, b: string)
    ensures SplitCommaList(a + "," + b) == SplitCommaList(a) + SplitCommaList(b)
    decreases |a|
  {
    var s := a + "," + b;
    var i := Find(a, ',');
    FoundBefore(a, b);
    if i == |a| {
      LastPart(a, b);
    } else {
      PartsAppend(a[i + 1..], b);
      FirstPart(a, b, i);
    }
    hide SplitCommaList, TrimSpace, Find;
  }

  lemma LastPart(a: string, b: string)
    requires Find(a, ',') == |a| && Find(a + "," + b, ',') == |a|
    ensures SplitCommaList(a + "," + b) == SplitCommaList(a) + SplitCommaList(b)
  {
    var s := a + "," + b;
    assert s[..|a|] == a && s[|a| + 1..] == b;
    hide SplitCommaList, Find;
    if a == "" {
      BlankHead(b, s);
    } else {
      HeadOf(a, s, b);
    }
  }

  lemma FirstPart(a: string, b: string, i: nat)
    requires i < |a| && Find(a, ',') == i && Find(a + "," + b, ',') == i
    requires SplitCommaList(a[i + 1..] + "," + b) == SplitCommaList(a[i + 1..]) + SplitCommaList(b)
    ensures SplitCommaList(a + "," + b) == SplitCommaList(a) + SplitCommaList(b)
  {
    var s := a + "," + b;
    SplitStep(a);
    SplitStep(s);
    JoinSlices(a, b, i);
    var head := TrimSpace(a[..i]);
    Regroup(if head == "" then [] else [head], SplitCommaList(a[i + 1..]), SplitCommaList(b));
    hide *;
  }

  lemma JoinSlices(a: string, b: string, i: nat)
    requires i < |a|
    ensures (a + "," + b)[..i] == a[..i] && (a + "," + b)[i + 1..] == a[i + 1..] + "," + b
    ensures a + "," + b != "" && i != |a + "," + b|
  {
  }

  lemma Regroup(x: seq<string>, y: seq<string>, z: seq<string>)
    ensures x + (y + z) == x + y + z
  {
  }

  lemma SplitStep(s: string)
    requires s != ""
    ensures var i := Find(s, ',');
      var head := TrimSpace(s[..i]);
      SplitCommaList(s)
        == (if head == "" then [] else [head]) + (if i == |s| then [] else SplitCommaList(s[i + 1..]))
  {
    hide TrimSpace;
  }

  lemma BlankHead(b: string, s: string)
    requires s == "," + b
    ensures SplitCommaList(s) == SplitCommaList("") + SplitCommaList(b)
  {
    SplitStep(s);
    assert s[..0] == "" && s[1..] == b && TrimSpace("") == "";
  }

  lemma HeadOf(a: string, s: string, b: string)
    requires a != "" && Find(a, ',') == |a| && Find(s, ',') == |a| && |s| > |a| && s[..|a|] == a && s[|a| + 1..] == b
    ensures SplitCommaList(s) == SplitCommaList(a) + SplitCommaList(b)
  {
    SplitStep(a);
    SplitStep(s);
    WholeText(a);
    var head := if TrimSpace(a) == "" then [] else [TrimSpace(a)];
    NothingMore(head);
    hide *;
  }

  lemma WholeText(a: string)
    ensures a[..|a|] == a
  {
  }

  lemma NothingMore(x: seq<string>)
    ensures x + [] == x
  {
  }

  /** The first comma of the joined text is that of the first part, or the one that joins. */
  lemma {:induction false} FoundBefore(a: string, b: string)
    ensures Find(a + "," + b, ',') == Find(a, ',')
  {
    var s := a + "," + b;
    if a == "" {
      assert s[0] == ',';
    } else {
      assert s[0] == a[0] && s[1..] == a[1..] + "," + b;
      FoundBefore(a[1..], b);
    }
  }

  // ---- Excluding -----------------------------------------------------------------

  predicate Excluded(url: string, prefixes: seq<string>) {
    exists p | p in prefixes :: p != "" && HasPrefix(url, p)
  }

  /** `trackerExcludedByPrefixes`. */
  method TrackerExcludedByPrefixes(url: string, prefixes: seq<string>) returns (r: bool)
    ensures r == Excluded(url, prefixes)
  {
    for i := 0 to |prefixes|
      invariant forall k | 0 <= k < i :: prefixes[k] == "" || !HasPrefix(url, prefixes[k])
    {
      if prefixes[i] != "" && HasPrefix(url, prefixes[i]) {
        return true;
      }
    }
    return false;
  }

  predicate Keeps(url: string, prefixes: seq<string>) {
    url != "" && !Excluded(url, prefixes)
  }

  function FilterTier(tier: Tier, prefixes: seq<string>): Tier {
    if tier == [] then []
    else (if Keeps(tier[0], prefixes) then [tier[0]] else []) + FilterTier(tier[1..], prefixes)
  }

  function FilterTiers(tiers: seq<Tier>, prefixes: seq<string>): seq<Tier> {
    if tiers == [] then []
    else
      var tier := FilterTier(tiers[0], prefixes);
      (if tier != [] then [tier] else []) + FilterTiers(tiers[1..], prefixes)
  }

  function Filter(tiers: seq<Tier>, prefixes: seq<string>): seq<Tier> {
    if prefixes == [] then tiers else FilterTiers(tiers, prefixes)
  }

  method FilterOneTier(tier: Tier, prefixes: seq<string>) returns (filtered: Tier)
    ensures filtered == FilterTier(tier, prefixes)
  {
    filtered := [];
    for i := 0 to |tier|
      invariant filtered + FilterTier(tier[i..], prefixes) == FilterTier(tier, prefixes)
    {
      assert tier[i..][0] == tier[i] && tier[i..][1..] == tier[i + 1..];
      var excluded := TrackerExcludedByPrefixes(tier[i], prefixes);
      if tier[i] == "" || excluded {
        continue;
      }
      filtered := filtered + [tier[i]];
    }
  }

  lemma FilterTiersStep(tiers: seq<Tier>, prefixes: seq<string>, i: nat)
    requires i < |tiers|
    ensures FilterTiers(tiers[i..], prefixes)
         == (var tier := FilterTier(tiers[i], prefixes); if tier != [] then [tier] else [])
            + FilterTiers(tiers[i + 1..], prefixes)
  {
    assert tiers[i..][0] == tiers[i] && tiers[i..][1..] == tiers[i + 1..];
  }

  /** `filterTrackersByExclude`. */
  method FilterTrackersByExclude(tiers: seq<Tier>, prefixes: seq<string>) returns (out: seq<Tier>)
    ensures out == Filter(tiers, prefixes)
  {
    if prefixes == [] || tiers == [] {
      return tiers;
    }
    NoTiers(prefixes);
    hide FilterTiers, FilterTier;
    assert tiers[0..] == tiers;
    out := [];
    for i := 0 to |tiers|
      invariant out + FilterTiers(tiers[i..], prefixes) == FilterTiers(tiers, prefixes)
    {
      FilterTiersStep(tiers, prefixes, i);
      var filtered := FilterOneTier(tiers[i], prefixes);
      if |filtered| > 0 {
        out := out + [filtered];
      }
    }
    assert tiers[|tiers|..] == [];
  }

  lemma NoTiers(prefixes: seq<string>)
    ensures FilterTiers([], prefixes) == []
  {
  }

  // ---- Appending -----------------------------------------------------------------

  /** Every tracker in the tiers, tier after tier. */
  function Concat(tiers: seq<Tier>): Tier {
    if tiers == [] then [] else tiers[0] + Concat(tiers[1..])
  }

  /** The extra trackers not seen yet and not excluded, each at its first occurrence. */
  function Fresh(extras: seq<string>, prefixes: seq<string>, seen: set<string>): seq<string>
    decreases |extras|
  {
    if extras == [] then []
    else if !Keeps(extras[0], prefixes) || extras[0] in seen then Fresh(extras[1..], prefixes, seen)
    else [extras[0]] + Fresh(extras[1..], prefixes, seen + {extras[0]})
  }

  function Singles(urls: seq<string>): seq<Tier> {
    seq(|urls|, i requires 0 <= i < |urls| => [urls[i]])
  }

  function SeenIn(tiers: seq<Tier>): set<string> {
    (set u | u in Concat(tiers)) - {""}
  }

  /** `applyBTTrackerOpts` on the tiers. */
  function Rewrite(tiers: seq<Tier>, excludes: seq<string>, extras: seq<string>): seq<Tier> {
    var kept := Filter(tiers, excludes);
    kept + Singles(Fresh(extras, excludes, SeenIn(kept)))
  }

  /** `flattenTrackers`: every non-empty tracker once, at its first occurrence. */
  function Flatten(tiers: seq<Tier>): seq<string> {
    Fresh(Concat(tiers), [], {})
  }

  class TorrentSpec {
    var trackers: seq<Tier>

    constructor (trackers: seq<Tier>)
      ensures this.trackers == trackers
    {
      this.trackers := trackers;
    }
  }

  class AddSource {
    var trackers: seq<string>

    constructor ()
    {
      trackers := [];
    }
  }

  lemma FreshStep(urls: seq<string>, prefixes: seq<string>, i: nat, seen: set<string>)
    requires i < |urls|
    ensures Fresh(urls[i..], prefixes, seen)
      == if !Keeps(urls[i], prefixes) || urls[i] in seen then Fresh(urls[i + 1..], prefixes, seen)
         else [urls[i]] + Fresh(urls[i + 1..], prefixes, seen + {urls[i]})
  {
    assert urls[i..][0] == urls[i] && urls[i..][1..] == urls[i + 1..];
  }

  method SeenTrackers(tiers: seq<Tier>) returns (seen: set<string>)
    ensures seen == SeenIn(tiers)
  {
    seen := {};
    for i := 0 to |tiers|
      invariant seen == SeenIn(tiers[..i])
    {
      ghost var before := seen;
      for j := 0 to |tiers[i]|
        invariant seen == before + (set u | u in tiers[i][..j]) - {""}
      {
        assert tiers[i][..j + 1] == tiers[i][..j] + [tiers[i][j]];
        if tiers[i][j] != "" {
          seen := seen + {tiers[i][j]};
        }
      }
      assert tiers[i][..|tiers[i]|] == tiers[i];
      assert tiers[..i + 1] == tiers[..i] + [tiers[i]];
      ConcatSnoc(tiers[..i], tiers[i]);
    }
    assert tiers[..|tiers|] == tiers;
  }

  lemma {:induction false} ConcatSnoc(tiers: seq<Tier>, tier: Tier)
    ensures Concat(tiers + [tier]) == Concat(tiers) + tier
  {
    if tiers == [] {
      assert [] + [tier] == [tier] && [tier][1..] == [];
    } else {
      assert (tiers + [tier])[0] == tiers[0] && (tiers + [tier])[1..] == tiers[1..] + [tier];
      ConcatSnoc(tiers[1..], tier);
    }
  }

  /** `applyBTTrackerOpts`. */
  method ApplyBTTrackerOpts(spec: TorrentSpec?, source: AddSource?, opts: Options)
    modifies spec, source
    ensures spec != null ==>
      && (var excludes := SplitCommaList(Lookup(opts, "bt-exclude-tracker"));
          var extras := SplitCommaList(Lookup(opts, "bt-tracker"));
          spec.trackers == Rewrite(old(spec.trackers), excludes, extras))
      && (source != null ==> source.trackers == Flatten(spec.trackers))
    ensures spec == null && source != null ==> source.trackers == old(source.trackers)
  {
    if spec == null {
      return;
    }
    var excludes := SplitCommaList(Lookup(opts, "bt-exclude-tracker"));
    var extras := SplitCommaList(Lookup(opts, "bt-tracker"));
    if |excludes| > 0 {
      spec.trackers := FilterTrackersByExclude(spec.trackers, excludes);
    }
    AppendExtras(spec, extras, excludes);
    if source != null {
      source.trackers := FlattenTrackers(spec.trackers);
    }
  }

  method AppendExtras(spec: TorrentSpec, extras: seq<string>, excludes: seq<string>)
    modifies spec
    ensures spec.trackers == old(spec.trackers) + Singles(Fresh(extras, excludes, SeenIn(old(spec.trackers))))
  {
    ghost var kept := spec.trackers;
    var seen := SeenTrackers(spec.trackers);
    ghost var done: seq<string> := [];
    for i := 0 to |extras|
      invariant spec.trackers == kept + Singles(done)
      invariant done + Fresh(extras[i..], excludes, seen) == Fresh(extras, excludes, SeenIn(kept))
    {
      FreshStep(extras, excludes, i, seen);
      var u := extras[i];
      var excluded := TrackerExcludedByPrefixes(u, excludes);
      if u == "" || excluded || u in seen {
        continue;
      }
      seen := seen + {u};
      spec.trackers := spec.trackers + [[u]];
      done := done + [u];
    }
    assert extras[|extras|..] == [];
  }

  method FlattenTrackers(tiers: seq<Tier>) returns (out: seq<string>)
    ensures out == Flatten(tiers)
  {
    var seen: set<string> := {};
    out := [];
    for i := 0 to |tiers|
      invariant out + Fresh(Concat(tiers[i..]), [], seen) == Flatten(tiers)
    {
      ghost var later := Concat(tiers[i + 1..]);
      assert tiers[i..][0] == tiers[i] && tiers[i..][1..] == tiers[i + 1..];
      for j := 0 to |tiers[i]|
        invariant out + Fresh(tiers[i][j..] + later, [], seen) == Flatten(tiers)
      {
        var u := tiers[i][j];
        assert (tiers[i][j..] + later)[0] == u && (tiers[i][j..] + later)[1..] == tiers[i][j + 1..] + later;
        if u == "" || u in seen {
          continue;
        }
        seen := seen + {u};
        out := out + [u];
      }
      assert tiers[i][|tiers[i]|..] + later == later;
    }
    assert tiers[|tiers|..] == [];
  }

  // ---- What is kept ----------------------------------------------------------------

  /** `a` is what is left of `b` after deleting some elements. */
  predicate Subsequence<T(==)>(a: seq<T>, b: seq<T>)
    decreases |b|
  {
    a == [] || (b != [] && (if a[0] == b[0] then Subsequence(a[1..], b[1..]) else Subsequence(a, b[1..])))
  }

  /** A filtered tier is the tier with exactly the excluded and empty trackers deleted. */
  lemma {:induction false} FilterTierKeeps(tier: Tier, prefixes: seq<string>)
    ensures Subsequence(FilterTier(tier, prefixes), tier)
    ensures forall u :: multiset(FilterTier(tier, prefixes))[u] == if Keeps(u, prefixes) then multiset(tier)[u] else 0
  {
    if tier != [] {
      FilterTierKeeps(tier[1..], prefixes);
      assert tier == [tier[0]] + tier[1..];
      var f := FilterTier(tier[1..], prefixes);
      if Keeps(tier[0], prefixes) {
        assert FilterTier(tier, prefixes) == [tier[0]] + f;
        assert ([tier[0]] + f)[1..] == f;
      } else {
        assert FilterTier(tier, prefixes) == f;
        assert f != [] ==> f[0] in multiset(f) && f[0] != tier[0];
      }
    }
  }

  lemma {:induction false} FilterTierAppend(a: Tier, b: Tier, prefixes: seq<string>)
    ensures FilterTier(a + b, prefixes) == FilterTier(a, prefixes) + FilterTier(b, prefixes)
  {
    if a == [] {
      assert a + b == b;
    } else {
      assert (a + b)[0] == a[0] && (a + b)[1..] == a[1..] + b;
      FilterTierAppend(a[1..], b, prefixes);
    }
  }

  /** Filtering tier by tier is filtering the whole list: the order across tiers is kept too. */
  lemma {:induction false} FilterConcat(tiers: seq<Tier>, prefixes: seq<string>)
    ensures Concat(FilterTiers(tiers, prefixes)) == FilterTier(Concat(tiers), prefixes)
  {
    if tiers != [] {
      var tier, rest := FilterTier(tiers[0], prefixes), FilterTiers(tiers[1..], prefixes);
      FilterConcat(tiers[1..], prefixes);
      FilterTierAppend(tiers[0], Concat(tiers[1..]), prefixes);
      if tier != [] {
        assert ([tier] + rest)[1..] == rest;
      } else {
        assert [] + rest == rest;
      }
    }
  }

  function FilteredEach(tiers: seq<Tier>, prefixes: seq<string>): seq<Tier> {
    seq(|tiers|, i requires 0 <= i < |tiers| => FilterTier(tiers[i], prefixes))
  }

  lemma SubsequenceEmpty<T>(s: seq<T>)
    ensures Subsequence([], s)
  {
  }

  /** One more tier in front, empty or not. */
  lemma KeepsHead(f: seq<Tier>, head: Tier, each: seq<Tier>)
    requires Subsequence(f, each)
    requires forall t :: multiset(f)[t] == if t == [] then 0 else multiset(each)[t]
    ensures var g := if head != [] then [head] + f else f;
      && Subsequence(g, [head] + each)
      && forall t :: multiset(g)[t] == if t == [] then 0 else multiset([head] + each)[t]
  {
    assert ([head] + each)[1..] == each && ([head] + f)[1..] == f;
    if f != [] {
      assert f[0] in multiset(f);
    }
  }

  /** The tiers stay apart and in order; only those left with nothing disappear. */
  lemma {:induction false} FilterTiersKeeps(tiers: seq<Tier>, prefixes: seq<string>)
    ensures var f, each := FilterTiers(tiers, prefixes), FilteredEach(tiers, prefixes);
      && Subsequence(f, each)
      && forall t :: multiset(f)[t] == if t == [] then 0 else multiset(each)[t]
  {
    hide FilterTier, Subsequence;
    var each := FilteredEach(tiers, prefixes);
    if tiers == [] {
      SubsequenceEmpty(each);
    } else {
      FilterTiersKeeps(tiers[1..], prefixes);
      var rest := FilteredEach(tiers[1..], prefixes);
      assert each == [each[0]] + rest;
      var f := FilterTiers(tiers[1..], prefixes);
      KeepsHead(f, each[0], rest);
      assert each[0] == FilterTier(tiers[0], prefixes);
      assert FilterTiers(tiers, prefixes) == if each[0] != [] then [each[0]] + f else f;
    }
  }

  // ---- What is appended --------------------------------------------------------------

  /** The first index of a member. */
  function IndexOf(s: seq<string>, u: string): (i: nat)
    requires u in s
    ensures i < |s| && s[i] == u
    decreases |s|
  {
    if s[0] == u then 0 else 1 + IndexOf(s[1..], u)
  }

  /** The extras appended: exactly the new, not excluded, non-empty ones, each once. */
  lemma {:induction false} FreshMembers(extras: seq<string>, prefixes: seq<string>, seen: set<string>)
    ensures var l := Fresh(extras, prefixes, seen);
      && NoDup(l)
      && forall u :: u in l <==> u in extras && Keeps(u, prefixes) && u !in seen
    decreases |extras|
  {
    if extras != [] {
      var u0 := extras[0];
      assert forall u :: u in extras <==> u == u0 || u in extras[1..];
      if !Keeps(u0, prefixes) || u0 in seen {
        FreshMembers(extras[1..], prefixes, seen);
      } else {
        FreshMembers(extras[1..], prefixes, seen + {u0});
        var l := Fresh(extras[1..], prefixes, seen + {u0});
        assert u0 !in l;
        assert forall u :: u in [u0] + l <==> u == u0 || u in l;
      }
    }
  }

  /** They come in the order of their first occurrence. */
  lemma {:induction false} FreshOrder(extras: seq<string>, prefixes: seq<string>, seen: set<string>, i: nat, j: nat)
    requires i < j < |Fresh(extras, prefixes, seen)|
    ensures var l := Fresh(extras, prefixes, seen);
      l[i] in extras && l[j] in extras && IndexOf(extras, l[i]) < IndexOf(extras, l[j])
    decreases |extras|
  {
    var l := Fresh(extras, prefixes, seen);
    FreshMembers(extras, prefixes, seen);
    assert l[i] in l && l[j] in l;
    var u0 := extras[0];
    if !Keeps(u0, prefixes) || u0 in seen {
      assert l[i] != u0 && l[j] != u0;
      FreshOrder(extras[1..], prefixes, seen, i, j);
    } else {
      assert l[0] == u0 && l[j] != l[0];
      if i > 0 {
        assert l[i] != l[0];
        FreshOrder(extras[1..], prefixes, seen + {u0}, i - 1, j - 1);
      }
    }
  }

  /** The rewritten list as one list: the kept trackers, then the new ones, each in its own tier. */
  lemma RewriteConcat(tiers: seq<Tier>, excludes: seq<string>, extras: seq<string>)
    ensures var kept := Filter(tiers, excludes);
      Concat(Rewrite(tiers, excludes, extras)) == Concat(kept) + Fresh(extras, excludes, SeenIn(kept))
  {
    var kept := Filter(tiers, excludes);
    var l := Fresh(extras, excludes, SeenIn(kept));
    ConcatAppend(kept, Singles(l));
    ConcatSingles(l);
  }

  lemma {:induction false} ConcatAppend(a: seq<Tier>, b: seq<Tier>)
    ensures Concat(a + b) == Concat(a) + Concat(b)
  {
    if a == [] {
      assert a + b == b;
    } else {
      assert (a + b)[0] == a[0] && (a + b)[1..] == a[1..] + b;
      ConcatAppend(a[1..], b);
    }
  }

  lemma {:induction false} ConcatSingles(urls: seq<string>)
    ensures Concat(Singles(urls)) == urls
  {
    if urls != [] {
      assert Singles(urls)[1..] == Singles(urls[1..]);
      ConcatSingles(urls[1..]);
    }
  }

  lemma {:induction false} FilterTierMembers(tier: Tier, prefixes: seq<string>)
    ensures forall u :: u in FilterTier(tier, prefixes) <==> u in tier && Keeps(u, prefixes)
  {
    FilterTierKeeps(tier, prefixes);
    forall u ensures u in FilterTier(tier, prefixes) <==> u in tier && Keeps(u, prefixes) {
      assert u in FilterTier(tier, prefixes) <==> u in multiset(FilterTier(tier, prefixes));
      assert u in tier <==> u in multiset(tier);
    }
  }

  /** No tracker of the rewritten list starts with an excluded prefix. */
  lemma NothingExcluded(tiers: seq<Tier>, excludes: seq<string>, extras: seq<string>)
    ensures forall u | u in Concat(Rewrite(tiers, excludes, extras)) :: !Excluded(u, excludes)
  {
    var kept := Filter(tiers, excludes);
    RewriteConcat(tiers, excludes, extras);
    FreshMembers(extras, excludes, SeenIn(kept));
    if excludes != [] {
      FilterConcat(tiers, excludes);
      FilterTierMembers(Concat(tiers), excludes);
    }
  }

  // ---- Doing it twice ------------------------------------------------------------------

  lemma {:induction false} FilterTierAgain(tier: Tier, prefixes: seq<string>)
    requires forall u | u in tier :: Keeps(u, prefixes)
    ensures FilterTier(tier, prefixes) == tier
  {
    if tier != [] {
      assert tier[0] in tier;
      assert forall u | u in tier[1..] :: u in tier;
      FilterTierAgain(tier[1..], prefixes);
    }
  }

  lemma {:induction false} FilterTiersAgain(tiers: seq<Tier>, prefixes: seq<string>)
    requires forall t | t in tiers :: t != [] && forall u | u in t :: Keeps(u, prefixes)
    ensures FilterTiers(tiers, prefixes) == tiers
  {
    if tiers != [] {
      assert tiers[0] in tiers;
      assert forall t | t in tiers[1..] :: t in tiers;
      FilterTierAgain(tiers[0], prefixes);
      FilterTiersAgain(tiers[1..], prefixes);
    }
  }

  lemma {:induction false} FilterTiersClean(tiers: seq<Tier>, prefixes: seq<string>)
    ensures forall t | t in FilterTiers(tiers, prefixes) :: t != [] && forall u | u in t :: Keeps(u, prefixes)
  {
    if tiers != [] {
      FilterTiersClean(tiers[1..], prefixes);
      FilterTierMembers(tiers[0], prefixes);
    }
  }

  lemma {:induction false} FreshNone(extras: seq<string>, prefixes: seq<string>, seen: set<string>)
    requires forall u | u in extras :: Keeps(u, prefixes) ==> u in seen
    ensures Fresh(extras, prefixes, seen) == []
    decreases |extras|
  {
    if extras != [] {
      assert extras[0] in extras;
      assert forall u | u in extras[1..] :: u in extras;
      FreshNone(extras[1..], prefixes, seen);
    }
  }

  /** Rewriting a rewritten list with the same options changes nothing. */
  lemma RewriteIdempotent(tiers: seq<Tier>, excludes: seq<string>, extras: seq<string>)
    ensures Rewrite(Rewrite(tiers, excludes, extras), excludes, extras) == Rewrite(tiers, excludes, extras)
  {
    var kept := Filter(tiers, excludes);
    var once := Rewrite(tiers, excludes, extras);
    var l := Fresh(extras, excludes, SeenIn(kept));
    FreshMembers(extras, excludes, SeenIn(kept));
    if excludes != [] {
      FilterTiersClean(tiers, excludes);
      forall t | t in once ensures t != [] && forall u | u in t :: Keeps(u, excludes) {
        if t !in kept {
          assert t in Singles(l);
          var k :| 0 <= k < |l| && t == [l[k]];
          assert l[k] in l;
        }
      }
      FilterTiersAgain(once, excludes);
    }
    RewriteConcat(tiers, excludes, extras);
    FreshNone(extras, excludes, SeenIn(once));
    assert once + [] == once;
  }

  /** The flattened list: every non-empty tracker of the tiers, once. */
  lemma FlattenMembers(tiers: seq<Tier>)
    ensures NoDup(Flatten(tiers))
    ensures forall u :: u in Flatten(tiers) <==> u != "" && u in Concat(tiers)
  {
    FreshMembers(Concat(tiers), [], {});
  }
}
