/** Specification of the hybrid result fusion in hybrid.go: score normalisation, the
    per-key accumulation of weighted contributions, the overlap bonus, the ranking order,
    the minimum-score filter and the result limit. The class in hybrid.dfy is proved
    against the functions and predicates defined here. */
module HybridSpec {
  import opened Wrappers
  import opened HybridTypes
  import opened HybridConfig

  // ---------------------------------------------------------------------------
  // normalizeScores

  /** The running maximum of `normalizeScores`: it starts at the float zero value, so it is
      max(0, all scores). */
  function MaxScore(s: seq<SearchResult>): (m: real)
    ensures 0.0 <= m
    ensures forall i :: 0 <= i < |s| ==> s[i].Score <= m
    ensures m == 0.0 || exists i :: 0 <= i < |s| && s[i].Score == m
  {
    if s == [] then 0.0
    else
      var m' := MaxScore(s[..|s| - 1]);
      assert forall i :: 0 <= i < |s| - 1 ==> s[..|s| - 1][i] == s[i];
      if s[|s| - 1].Score > m' then s[|s| - 1].Score else m'
  }

  /** Every score divided by `m`; all other fields kept. */
  function Scaled(s: seq<SearchResult>, m: real): (r: seq<SearchResult>)
    requires m != 0.0
    ensures |r| == |s|
  {
    seq(|s|, i requires 0 <= i < |s| => s[i].(Score := s[i].Score / m))
  }

  /** What `normalizeScores` returns: the input itself when it is empty or its maximum
      (taken with 0) is 0, otherwise every score divided by that maximum. */
  function Normalized(s: seq<SearchResult>): (r: seq<SearchResult>)
    ensures |r| == |s|
  {
    if |s| == 0 || MaxScore(s) == 0.0 then s else Scaled(s, MaxScore(s))
  }

  /** Normalisation changes only the scores: it keeps the input when the maximum is 0 and
      otherwise divides every score by the maximum. */
  lemma NormalizedFields(s: seq<SearchResult>)
    ensures forall i :: 0 <= i < |s| ==> Normalized(s)[i] == s[i].(Score := Normalized(s)[i].Score)
    ensures MaxScore(s) == 0.0 ==> Normalized(s) == s
    ensures MaxScore(s) != 0.0 ==> forall i :: 0 <= i < |s| ==> Normalized(s)[i].Score == s[i].Score / MaxScore(s)
  {
  }

  /** The three properties in the contract of `MaxScore` determine it. */
  lemma MaxScoreUnique(s: seq<SearchResult>, v: real)
    requires 0.0 <= v
    requires forall i :: 0 <= i < |s| ==> s[i].Score <= v
    requires v == 0.0 || exists i :: 0 <= i < |s| && s[i].Score == v
    ensures MaxScore(s) == v
  {
  }

  lemma DivideAtMostOne(x: real, m: real)
    requires 0.0 < m && x <= m
    ensures x / m <= 1.0
  {
  }

  lemma DivideSelf(m: real)
    requires m != 0.0
    ensures m / m == 1.0
  {
  }

  lemma DivideNonNegative(x: real, m: real)
    requires 0.0 < m && 0.0 <= x
    ensures 0.0 <= x / m
  {
  }

  /** When normalisation divides, every normalised score is at most 1 and one of them is 1,
      so the maximum of the normalised sequence is 1. */
  lemma NormalizedMaxIsOne(s: seq<SearchResult>)
    requires MaxScore(s) != 0.0
    ensures forall i :: 0 <= i < |s| ==> Normalized(s)[i].Score <= 1.0
    ensures exists i :: 0 <= i < |s| && Normalized(s)[i].Score == 1.0
    ensures MaxScore(Normalized(s)) == 1.0
  {
    var m := MaxScore(s);
    var r := Normalized(s);
    var k :| 0 <= k < |s| && s[k].Score == m;
    DivideSelf(m);
    assert r[k].Score == 1.0;
    forall i | 0 <= i < |s| ensures r[i].Score <= 1.0 {
      DivideAtMostOne(s[i].Score, m);
    }
    MaxScoreUnique(r, 1.0);
  }

  /** For non-negative scores, normalisation maps every score into [0, 1], and when some score
      is positive the largest normalised score is exactly 1. */
  lemma NormalizedInUnitRange(s: seq<SearchResult>)
    requires forall i :: 0 <= i < |s| ==> 0.0 <= s[i].Score
    ensures forall i :: 0 <= i < |s| ==> 0.0 <= Normalized(s)[i].Score <= 1.0
    ensures (exists i :: 0 <= i < |s| && s[i].Score > 0.0) ==>
      MaxScore(Normalized(s)) == 1.0 && exists i :: 0 <= i < |s| && Normalized(s)[i].Score == 1.0
  {
    var m := MaxScore(s);
    if m != 0.0 {
      NormalizedMaxIsOne(s);
      forall i | 0 <= i < |s| ensures 0.0 <= Normalized(s)[i].Score {
        DivideNonNegative(s[i].Score, m);
      }
    }
  }

  /** Normalising an already normalised sequence changes nothing. */
  lemma NormalizedIdempotent(s: seq<SearchResult>)
    ensures Normalized(Normalized(s)) == Normalized(s)
  {
    if MaxScore(s) != 0.0 {
      NormalizedMaxIsOne(s);
      var r := Normalized(s);
      assert Normalized(r) == r;
    }
  }

  // ---------------------------------------------------------------------------
  // mergeResults: the weighted contributions of one backend

  /** The weight registered for `name`; a missing entry reads as the float zero value. */
  function WeightOf(weights: map<string, real>, name: string): real {
    if name in weights then weights[name] else 0.0
  }

  /** A score weighted by its backend's weight. */
  function Weighted(score: real, w: real): real {
    score * w
  }

  /** Sum of `score * w` over the results in `rs` whose key is `key`. */
  function Share(rs: seq<SearchResult>, w: real, key: string): real {
    if rs == [] then 0.0
    else Share(rs[..|rs| - 1], w, key) + (if rs[|rs| - 1].Key == key then Weighted(rs[|rs| - 1].Score, w) else 0.0)
  }

  /** Number of results in `rs` whose key is `key`. */
  function Hits(rs: seq<SearchResult>, key: string): (n: nat)
    ensures n <= |rs|
    ensures n > 0 <==> exists i :: 0 <= i < |rs| && rs[i].Key == key
  {
    if rs == [] then 0
    else
      var n' := Hits(rs[..|rs| - 1], key);
      assert forall i :: 0 <= i < |rs| - 1 ==> rs[..|rs| - 1][i] == rs[i];
      n' + (if rs[|rs| - 1].Key == key then 1 else 0)
  }

  /** `score * w` of the LAST result in `rs` with key `key`: later results of one backend
      overwrite its entry in the contribution map. */
  function LastShare(rs: seq<SearchResult>, w: real, key: string): real
    requires Hits(rs, key) > 0
  {
    var x := rs[|rs| - 1];
    if x.Key == key then Weighted(x.Score, w) else LastShare(rs[..|rs| - 1], w, key)
  }

  lemma ShareWithoutHits(rs: seq<SearchResult>, w: real, key: string)
    requires Hits(rs, key) == 0
    ensures Share(rs, w, key) == 0.0
  {
    if rs != [] {
      ShareWithoutHits(rs[..|rs| - 1], w, key);
    }
  }

  /** The normalised, weighted share of backend `name` in the score of `key`. */
  function BackendShare(all: map<string, seq<SearchResult>>, weights: map<string, real>, name: string, key: string): real
    requires name in all
  {
    Share(Normalized(all[name]), WeightOf(weights, name), key)
  }

  /** How many of backend `name`'s results carry `key`. */
  function BackendHits(all: map<string, seq<SearchResult>>, name: string, key: string): nat
    requires name in all
  {
    Hits(Normalized(all[name]), key)
  }

  // ---------------------------------------------------------------------------
  // Totals over a set of backends. Go visits a map in no fixed order; these totals are
  // defined over the SET of backends, and the "any element" lemmas below show that the
  // order in which the backends are taken does not matter.

  ghost function TotalShare(names: set<string>, all: map<string, seq<SearchResult>>, weights: map<string, real>, key: string): real
    requires names <= all.Keys
  {
    if names == {} then 0.0
    else
      var n :| n in names;
      BackendShare(all, weights, n, key) + TotalShare(names - {n}, all, weights, key)
  }

  ghost function TotalHits(names: set<string>, all: map<string, seq<SearchResult>>, key: string): nat
    requires names <= all.Keys
  {
    if names == {} then 0
    else
      var n :| n in names;
      BackendHits(all, n, key) + TotalHits(names - {n}, all, key)
  }

  /** The total share splits off any backend of the set, whichever was picked first. */
  lemma {:induction false} TotalShareSplit(names: set<string>, all: map<string, seq<SearchResult>>, weights: map<string, real>, key: string, n: string)
    requires names <= all.Keys && n in names
    ensures TotalShare(names, all, weights, key) == BackendShare(all, weights, n, key) + TotalShare(names - {n}, all, weights, key)
    decreases names
  {
    var m :| m in names && TotalShare(names, all, weights, key) == BackendShare(all, weights, m, key) + TotalShare(names - {m}, all, weights, key);
    if m != n {
      TotalShareSplit(names - {m}, all, weights, key, n);
      TotalShareSplit(names - {n}, all, weights, key, m);
      assert names - {m} - {n} == names - {n} - {m};
    }
  }

  /** The total hit count splits off any backend of the set, whichever was picked first. */
  lemma {:induction false} TotalHitsSplit(names: set<string>, all: map<string, seq<SearchResult>>, key: string, n: string)
    requires names <= all.Keys && n in names
    ensures TotalHits(names, all, key) == BackendHits(all, n, key) + TotalHits(names - {n}, all, key)
    decreases names
  {
    var m :| m in names && TotalHits(names, all, key) == BackendHits(all, m, key) + TotalHits(names - {m}, all, key);
    if m != n {
      TotalHitsSplit(names - {m}, all, key, n);
      TotalHitsSplit(names - {n}, all, key, m);
      assert names - {m} - {n} == names - {n} - {m};
    }
  }

  /** A key that no backend of the set returned has total share 0. */
  lemma {:induction false} TotalShareWithoutHits(names: set<string>, all: map<string, seq<SearchResult>>, weights: map<string, real>, key: string)
    requires names <= all.Keys && TotalHits(names, all, key) == 0
    ensures TotalShare(names, all, weights, key) == 0.0
    decreases names
  {
    if names != {} {
      var n :| n in names;
      TotalHitsSplit(names, all, key, n);
      TotalShareSplit(names, all, weights, key, n);
      ShareWithoutHits(Normalized(all[n]), WeightOf(weights, n), key);
      TotalShareWithoutHits(names - {n}, all, weights, key);
    }
  }

  /** `key` is the key of some result of some backend. */
  ghost predicate Occurs(all: map<string, seq<SearchResult>>, key: string) {
    exists n, k :: n in all && 0 <= k < |all[n]| && all[n][k].Key == key
  }

  /** A key has a positive total hit count exactly when some backend returned it. */
  lemma {:induction false} TotalHitsPositive(names: set<string>, all: map<string, seq<SearchResult>>, key: string)
    requires names <= all.Keys
    ensures TotalHits(names, all, key) > 0 <==>
      exists n, k :: n in names && 0 <= k < |all[n]| && all[n][k].Key == key
    decreases names
  {
    if names != {} {
      var n :| n in names;
      TotalHitsSplit(names, all, key, n);
      TotalHitsPositive(names - {n}, all, key);
      var nr := Normalized(all[n]);
      if BackendHits(all, n, key) > 0 {
        var k :| 0 <= k < |nr| && nr[k].Key == key;
        assert all[n][k].Key == key;
      }
      if exists k :: 0 <= k < |all[n]| && all[n][k].Key == key {
        var k :| 0 <= k < |all[n]| && all[n][k].Key == key;
        assert nr[k].Key == key;
      }
    }
  }

  /** The contribution map of `key` after the backends in `names`: one entry per backend
      that returned `key`, holding that backend's weighted contribution of its last result
      with that key. */
  function Contributions(names: set<string>, all: map<string, seq<SearchResult>>, weights: map<string, real>, key: string): map<string, real>
    requires names <= all.Keys
  {
    map n | n in names && BackendHits(all, n, key) > 0 :: BackendLast(all, weights, n, key)
  }

  /** The weighted normalised score of the last of backend `name`'s results with `key`. */
  function BackendLast(all: map<string, seq<SearchResult>>, weights: map<string, real>, name: string, key: string): real
    requires name in all && BackendHits(all, name, key) > 0
  {
    LastShare(Normalized(all[name]), WeightOf(weights, name), key)
  }

  // ---------------------------------------------------------------------------
  // Overlap bonus, payload annotation and the merged entries

  /** The payload of a merged entry: the seeding result's payload, plus `overlap_count` and
      `overlap_bonus_applied` when the bonus was applied, plus `score_contributions` and
      `source_count`. */
  function Annotated(base: Payload, contributions: map<string, real>, count: int, boosted: bool): Payload {
    var marked :=
      if boosted then base["overlap_count" := IntValue(count)]["overlap_bonus_applied" := BoolValue(true)]
      else base;
    marked["score_contributions" := ContributionsValue(contributions)]["source_count" := IntValue(count)]
  }

  /** The fused score of an entry: its summed score, times the bonus when boosted. */
  function Boosted(sum: real, bonus: real, boosted: bool): real {
    if boosted then sum * bonus else sum
  }

  /** `e` is the merged entry of its key: its score is the sum of the weighted normalised
      scores of all results with that key (times the bonus when priority is on and more than
      one result carried the key), and its display fields come from one of those results. */
  ghost predicate IsMergedEntry(e: SearchResult, all: map<string, seq<SearchResult>>, weights: map<string, real>, bonus: real, priority: bool) {
    var count := TotalHits(all.Keys, all, e.Key);
    var boosted := priority && count > 1;
    var sum := TotalShare(all.Keys, all, weights, e.Key);
    && e.Score == Boosted(sum, bonus, boosted)
    && exists n, k :: n in all && 0 <= k < |all[n]| && all[n][k].Key == e.Key
         && e.Title == all[n][k].Title && e.Content == all[n][k].Content
         && e.Payload == Annotated(all[n][k].Payload, Contributions(all.Keys, all, weights, e.Key), count, boosted)
  }

  ghost predicate DistinctKeys(s: seq<SearchResult>) {
    forall i, j :: 0 <= i < j < |s| ==> s[i].Key != s[j].Key
  }

  /** What `mergeResults` returns: one merged entry per distinct key that some backend
      returned, and nothing else, in ranking order. */
  ghost predicate MergedFrom(r: seq<SearchResult>, all: map<string, seq<SearchResult>>, weights: map<string, real>, bonus: real, priority: bool) {
    && DistinctKeys(r)
    && (forall i :: 0 <= i < |r| ==> IsMergedEntry(r[i], all, weights, bonus, priority))
    && (forall key :: Occurs(all, key) ==> exists i :: 0 <= i < |r| && r[i].Key == key)
    && Ranked(r, priority)
  }

  // ---------------------------------------------------------------------------
  // Ranking (the comparator given to sort.Slice)

  /** The `source_count` recorded in a merged entry's payload. */
  function SourceCount(r: SearchResult): int {
    if "source_count" in r.Payload && r.Payload["source_count"].IntValue? then r.Payload["source_count"].i else 0
  }

  predicate IsOverlap(r: SearchResult) {
    SourceCount(r) > 1
  }

  /** The comparator: with priority on, an overlap entry sorts before a non-overlap entry;
      otherwise the higher score sorts first. */
  predicate Less(x: SearchResult, y: SearchResult, priority: bool) {
    if priority && IsOverlap(x) != IsOverlap(y) then IsOverlap(x) else x.Score > y.Score
  }

  /** No entry sorts strictly before an entry that precedes it. */
  predicate Ranked(s: seq<SearchResult>, priority: bool) {
    forall i, j :: 0 <= i < j < |s| ==> !Less(s[j], s[i], priority)
  }

  /** The ranking order spelled out: with priority, overlap entries come first and scores do
      not increase within each tier; without it, scores do not increase. */
  lemma RankedMeansTiers(s: seq<SearchResult>, priority: bool)
    ensures Ranked(s, priority) <==>
      forall i, j :: 0 <= i < j < |s| ==>
        if priority then
          (IsOverlap(s[j]) ==> IsOverlap(s[i])) && (IsOverlap(s[i]) == IsOverlap(s[j]) ==> s[i].Score >= s[j].Score)
        else s[i].Score >= s[j].Score
  {
  }

  /** `x` ranks no better than `y` and `y` no better than `z`: then `x` ranks no better than `z`. */
  lemma NotLessTransitive(x: SearchResult, y: SearchResult, z: SearchResult, priority: bool)
    requires !Less(x, y, priority) && !Less(y, z, priority)
    ensures !Less(x, z, priority)
  {
  }

  /** Inserts `x` into a ranked sequence, before the first entry it does not rank below. */
  function Insert(x: SearchResult, s: seq<SearchResult>, priority: bool): (r: seq<SearchResult>)
    requires Ranked(s, priority)
    ensures Ranked(r, priority)
    ensures multiset(r) == multiset(s) + multiset{x}
  {
    if s == [] then [x]
    else if !Less(s[0], x, priority) then
      forall j | 0 <= j < |s| ensures !Less(s[j], x, priority) {
        if j > 0 { NotLessTransitive(s[j], s[0], x, priority); }
      }
      [x] + s
    else
      var t := Insert(x, s[1..], priority);
      assert multiset(s) == multiset{s[0]} + multiset(s[1..]) by { assert s == [s[0]] + s[1..]; }
      forall j | 0 <= j < |t| ensures !Less(t[j], s[0], priority) {
        assert t[j] in multiset(t);
      }
      [s[0]] + t
  }

  /** The library sort: a permutation of `s` in ranking order (ties in no specified order). */
  function SortRanked(s: seq<SearchResult>, priority: bool): (r: seq<SearchResult>)
    ensures Ranked(r, priority)
    ensures multiset(r) == multiset(s)
  {
    if s == [] then []
    else
      assert s == [s[0]] + s[1..];
      Insert(s[0], SortRanked(s[1..], priority), priority)
  }

  /** A permutation keeps every property its elements have, and every element. */
  lemma PermutationKeeps(u: seq<SearchResult>, r: seq<SearchResult>, ok: SearchResult -> bool)
    requires multiset(u) == multiset(r)
    requires forall i | 0 <= i < |u| :: ok(u[i])
    ensures forall i | 0 <= i < |r| :: ok(r[i])
    ensures forall i | 0 <= i < |u| :: exists j :: 0 <= j < |r| && r[j] == u[i]
  {
    forall i | 0 <= i < |r| ensures ok(r[i]) {
      assert r[i] in multiset(u);
    }
    forall i | 0 <= i < |u| ensures exists j :: 0 <= j < |r| && r[j] == u[i] {
      assert u[i] in multiset(r);
    }
  }

  /** A permutation of a sequence with distinct keys has distinct keys. */
  lemma PermutationKeepsDistinctKeys(u: seq<SearchResult>, r: seq<SearchResult>)
    requires multiset(u) == multiset(r) && DistinctKeys(u)
    ensures DistinctKeys(r)
  {
    forall i, j | 0 <= i < j < |r| ensures r[i].Key != r[j].Key {
      if r[i].Key == r[j].Key {
        assert r[i] in multiset(u) && r[j] in multiset(u);
        var a :| 0 <= a < |u| && u[a] == r[i];
        var b :| 0 <= b < |u| && u[b] == r[j];
        assert a == b;
        assert r == r[..i] + [r[i]] + r[i + 1..j] + [r[j]] + r[j + 1..];
        assert multiset(r)[r[i]] >= 2;
        DistinctCountAtMostOne(u, r[i]);
      }
    }
  }

  lemma DistinctCountAtMostOne(u: seq<SearchResult>, x: SearchResult)
    requires DistinctKeys(u)
    ensures multiset(u)[x] <= 1
  {
    if u != [] {
      assert u == [u[0]] + u[1..];
      DistinctCountAtMostOne(u[1..], x);
      if u[0] == x {
        assert x !in u[1..];
      }
    }
  }

  // ---------------------------------------------------------------------------
  // Search: collecting the backends' answers, filtering and truncating

  /** The results map that `Search` hands to the merge: one entry per registered name in
      `names` whose backend call succeeded; a failed call leaves no entry. */
  function Collected(names: set<string>, searchers: map<string, Searcher>, backend: Backend, query: string, limit: int): (all: map<string, seq<SearchResult>>)
    ensures forall n :: n in all <==> n in names && n in searchers && backend(searchers[n], query, limit).Ok?
    ensures forall n :: n in all ==> all[n] == backend(searchers[n], query, limit).value
  {
    map n | n in names && n in searchers && backend(searchers[n], query, limit).Ok? :: backend(searchers[n], query, limit).value
  }

  /** The entries whose score is at least `min`, in their existing order. */
  function AtLeast(s: seq<SearchResult>, min: real): (r: seq<SearchResult>)
    ensures |r| <= |s|
    ensures forall x :: x in r <==> x in s && x.Score >= min
  {
    if s == [] then []
    else AtLeast(s[..|s| - 1], min) + (if s[|s| - 1].Score >= min then [s[|s| - 1]] else [])
  }

  /** The minimum-score filter of `Search`, applied only when a configuration is present and
      its `MinScore` is positive. */
  function Filtered(s: seq<SearchResult>, config: Option<SearchConfig>): seq<SearchResult> {
    if config.Some? && config.value.MinScore > 0.0 then AtLeast(s, config.value.MinScore) else s
  }

  /** The limit of `Search`: the first `limit` entries when `limit` is positive. */
  function Truncated(s: seq<SearchResult>, limit: int): (r: seq<SearchResult>)
    ensures limit > 0 ==> |r| == if |s| < limit then |s| else limit
    ensures limit <= 0 ==> r == s
    ensures r == s[..|r|]
  {
    if limit > 0 && |s| > limit then s[..limit] else s
  }

  /** Filtering keeps the ranking order and the distinctness of keys. */
  lemma {:induction false} AtLeastKeepsOrder(s: seq<SearchResult>, min: real, priority: bool)
    ensures Ranked(s, priority) ==> Ranked(AtLeast(s, min), priority)
    ensures DistinctKeys(s) ==> DistinctKeys(AtLeast(s, min))
  {
    if s != [] {
      var init := s[..|s| - 1];
      var last := s[|s| - 1];
      AtLeastKeepsOrder(init, min, priority);
      var r := AtLeast(s, min);
      var r' := AtLeast(init, min);
      if last.Score >= min {
        assert r == r' + [last];
        forall i | 0 <= i < |r'| ensures exists k :: 0 <= k < |init| && r'[i] == s[k] {
          assert r'[i] in init;
        }
      }
    }
  }

  /** The properties `Search` promises of its result, whatever the merged list it came from:
      ranked, distinct keys, every entry a merged entry above the threshold, at most `limit`
      entries, and nothing above the threshold dropped except by the limit. */
  lemma SearchResultProperties(merged: seq<SearchResult>, all: map<string, seq<SearchResult>>, weights: map<string, real>, bonus: real, priority: bool, config: Option<SearchConfig>, limit: int)
    requires MergedFrom(merged, all, weights, bonus, priority)
    ensures var r := Truncated(Filtered(merged, config), limit);
      && Ranked(r, priority)
      && DistinctKeys(r)
      && (forall i :: 0 <= i < |r| ==> IsMergedEntry(r[i], all, weights, bonus, priority))
      && (config.Some? && config.value.MinScore > 0.0 ==> forall i :: 0 <= i < |r| ==> r[i].Score >= config.value.MinScore)
      && (limit > 0 ==> |r| <= limit)
      && (limit <= 0 ==> forall x :: x in merged && (config.None? || x.Score >= config.value.MinScore) ==> x in r)
  {
    var f := Filtered(merged, config);
    AtLeastKeepsOrder(merged, if config.Some? then config.value.MinScore else 0.0, priority);
    var r := Truncated(f, limit);
    forall i | 0 <= i < |r| ensures IsMergedEntry(r[i], all, weights, bonus, priority) {
      assert r[i] == f[i];
      assert f[i] in merged;
    }
  }
}
