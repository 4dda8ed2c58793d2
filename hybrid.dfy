/** The hybrid searcher of hybrid.go: a registry of named backends with weights and the
    fusion of their answers. Each method is proved against the specification in HybridSpec. */
module Hybrid {
  import opened Wrappers
  import opened HybridTypes
  import opened HybridConfig
  import opened HybridSpec

  datatype SearchError = NoSearchersConfigured

  /** The state of `mergeResults` after the backends in `done` and the prefix `part` of the
      normalised results of backend `cur`: `scoreMap`, `contributionMap` and `sourceCountMap`
      hold an entry for every key seen so far, and `origin` records which result seeded the
      entry's display fields. */
  ghost predicate Accumulated(
    scoreMap: map<string, SearchResult>,
    contributionMap: map<string, map<string, real>>,
    sourceCountMap: map<string, int>,
    origin: map<string, (string, nat)>,
    all: map<string, seq<SearchResult>>, weights: map<string, real>,
    done: set<string>, cur: string, part: seq<SearchResult>)
    requires done <= all.Keys
  {
    && contributionMap.Keys == scoreMap.Keys
    && sourceCountMap.Keys == scoreMap.Keys
    && origin.Keys == scoreMap.Keys
    && (forall key :: key in scoreMap <==> TotalHits(done, all, key) + Hits(part, key) > 0)
    && forall key | key in scoreMap ::
         EntryAccumulated(scoreMap[key], contributionMap[key], sourceCountMap[key], origin[key], all, weights, done, cur, part, key)
  }

  /** The entry of `key` holds the partial sums of the specification: the weighted score and
      the hit count over `done` and `part`, and one contribution per backend that returned
      `key`, the current backend's being that of its last result in `part`. */
  ghost predicate EntryAccumulated(
    e: SearchResult, contributions: map<string, real>, count: int, o: (string, nat),
    all: map<string, seq<SearchResult>>, weights: map<string, real>,
    done: set<string>, cur: string, part: seq<SearchResult>, key: string)
    requires done <= all.Keys
  {
    var w := WeightOf(weights, cur);
    && e.Key == key
    && e.Score == TotalShare(done, all, weights, key) + Share(part, w, key)
    && count == TotalHits(done, all, key) + Hits(part, key)
    && (Hits(part, key) == 0 ==> contributions == Contributions(done, all, weights, key))
    && (Hits(part, key) > 0 ==> contributions == Contributions(done, all, weights, key)[cur := LastShare(part, w, key)])
    && Seeds(e, o, all)
  }

  /** The state of `mergeResults` between two backends: the backends in `done` are
      accumulated and none is in progress. */
  ghost predicate Settled(
    scoreMap: map<string, SearchResult>,
    contributionMap: map<string, map<string, real>>,
    sourceCountMap: map<string, int>,
    origin: map<string, (string, nat)>,
    all: map<string, seq<SearchResult>>, weights: map<string, real>, done: set<string>)
    requires done <= all.Keys
  {
    Accumulated(scoreMap, contributionMap, sourceCountMap, origin, all, weights, done, "", [])
  }
  /** Once every backend is accumulated, every key some backend returned has an entry. */
  lemma SettledCovers(
    scoreMap: map<string, SearchResult>, contributionMap: map<string, map<string, real>>,
    sourceCountMap: map<string, int>, origin: map<string, (string, nat)>,
    all: map<string, seq<SearchResult>>, weights: map<string, real>)
    requires Settled(scoreMap, contributionMap, sourceCountMap, origin, all, weights, all.Keys)
    ensures forall key :: key in scoreMap <==> Occurs(all, key)
  {
    forall key ensures key in scoreMap <==> Occurs(all, key) {
      TotalHitsPositive(all.Keys, all, key);
    }
  }

  /** With no partial prefix, which backend is current makes no difference. */
  lemma Restart(
    scoreMap: map<string, SearchResult>,
    contributionMap: map<string, map<string, real>>,
    sourceCountMap: map<string, int>,
    origin: map<string, (string, nat)>,
    all: map<string, seq<SearchResult>>, weights: map<string, real>,
    done: set<string>, cur: string, cur': string)
    requires done <= all.Keys
    requires Accumulated(scoreMap, contributionMap, sourceCountMap, origin, all, weights, done, cur, [])
    ensures Accumulated(scoreMap, contributionMap, sourceCountMap, origin, all, weights, done, cur', [])
  {
    forall key | key in scoreMap
      ensures EntryAccumulated(scoreMap[key], contributionMap[key], sourceCountMap[key], origin[key], all, weights, done, cur', [], key)
    {
      assert EntryAccumulated(scoreMap[key], contributionMap[key], sourceCountMap[key], origin[key], all, weights, done, cur, [], key);
      assert Hits([], key) == 0;
      assert Share([], WeightOf(weights, cur), key) == 0.0 && Share([], WeightOf(weights, cur'), key) == 0.0;
    }
  }

  /** The display fields of `e` are those of result `o.1` of backend `o.0`. */
  ghost predicate Seeds(e: SearchResult, o: (string, nat), all: map<string, seq<SearchResult>>) {
    && o.0 in all && o.1 < |all[o.0]|
    && all[o.0][o.1].Key == e.Key && all[o.0][o.1].Title == e.Title
    && all[o.0][o.1].Content == e.Content && all[o.0][o.1].Payload == e.Payload
  }

  /** A key that no processed backend returned contributes nothing yet. */
  lemma NothingBeforeFirstHit(all: map<string, seq<SearchResult>>, weights: map<string, real>, done: set<string>, key: string)
    requires done <= all.Keys && TotalHits(done, all, key) == 0
    ensures TotalShare(done, all, weights, key) == 0.0
    ensures Contributions(done, all, weights, key) == map[]
  {
    TotalShareWithoutHits(done, all, weights, key);
    TotalHitsPositive(done, all, key);
    forall n | n in done ensures BackendHits(all, n, key) == 0 {
    }
  }

  /** Finishing backend `cur` moves its results from the partial prefix into the totals. */
  lemma FinishBackend(
    scoreMap: map<string, SearchResult>,
    contributionMap: map<string, map<string, real>>,
    sourceCountMap: map<string, int>,
    origin: map<string, (string, nat)>,
    all: map<string, seq<SearchResult>>, weights: map<string, real>,
    done: set<string>, cur: string)
    requires done <= all.Keys && cur in all && cur !in done
    requires Accumulated(scoreMap, contributionMap, sourceCountMap, origin, all, weights, done, cur, Normalized(all[cur]))
    ensures Accumulated(scoreMap, contributionMap, sourceCountMap, origin, all, weights, done + {cur}, cur, [])
  {
    var next := done + {cur};
    forall key ensures TotalHits(next, all, key) == TotalHits(done, all, key) + Hits(Normalized(all[cur]), key) {
      TotalHitsSplit(next, all, key, cur);
      assert next - {cur} == done;
    }
    forall key | key in scoreMap
      ensures EntryAccumulated(scoreMap[key], contributionMap[key], sourceCountMap[key], origin[key], all, weights, next, cur, [], key)
    {
      FinishBackendEntry(scoreMap[key], contributionMap[key], sourceCountMap[key], origin[key], all, weights, done, cur, key);
    }
  }

  /** `FinishBackend` for the entry of one key. */
  lemma FinishBackendEntry(
    e: SearchResult, contributions: map<string, real>, count: int, o: (string, nat),
    all: map<string, seq<SearchResult>>, weights: map<string, real>,
    done: set<string>, cur: string, key: string)
    requires done <= all.Keys && cur in all && cur !in done
    requires EntryAccumulated(e, contributions, count, o, all, weights, done, cur, Normalized(all[cur]), key)
    ensures EntryAccumulated(e, contributions, count, o, all, weights, done + {cur}, cur, [], key)
  {
    var next := done + {cur};
    assert next - {cur} == done;
    TotalHitsSplit(next, all, key, cur);
    TotalShareSplit(next, all, weights, key, cur);
    if BackendHits(all, cur, key) > 0 {
      FinishBackendHit(e, contributions, count, o, all, weights, done, cur, key);
    } else {
      FinishBackendMiss(e, contributions, count, o, all, weights, done, cur, key);
    }
  }

  /** `FinishBackendEntry` for a key backend `cur` returned. */
  lemma FinishBackendHit(
    e: SearchResult, contributions: map<string, real>, count: int, o: (string, nat),
    all: map<string, seq<SearchResult>>, weights: map<string, real>,
    done: set<string>, cur: string, key: string)
    requires done <= all.Keys && cur in all && cur !in done && BackendHits(all, cur, key) > 0
    requires TotalHits(done + {cur}, all, key) == TotalHits(done, all, key) + BackendHits(all, cur, key)
    requires TotalShare(done + {cur}, all, weights, key) == TotalShare(done, all, weights, key) + BackendShare(all, weights, cur, key)
    requires EntryAccumulated(e, contributions, count, o, all, weights, done, cur, Normalized(all[cur]), key)
    ensures EntryAccumulated(e, contributions, count, o, all, weights, done + {cur}, cur, [], key)
  {
    ContributionsAddHit(done, all, weights, key, cur);
  }

  /** `FinishBackendEntry` for a key backend `cur` did not return. */
  lemma FinishBackendMiss(
    e: SearchResult, contributions: map<string, real>, count: int, o: (string, nat),
    all: map<string, seq<SearchResult>>, weights: map<string, real>,
    done: set<string>, cur: string, key: string)
    requires done <= all.Keys && cur in all && cur !in done && BackendHits(all, cur, key) == 0
    requires TotalHits(done + {cur}, all, key) == TotalHits(done, all, key) + BackendHits(all, cur, key)
    requires TotalShare(done + {cur}, all, weights, key) == TotalShare(done, all, weights, key) + BackendShare(all, weights, cur, key)
    requires EntryAccumulated(e, contributions, count, o, all, weights, done, cur, Normalized(all[cur]), key)
    ensures EntryAccumulated(e, contributions, count, o, all, weights, done + {cur}, cur, [], key)
  {
    ContributionsAddMiss(done, all, weights, key, cur);
  }

  /** Adding a backend that returned `key` to the processed set adds its own entry to the
      contribution map of `key`. */
  lemma ContributionsAddHit(names: set<string>, all: map<string, seq<SearchResult>>, weights: map<string, real>, key: string, n: string)
    requires names <= all.Keys && n in all && n !in names
    requires BackendHits(all, n, key) > 0
    ensures Contributions(names + {n}, all, weights, key) ==
      Contributions(names, all, weights, key)[n := BackendLast(all, weights, n, key)]
  {
  }

  /** Adding a backend that did not return `key` leaves the contribution map of `key` alone. */
  lemma ContributionsAddMiss(names: set<string>, all: map<string, seq<SearchResult>>, weights: map<string, real>, key: string, n: string)
    requires names <= all.Keys && n in all && n !in names
    requires BackendHits(all, n, key) == 0
    ensures Contributions(names + {n}, all, weights, key) == Contributions(names, all, weights, key)
  {
  }

  /** The entries listed so far by the key loop of `mergeResults`: each visited key sits at
      its recorded position, the keys are distinct and each entry satisfies `ok`. */
  ghost predicate Listed(unsorted: seq<SearchResult>, position: map<string, nat>, visited: set<string>, ok: SearchResult -> bool) {
    && position.Keys == visited
    && (forall key | key in position :: position[key] < |unsorted| && unsorted[position[key]].Key == key)
    && (forall i | 0 <= i < |unsorted| :: unsorted[i].Key in position && position[unsorted[i].Key] == i && ok(unsorted[i]))
  }

  /** Listed entries have distinct keys, each key having one position. */
  lemma ListedDistinct(unsorted: seq<SearchResult>, position: map<string, nat>, visited: set<string>, ok: SearchResult -> bool)
    requires Listed(unsorted, position, visited, ok)
    ensures DistinctKeys(unsorted)
  {
  }

  /** Appending an entry that satisfies `ok` under an unvisited key keeps `Listed`. */
  lemma ListedAppend(
    unsorted: seq<SearchResult>, position: map<string, nat>, visited: set<string>, ok: SearchResult -> bool,
    result: SearchResult)
    requires Listed(unsorted, position, visited, ok)
    requires result.Key !in visited && ok(result)
    ensures Listed(unsorted + [result], position[result.Key := |unsorted|], visited + {result.Key}, ok)
  {
    var unsorted' := unsorted + [result];
    assert forall i | 0 <= i < |unsorted| :: unsorted'[i] == unsorted[i];
  }

  /** One step of the inner loop of `mergeResults` for a result `x` whose key already has an
      entry: `x` is counted, its weighted score `c` is added to the entry's score and
      recorded as the current backend's contribution. */
  lemma AddExisting(
    scoreMap: map<string, SearchResult>, contributionMap: map<string, map<string, real>>,
    sourceCountMap: map<string, int>, origin: map<string, (string, nat)>,
    all: map<string, seq<SearchResult>>, weights: map<string, real>,
    done: set<string>, cur: string, part: seq<SearchResult>, x: SearchResult, c: real)
    requires done <= all.Keys
    requires c == Weighted(x.Score, WeightOf(weights, cur))
    requires Accumulated(scoreMap, contributionMap, sourceCountMap, origin, all, weights, done, cur, part)
    requires x.Key in scoreMap
    ensures Accumulated(
      scoreMap[x.Key := scoreMap[x.Key].(Score := scoreMap[x.Key].Score + c)],
      contributionMap[x.Key := contributionMap[x.Key][cur := c]],
      sourceCountMap[x.Key := sourceCountMap[x.Key] + 1],
      origin, all, weights, done, cur, part + [x])
  {
    var part' := part + [x];
    var scoreMap' := scoreMap[x.Key := scoreMap[x.Key].(Score := scoreMap[x.Key].Score + c)];
    var contributionMap' := contributionMap[x.Key := contributionMap[x.Key][cur := c]];
    var sourceCountMap' := sourceCountMap[x.Key := sourceCountMap[x.Key] + 1];
    ExistingEntries(scoreMap, contributionMap, sourceCountMap, origin, all, weights, done, cur, part, x, c);
    forall key ensures key in scoreMap' <==> TotalHits(done, all, key) + Hits(part', key) > 0 {
      PartStep(part, x, WeightOf(weights, cur), key);
    }
    SameKeysAfterInsert(scoreMap, contributionMap, x.Key, scoreMap[x.Key].(Score := scoreMap[x.Key].Score + c), contributionMap[x.Key][cur := c]);
    SameKeysAfterInsert(scoreMap, sourceCountMap, x.Key, scoreMap[x.Key].(Score := scoreMap[x.Key].Score + c), sourceCountMap[x.Key] + 1);
    assert scoreMap'.Keys == scoreMap.Keys;
    Assemble(scoreMap', contributionMap', sourceCountMap', origin, all, weights, done, cur, part');
  }

  /** The entries after `AddExisting`, key by key. */
  lemma ExistingEntries(
    scoreMap: map<string, SearchResult>, contributionMap: map<string, map<string, real>>,
    sourceCountMap: map<string, int>, origin: map<string, (string, nat)>,
    all: map<string, seq<SearchResult>>, weights: map<string, real>,
    done: set<string>, cur: string, part: seq<SearchResult>, x: SearchResult, c: real)
    requires done <= all.Keys
    requires c == Weighted(x.Score, WeightOf(weights, cur))
    requires Accumulated(scoreMap, contributionMap, sourceCountMap, origin, all, weights, done, cur, part)
    requires x.Key in scoreMap
    ensures var scoreMap' := scoreMap[x.Key := scoreMap[x.Key].(Score := scoreMap[x.Key].Score + c)];
      var contributionMap' := contributionMap[x.Key := contributionMap[x.Key][cur := c]];
      var sourceCountMap' := sourceCountMap[x.Key := sourceCountMap[x.Key] + 1];
      forall key | key in scoreMap' ::
        EntryAccumulated(scoreMap'[key], contributionMap'[key], sourceCountMap'[key], origin[key], all, weights, done, cur, part + [x], key)
  {
    forall key | key in scoreMap
      ensures EntryAccumulated(
        scoreMap[x.Key := scoreMap[x.Key].(Score := scoreMap[x.Key].Score + c)][key],
        contributionMap[x.Key := contributionMap[x.Key][cur := c]][key],
        sourceCountMap[x.Key := sourceCountMap[x.Key] + 1][key],
        origin[key], all, weights, done, cur, part + [x], key)
    {
      if key != x.Key {
        EntryUntouched(scoreMap[key], contributionMap[key], sourceCountMap[key], origin[key], all, weights, done, cur, part, x, key);
      } else {
        EntryAdd(scoreMap[key], contributionMap[key], sourceCountMap[key], origin[key], all, weights, done, cur, part, x);
      }
    }
  }

  /** `Accumulated`, from its parts. */
  lemma Assemble(
    scoreMap: map<string, SearchResult>, contributionMap: map<string, map<string, real>>,
    sourceCountMap: map<string, int>, origin: map<string, (string, nat)>,
    all: map<string, seq<SearchResult>>, weights: map<string, real>,
    done: set<string>, cur: string, part: seq<SearchResult>)
    requires done <= all.Keys
    requires contributionMap.Keys == scoreMap.Keys && sourceCountMap.Keys == scoreMap.Keys && origin.Keys == scoreMap.Keys
    requires forall key :: key in scoreMap <==> TotalHits(done, all, key) + Hits(part, key) > 0
    requires forall key | key in scoreMap ::
      EntryAccumulated(scoreMap[key], contributionMap[key], sourceCountMap[key], origin[key], all, weights, done, cur, part, key)
    ensures Accumulated(scoreMap, contributionMap, sourceCountMap, origin, all, weights, done, cur, part)
  {
  }

  /** One step of the inner loop of `mergeResults` for a result `x`, the `j`-th normalised
      result of backend `cur`, whose key has no entry yet: `x` seeds one with its weighted
      score `c`, a count of 1 and `cur` as the only contributor. */
  lemma AddNew(
    scoreMap: map<string, SearchResult>, contributionMap: map<string, map<string, real>>,
    sourceCountMap: map<string, int>, origin: map<string, (string, nat)>,
    all: map<string, seq<SearchResult>>, weights: map<string, real>,
    done: set<string>, cur: string, part: seq<SearchResult>, j: nat, x: SearchResult, c: real)
    requires done <= all.Keys && cur in all && cur !in done
    requires j == |part| && j < |all[cur]| && x == Normalized(all[cur])[j]
    requires c == Weighted(x.Score, WeightOf(weights, cur))
    requires Accumulated(scoreMap, contributionMap, sourceCountMap, origin, all, weights, done, cur, part)
    requires x.Key !in scoreMap
    ensures Accumulated(
      scoreMap[x.Key := x.(Score := c)],
      contributionMap[x.Key := map[cur := c]],
      sourceCountMap[x.Key := 1],
      origin[x.Key := (cur, j)], all, weights, done, cur, part + [x])
  {
    var part' := part + [x];
    var scoreMap' := scoreMap[x.Key := x.(Score := c)];
    var contributionMap' := contributionMap[x.Key := map[cur := c]];
    var sourceCountMap' := sourceCountMap[x.Key := 1];
    var origin' := origin[x.Key := (cur, j)];
    NewEntries(scoreMap, contributionMap, sourceCountMap, origin, all, weights, done, cur, part, j, x, c);
    forall key ensures key in scoreMap' <==> TotalHits(done, all, key) + Hits(part', key) > 0 {
      PartStep(part, x, WeightOf(weights, cur), key);
    }
    SameKeysAfterInsert(scoreMap, contributionMap, x.Key, x.(Score := c), map[cur := c]);
    SameKeysAfterInsert(scoreMap, sourceCountMap, x.Key, x.(Score := c), 1);
    SameKeysAfterInsert(scoreMap, origin, x.Key, x.(Score := c), (cur, j));
    Assemble(scoreMap', contributionMap', sourceCountMap', origin', all, weights, done, cur, part');
  }

  /** Two maps with the same keys still have the same keys after both are set at `k`. */
  lemma SameKeysAfterInsert<V, W>(a: map<string, V>, b: map<string, W>, k: string, v: V, w: W)
    requires b.Keys == a.Keys
    ensures b[k := w].Keys == a[k := v].Keys
  {
  }

  /** The entries after `AddNew`, key by key. */
  lemma NewEntries(
    scoreMap: map<string, SearchResult>, contributionMap: map<string, map<string, real>>,
    sourceCountMap: map<string, int>, origin: map<string, (string, nat)>,
    all: map<string, seq<SearchResult>>, weights: map<string, real>,
    done: set<string>, cur: string, part: seq<SearchResult>, j: nat, x: SearchResult, c: real)
    requires done <= all.Keys && cur in all && cur !in done
    requires j == |part| && j < |all[cur]| && x == Normalized(all[cur])[j]
    requires c == Weighted(x.Score, WeightOf(weights, cur))
    requires Accumulated(scoreMap, contributionMap, sourceCountMap, origin, all, weights, done, cur, part)
    requires x.Key !in scoreMap
    ensures var scoreMap' := scoreMap[x.Key := x.(Score := c)];
      var contributionMap' := contributionMap[x.Key := map[cur := c]];
      var sourceCountMap' := sourceCountMap[x.Key := 1];
      var origin' := origin[x.Key := (cur, j)];
      forall key | key in scoreMap' ::
        EntryAccumulated(scoreMap'[key], contributionMap'[key], sourceCountMap'[key], origin'[key], all, weights, done, cur, part + [x], key)
  {
    forall key | key == x.Key || key in scoreMap
      ensures EntryAccumulated(
        scoreMap[x.Key := x.(Score := c)][key],
        contributionMap[x.Key := map[cur := c]][key],
        sourceCountMap[x.Key := 1][key],
        origin[x.Key := (cur, j)][key], all, weights, done, cur, part + [x], key)
    {
      if key != x.Key {
        EntryUntouched(scoreMap[key], contributionMap[key], sourceCountMap[key], origin[key], all, weights, done, cur, part, x, key);
      } else {
        EntryNew(all, weights, done, cur, part, j, x);
      }
    }
  }

  /** The entry of a key other than `x`'s is unaffected by `x`. */
  lemma EntryUntouched(
    e: SearchResult, contributions: map<string, real>, count: int, o: (string, nat),
    all: map<string, seq<SearchResult>>, weights: map<string, real>,
    done: set<string>, cur: string, part: seq<SearchResult>, x: SearchResult, key: string)
    requires done <= all.Keys && x.Key != key
    requires EntryAccumulated(e, contributions, count, o, all, weights, done, cur, part, key)
    ensures EntryAccumulated(e, contributions, count, o, all, weights, done, cur, part + [x], key)
  {
    PartStep(part, x, WeightOf(weights, cur), key);
  }

  /** A result whose key already has an entry adds its weighted score to it, counts once more
      and overwrites the current backend's contribution. */
  lemma EntryAdd(
    e: SearchResult, contributions: map<string, real>, count: int, o: (string, nat),
    all: map<string, seq<SearchResult>>, weights: map<string, real>,
    done: set<string>, cur: string, part: seq<SearchResult>, x: SearchResult)
    requires done <= all.Keys
    requires EntryAccumulated(e, contributions, count, o, all, weights, done, cur, part, x.Key)
    ensures var w := WeightOf(weights, cur);
      EntryAccumulated(e.(Score := e.Score + Weighted(x.Score, w)), contributions[cur := Weighted(x.Score, w)], count + 1, o,
        all, weights, done, cur, part + [x], x.Key)
  {
    var w := WeightOf(weights, cur);
    PartStep(part, x, w, x.Key);
    if Hits(part, x.Key) > 0 {
      UpdateTwice(Contributions(done, all, weights, x.Key), cur, LastShare(part, w, x.Key), Weighted(x.Score, w));
    }
  }

  lemma UpdateTwice(m: map<string, real>, k: string, a: real, b: real)
    ensures m[k := a][k := b] == m[k := b]
  {
  }

  /** A result whose key has no entry yet seeds one: nothing was accumulated for the key before. */
  lemma EntryNew(
    all: map<string, seq<SearchResult>>, weights: map<string, real>,
    done: set<string>, cur: string, part: seq<SearchResult>, j: nat, x: SearchResult)
    requires done <= all.Keys && cur in all && cur !in done
    requires j == |part| && j < |all[cur]| && x == Normalized(all[cur])[j]
    requires TotalHits(done, all, x.Key) + Hits(part, x.Key) == 0
    ensures var w := WeightOf(weights, cur);
      EntryAccumulated(x.(Score := Weighted(x.Score, w)), map[cur := Weighted(x.Score, w)], 1, (cur, j),
        all, weights, done, cur, part + [x], x.Key)
  {
    var w := WeightOf(weights, cur);
    PartStep(part, x, w, x.Key);
    NothingBeforeFirstHit(all, weights, done, x.Key);
    ShareWithoutHits(part, w, x.Key);
    assert Contributions(done, all, weights, x.Key)[cur := Weighted(x.Score, w)] == map[cur := Weighted(x.Score, w)];
  }

  /** Appending `x` to a prefix adds `x`'s hit, its weighted score and, for its key, makes it
      the last result. */
  lemma PartStep(part: seq<SearchResult>, x: SearchResult, w: real, key: string)
    ensures Hits(part + [x], key) == Hits(part, key) + (if x.Key == key then 1 else 0)
    ensures Share(part + [x], w, key) == Share(part, w, key) + (if x.Key == key then Weighted(x.Score, w) else 0.0)
    ensures x.Key == key ==> LastShare(part + [x], w, key) == Weighted(x.Score, w)
    ensures x.Key != key && Hits(part, key) > 0 ==> LastShare(part + [x], w, key) == LastShare(part, w, key)
  {
    assert (part + [x])[..|part|] == part;
  }

  /** An entry after the overlap bonus, applied when `priority` is set and more than one
      result had its key, and the payload annotations. */
  function Finished(e: SearchResult, contributions: map<string, real>, count: int, bonus: real, priority: bool): SearchResult {
    var boosted := priority && count > 1;
    e.(Score := Boosted(e.Score, bonus, boosted), Payload := Annotated(e.Payload, contributions, count, boosted))
  }

  /** An entry of the completed accumulation, once finished, is the merged entry of its key. */
  lemma FinishEntry(
    e: SearchResult, contributions: map<string, real>, count: int, o: (string, nat),
    all: map<string, seq<SearchResult>>, weights: map<string, real>, cur: string,
    bonus: real, priority: bool, key: string)
    requires EntryAccumulated(e, contributions, count, o, all, weights, all.Keys, cur, [], key)
    ensures Finished(e, contributions, count, bonus, priority).Key == key
    ensures IsMergedEntry(Finished(e, contributions, count, bonus, priority), all, weights, bonus, priority)
  {
    CompletedEntry(e, contributions, count, o, all, weights, cur, key);
    SeedMerged(all, weights, bonus, priority, o.0, o.1, Finished(e, contributions, count, bonus, priority));
  }

  /** Every entry of the completed accumulation, once finished, is the merged entry of its key. */
  lemma AllFinished(
    scoreMap: map<string, SearchResult>, contributionMap: map<string, map<string, real>>,
    sourceCountMap: map<string, int>, origin: map<string, (string, nat)>,
    all: map<string, seq<SearchResult>>, weights: map<string, real>, bonus: real, priority: bool)
    requires Settled(scoreMap, contributionMap, sourceCountMap, origin, all, weights, all.Keys)
    ensures forall key | key in scoreMap ::
      && key in contributionMap && key in sourceCountMap
      && Finished(scoreMap[key], contributionMap[key], sourceCountMap[key], bonus, priority).Key == key
      && IsMergedEntry(Finished(scoreMap[key], contributionMap[key], sourceCountMap[key], bonus, priority), all, weights, bonus, priority)
  {
    forall key | key in scoreMap
      ensures key in contributionMap && key in sourceCountMap
      ensures Finished(scoreMap[key], contributionMap[key], sourceCountMap[key], bonus, priority).Key == key
      ensures IsMergedEntry(Finished(scoreMap[key], contributionMap[key], sourceCountMap[key], bonus, priority), all, weights, bonus, priority)
    {
      FinishEntry(scoreMap[key], contributionMap[key], sourceCountMap[key], origin[key], all, weights, "", bonus, priority, key);
    }
  }

  /** A result with the fused score, the display fields of result `k` of backend `n` and the
      annotated payload is a merged entry. */
  lemma SeedMerged(all: map<string, seq<SearchResult>>, weights: map<string, real>, bonus: real, priority: bool,
                   n: string, k: nat, result: SearchResult)
    requires n in all && k < |all[n]|
    requires var count := TotalHits(all.Keys, all, result.Key);
      var boosted := priority && count > 1;
      var sum := TotalShare(all.Keys, all, weights, result.Key);
      && result.Score == Boosted(sum, bonus, boosted)
      && all[n][k].Key == result.Key && result.Title == all[n][k].Title && result.Content == all[n][k].Content
      && result.Payload == Annotated(all[n][k].Payload, Contributions(all.Keys, all, weights, result.Key), count, boosted)
    ensures IsMergedEntry(result, all, weights, bonus, priority)
  {
  }

  /** Once every backend is done and no partial prefix is left, an entry holds the totals. */
  lemma CompletedEntry(
    e: SearchResult, contributions: map<string, real>, count: int, o: (string, nat),
    all: map<string, seq<SearchResult>>, weights: map<string, real>, cur: string, key: string)
    requires EntryAccumulated(e, contributions, count, o, all, weights, all.Keys, cur, [], key)
    ensures e.Key == key && count == TotalHits(all.Keys, all, key) && e.Score == TotalShare(all.Keys, all, weights, key)
    ensures contributions == Contributions(all.Keys, all, weights, key)
    ensures Seeds(e, o, all)
  {
    assert Hits([], key) == 0 && Share([], WeightOf(weights, cur), key) == 0.0;
  }

  class HybridSearcher {
    var searchers: map<string, Searcher>
    var weights: map<string, real>
    var config: Option<SearchConfig>
    var overlapBonus: real
    var enableOverlapPriority: bool

    /** `NewHybridSearcher`: no backends, bonus 2.0, overlap priority on. */
    constructor (config: Option<SearchConfig>)
      ensures searchers == map[] && weights == map[] && this.config == config
      ensures overlapBonus == 2.0 && enableOverlapPriority
    {
      searchers := map[];
      weights := map[];
      this.config := config;
      overlapBonus := 2.0;
      enableOverlapPriority := true;
    }

    /** `AddSearcher`: registers (or re-registers, replacing) `name`. */
    method AddSearcher(name: string, searcher: Searcher, weight: real)
      modifies this
      ensures searchers == old(searchers)[name := searcher] && weights == old(weights)[name := weight]
      ensures config == old(config) && overlapBonus == old(overlapBonus)
      ensures enableOverlapPriority == old(enableOverlapPriority)
    {
      searchers := searchers[name := searcher];
      weights := weights[name := weight];
    }

    method SetOverlapBonus(bonus: real)
      modifies this
      ensures overlapBonus == bonus
      ensures searchers == old(searchers) && weights == old(weights) && config == old(config)
      ensures enableOverlapPriority == old(enableOverlapPriority)
    {
      overlapBonus := bonus;
    }

    method SetOverlapPriority(enable: bool)
      modifies this
      ensures enableOverlapPriority == enable
      ensures searchers == old(searchers) && weights == old(weights) && config == old(config)
      ensures overlapBonus == old(overlapBonus)
    {
      enableOverlapPriority := enable;
    }

    /** `normalizeScores`: finds the maximum (starting from 0) and, unless it is 0, divides
        every score by it into a new buffer. */
    method NormalizeScores(results: seq<SearchResult>) returns (normalized: seq<SearchResult>)
      ensures normalized == Normalized(results)
    {
      if |results| == 0 {
        return results;
      }
      var maxScore := 0.0;
      for i := 0 to |results|
        invariant maxScore == MaxScore(results[..i])
      {
        assert results[..i + 1][..i] == results[..i];
        if results[i].Score > maxScore {
          maxScore := results[i].Score;
        }
      }
      assert results[..|results|] == results;
      if maxScore == 0.0 {
        return results;
      }
      var buffer := new SearchResult[|results|];
      for i := 0 to |results|
        invariant forall k :: 0 <= k < i ==> buffer[k] == results[k].(Score := results[k].Score / maxScore)
      {
        buffer[i] := results[i];
        buffer[i] := buffer[i].(Score := results[i].Score / maxScore);
      }
      normalized := buffer[..];
    }

    /** `mergeResults`: accumulates the weighted normalised scores per key, visiting the
        backends and then the keys in an arbitrary order, applies the overlap bonus and
        annotates the payload, then sorts. */
    method MergeResults(allResults: map<string, seq<SearchResult>>) returns (finalResults: seq<SearchResult>)
      ensures MergedFrom(finalResults, allResults, weights, overlapBonus, enableOverlapPriority)
    {
      var scoreMap, contributionMap, sourceCountMap := Accumulate(allResults);
      ghost var w, bonus, priority := weights, overlapBonus, enableOverlapPriority;
      ghost var ok := (e: SearchResult) => IsMergedEntry(e, allResults, w, bonus, priority);
      var unsorted := Flatten(scoreMap, contributionMap, sourceCountMap, ok);
      finalResults := SortRanked(unsorted, enableOverlapPriority);
      PermutationKeepsDistinctKeys(unsorted, finalResults);
      PermutationKeeps(unsorted, finalResults, ok);
      forall key | Occurs(allResults, key) ensures exists i :: 0 <= i < |finalResults| && finalResults[i].Key == key {
        var k :| 0 <= k < |unsorted| && unsorted[k].Key == key;
        var j :| 0 <= j < |finalResults| && finalResults[j] == unsorted[k];
      }
      assert forall i | 0 <= i < |finalResults| :: ok(finalResults[i]);
    }

    /** The first phase of `mergeResults`: every backend's normalised results, in an
        arbitrary order of the backends, are accumulated into the three maps. Afterwards
        there is an entry exactly for each key some backend returned, and each entry, once
        finished, is the merged entry of its key. */
    method Accumulate(allResults: map<string, seq<SearchResult>>)
      returns (scoreMap: map<string, SearchResult>, contributionMap: map<string, map<string, real>>,
               sourceCountMap: map<string, int>)
      ensures forall key :: key in scoreMap <==> Occurs(allResults, key)
      ensures forall key | key in scoreMap ::
        && key in contributionMap && key in sourceCountMap
        && Finished(scoreMap[key], contributionMap[key], sourceCountMap[key], overlapBonus, enableOverlapPriority).Key == key
        && IsMergedEntry(Finished(scoreMap[key], contributionMap[key], sourceCountMap[key], overlapBonus, enableOverlapPriority),
                         allResults, weights, overlapBonus, enableOverlapPriority)
    {
      scoreMap, contributionMap, sourceCountMap := map[], map[], map[];
      ghost var origin: map<string, (string, nat)> := map[];
      ghost var done: set<string> := {};
      var pending := allResults.Keys;
      while pending != {}
        invariant done <= allResults.Keys && pending == allResults.Keys - done
        invariant Settled(scoreMap, contributionMap, sourceCountMap, origin, allResults, weights, done)
        decreases pending
      {
        var searcherName :| searcherName in pending;
        scoreMap, contributionMap, sourceCountMap, origin :=
          AccumulateBackend(scoreMap, contributionMap, sourceCountMap, origin, allResults, done, searcherName);
        done := done + {searcherName};
        pending := pending - {searcherName};
      }
      assert done == allResults.Keys;
      SettledCovers(scoreMap, contributionMap, sourceCountMap, origin, allResults, weights);
      AllFinished(scoreMap, contributionMap, sourceCountMap, origin, allResults, weights, overlapBonus, enableOverlapPriority);
    }

    /** The body of the backend loop of `mergeResults` for backend `searcherName`: its
        results are normalised, then each is counted, weighted and added to its key's entry,
        which the first result with a new key seeds. */
    method AccumulateBackend(
      scoreMap: map<string, SearchResult>, contributionMap: map<string, map<string, real>>,
      sourceCountMap: map<string, int>, ghost origin: map<string, (string, nat)>,
      allResults: map<string, seq<SearchResult>>, ghost done: set<string>, searcherName: string)
      returns (scoreMap': map<string, SearchResult>, contributionMap': map<string, map<string, real>>,
               sourceCountMap': map<string, int>, ghost origin': map<string, (string, nat)>)
      requires done <= allResults.Keys && searcherName in allResults && searcherName !in done
      requires Settled(scoreMap, contributionMap, sourceCountMap, origin, allResults, weights, done)
      ensures Settled(scoreMap', contributionMap', sourceCountMap', origin', allResults, weights, done + {searcherName})
    {
      scoreMap', contributionMap', sourceCountMap', origin' := scoreMap, contributionMap, sourceCountMap, origin;
      var weight := WeightOf(weights, searcherName);
      var normalizedResults := NormalizeScores(allResults[searcherName]);
      Restart(scoreMap', contributionMap', sourceCountMap', origin', allResults, weights, done, "", searcherName);
      assert normalizedResults[..0] == [];
      for j := 0 to |normalizedResults|
        invariant Accumulated(scoreMap', contributionMap', sourceCountMap', origin', allResults, weights, done, searcherName, normalizedResults[..j])
      {
        var result := normalizedResults[j];
        assert normalizedResults[..j + 1] == normalizedResults[..j] + [result];
        scoreMap', contributionMap', sourceCountMap', origin' :=
          AddResult(scoreMap', contributionMap', sourceCountMap', origin', allResults, done, searcherName,
            normalizedResults[..j], j, result, weight);
      }
      assert normalizedResults[..|normalizedResults|] == normalizedResults;
      FinishBackend(scoreMap', contributionMap', sourceCountMap', origin', allResults, weights, done, searcherName);
      Restart(scoreMap', contributionMap', sourceCountMap', origin', allResults, weights, done + {searcherName}, searcherName, "");
    }

    /** The body of the inner loop of `mergeResults` for `result`, the `j`-th normalised
        result of backend `searcherName`: its source count goes up by one, and its weighted
        score is added to its key's entry, or seeds a new entry when its key is new. */
    method AddResult(
      scoreMap: map<string, SearchResult>, contributionMap: map<string, map<string, real>>,
      sourceCountMap: map<string, int>, ghost origin: map<string, (string, nat)>,
      allResults: map<string, seq<SearchResult>>, ghost done: set<string>, searcherName: string,
      ghost part: seq<SearchResult>, j: nat, result: SearchResult, weight: real)
      returns (scoreMap': map<string, SearchResult>, contributionMap': map<string, map<string, real>>,
               sourceCountMap': map<string, int>, ghost origin': map<string, (string, nat)>)
      requires done <= allResults.Keys && searcherName in allResults && searcherName !in done
      requires weight == WeightOf(weights, searcherName)
      requires j == |part| && j < |Normalized(allResults[searcherName])| && result == Normalized(allResults[searcherName])[j]
      requires Accumulated(scoreMap, contributionMap, sourceCountMap, origin, allResults, weights, done, searcherName, part)
      ensures Accumulated(scoreMap', contributionMap', sourceCountMap', origin', allResults, weights, done, searcherName, part + [result])
    {
      var contribution := Weighted(result.Score, weight);
      var count := if result.Key in sourceCountMap then sourceCountMap[result.Key] else 0;
      sourceCountMap' := sourceCountMap[result.Key := count + 1];
      if result.Key in scoreMap {
        AddExisting(scoreMap, contributionMap, sourceCountMap, origin, allResults, weights, done, searcherName, part, result, contribution);
        assert count == sourceCountMap[result.Key];
        scoreMap' := scoreMap[result.Key := scoreMap[result.Key].(Score := scoreMap[result.Key].Score + contribution)];
        var contributions := if result.Key in contributionMap then contributionMap[result.Key] else map[];
        assert contributions == contributionMap[result.Key];
        contributionMap' := contributionMap[result.Key := contributions[searcherName := contribution]];
        origin' := origin;
      } else {
        AddNew(scoreMap, contributionMap, sourceCountMap, origin, allResults, weights, done, searcherName, part, j, result, contribution);
        assert result.Key !in sourceCountMap;
        scoreMap' := scoreMap[result.Key := result.(Score := contribution)];
        contributionMap' := contributionMap[result.Key := map[searcherName := contribution]];
        origin' := origin[result.Key := (searcherName, j)];
      }
    }

    /** The second phase of `mergeResults`: every entry, in an arbitrary order of the keys,
        is finished (see `Finished`) and appended. `ok` stands for any property every
        finished entry has; `MergeResults` passes `IsMergedEntry`. */
    method Flatten(
      scoreMap: map<string, SearchResult>, contributionMap: map<string, map<string, real>>,
      sourceCountMap: map<string, int>, ghost ok: SearchResult -> bool)
      returns (unsorted: seq<SearchResult>)
      requires forall key | key in scoreMap ::
        && key in contributionMap && key in sourceCountMap
        && Finished(scoreMap[key], contributionMap[key], sourceCountMap[key], overlapBonus, enableOverlapPriority).Key == key
        && ok(Finished(scoreMap[key], contributionMap[key], sourceCountMap[key], overlapBonus, enableOverlapPriority))
      ensures DistinctKeys(unsorted)
      ensures forall i :: 0 <= i < |unsorted| ==> ok(unsorted[i])
      ensures forall key | key in scoreMap :: exists i :: 0 <= i < |unsorted| && unsorted[i].Key == key
    {
      unsorted := [];
      ghost var position: map<string, nat> := map[];
      ghost var visited: set<string> := {};
      var unvisited := scoreMap.Keys;
      while unvisited != {}
        invariant unvisited <= scoreMap.Keys && visited == scoreMap.Keys - unvisited
        invariant Listed(unsorted, position, visited, ok)
        decreases unvisited
      {
        var key :| key in unvisited;
        var result := FinishResult(scoreMap[key], contributionMap[key], sourceCountMap[key]);
        ListedAppend(unsorted, position, visited, ok, result);
        position := position[key := |unsorted|];
        unsorted := unsorted + [result];
        visited := visited + {key};
        unvisited := unvisited - {key};
      }
      forall key | key in scoreMap ensures exists i :: 0 <= i < |unsorted| && unsorted[i].Key == key {
        assert key in position;
      }
      ListedDistinct(unsorted, position, visited, ok);
    }

    /** The body of the key loop of `mergeResults`: the entry gets the overlap bonus when
        boosted and its payload is annotated with the contributions and the count. */
    method FinishResult(entry: SearchResult, contributions: map<string, real>, count: int) returns (result: SearchResult)
      ensures result == Finished(entry, contributions, count, overlapBonus, enableOverlapPriority)
    {
      result := entry;
      if enableOverlapPriority && count > 1 {
        result := result.(Score := result.Score * overlapBonus);
        result := result.(Payload := result.Payload["overlap_count" := IntValue(count)]);
        result := result.(Payload := result.Payload["overlap_bonus_applied" := BoolValue(true)]);
      }
      result := result.(Payload := result.Payload["score_contributions" := ContributionsValue(contributions)]);
      result := result.(Payload := result.Payload["source_count" := IntValue(count)]);
    }

    /** The backend loop of `Search`: every registered backend, in an arbitrary order, is
        asked for `limit` results; a failed call is skipped. */
    method CollectResults(query: string, limit: int, backend: Backend) returns (allResults: map<string, seq<SearchResult>>)
      ensures allResults == Collected(searchers.Keys, searchers, backend, query, limit)
    {
      allResults := map[];
      var pending := searchers.Keys;
      while pending != {}
        invariant pending <= searchers.Keys
        invariant allResults == Collected(searchers.Keys - pending, searchers, backend, query, limit)
        decreases pending
      {
        var name :| name in pending;
        var response := backend(searchers[name], query, limit);
        if response.Ok? {
          allResults := allResults[name := response.value];
        }
        pending := pending - {name};
      }
      assert searchers.Keys - pending == searchers.Keys;
    }

    /** The minimum-score loop of `Search`: keeps, in order, the results scoring at least
        `minScore`. */
    method FilterByMinScore(results: seq<SearchResult>, minScore: real) returns (filtered: seq<SearchResult>)
      ensures filtered == AtLeast(results, minScore)
    {
      filtered := [];
      for i := 0 to |results|
        invariant filtered == AtLeast(results[..i], minScore)
      {
        assert results[..i + 1][..i] == results[..i];
        if results[i].Score >= minScore {
          filtered := filtered + [results[i]];
        }
      }
      assert results[..|results|] == results;
    }

    /** `Search`: fails when no backend is registered; otherwise asks every backend (a failed
        call is skipped), merges, drops entries below a positive `MinScore` and keeps the
        first `limit` entries when `limit` is positive. */
    method Search(query: string, limit: int, backend: Backend) returns (r: Result<seq<SearchResult>, SearchError>)
      ensures searchers == map[] ==> r == Err(NoSearchersConfigured)
      ensures searchers != map[] ==> r.Ok?
      ensures r.Ok? ==>
        exists merged ::
          && MergedFrom(merged, Collected(searchers.Keys, searchers, backend, query, limit), weights, overlapBonus, enableOverlapPriority)
          && r.value == Truncated(Filtered(merged, config), limit)
    {
      if |searchers| == 0 {
        return Err(NoSearchersConfigured);
      }
      var allResults := CollectResults(query, limit, backend);
      var mergedResults := MergeResults(allResults);
      ghost var merged := mergedResults;
      if config.Some? && config.value.MinScore > 0.0 {
        mergedResults := FilterByMinScore(mergedResults, config.value.MinScore);
      }
      if limit > 0 && |mergedResults| > limit {
        mergedResults := mergedResults[..limit];
      }
      return Ok(mergedResults);
    }
  }
}
