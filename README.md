# Hybrid Jira search: fusion, retry, configuration and BM42 indexing — a Dafny model

This project models the core of a Jira-issue retrieval system in Dafny. It covers five pieces:

- **Hybrid fusion** (`cmd/prototype/app/hybrid/hybrid.go`). A `HybridSearcher` keeps named
  backends, each with a weight. `Search` asks every backend for results. A failed backend is
  skipped. `mergeResults` then fuses the answers:
  - it normalises each backend's scores by that backend's maximum;
  - it adds up the weighted scores per document key;
  - it counts how many results carried each key;
  - with overlap priority on, it multiplies the score of a key seen more than once by the
    overlap bonus;
  - it annotates each payload with the contributions and the count;
  - it sorts, with overlap entries first and then by score.

  `Search` finally applies the minimum-score filter and the limit.
- **Search configuration defaults** (`cmd/prototype/app/hybrid/config.go`). `setDefaults` fills
  every unset field in place. `GetDefaultConfig` builds the default configuration.
- **Retry helper** (`pkg/retry/retry.go`, `pkg/retry/options.go`). `Do` and `DoWithData` call a
  function and retry retryable errors, with a capped doubling backoff. Functional options set the
  retry count, the backoff, the backoff cap and the retryable predicate.
- **Model-server configuration** (`scripts/model_server/config_manager.py`). `_load_config`
  checks the required keys and normalises the settings document. `get_available_models` reads the
  models entry, and `add_model` updates it.
- **BM42 indexer** (`scripts/bm42/bm42_indexer.py`). `extract_text` joins the text of a Jira
  document. `index_documents` builds each point's metadata and uploads points in batches of 100.

Layout:

| file | module | contents |
|---|---|---|
| `wrappers.dfy` | `Wrappers` | `Option` and `Result` |
| `hybrid_types.dfy` | `HybridTypes` | result, payload and backend-response types |
| `hybrid_config.dfy` | `HybridConfig` | configuration records, `setDefaults`, `GetDefaultConfig` |
| `hybrid_spec.dfy` | `HybridSpec` | specification functions and lemmas for the fusion |
| `hybrid.dfy` | `Hybrid` | class `HybridSearcher`, proved against `HybridSpec` |
| `retry_options.dfy` | `RetryOptions` | option record, defaults and the functional options |
| `retry.dfy` | `Retry` | retry loop, proved against a recursive specification `Run` |
| `json.dfy` | `Json` | JSON values with Python truthiness and `dict.get` |
| `model_server_config.dfy` | `ModelServerConfig` | class `ConfigManager` and loading |
| `bm42_indexer.dfy` | `Bm42Indexer` | text extraction, metadata, batching |

Modelling choices:

- **Go map iteration order.** The fusion iterates Go maps twice: over the backends and over the
  keys. Their order is unspecified, so each loop picks the next element with a choice (`:|`).
  The specification sums are defined over sets, so the proved results hold for every order.
- **`mergeResults` is split.** It is modelled as:
  - `Accumulate`: the backend loop;
  - `AccumulateBackend` and `AddResult`: its body and its inner loop;
  - `Flatten` and `FinishResult`: the key loop;
  - `SortRanked`: the `sort.Slice` call.
- **The retry options.** In Go the options are a local struct value that each option function
  mutates through a pointer. Here they are a record, and `Apply` returns the updated record.
- **`Do`** is `DoWithData` with a unit result, which matches its code line for line.
- **Modelled, not external.** Backends, the function being retried, context cancellation during
  a wait, the embedding model and the upload target are not modelled as external code. They are
  parameters: functions from the call or the call number to the answer.
- **Behaviour as coded.** The source count of a key counts results, not backends. A backend that
  returns the same key twice therefore makes an overlap on its own. The model keeps this
  behaviour.
- **Default collection names.** `setDefaults` falls back to the collection "default_collection",
  but `GetDefaultConfig` uses "jira_issues". The model keeps both constants as coded.
- **The last upload batch.** It is flushed only when the loop reaches the last embedding. If the
  embedding model returned more vectors than there were texts, the final partial batch would not
  be uploaded. `Uploaded` states this count exactly.

## Model

| member | source | states |
|---|---|---|
| `HybridSpec.MaxScore` | cmd/prototype/app/hybrid/hybrid.go:174-180 | the running maximum starts at 0: it is non-negative, bounds every score, and is 0 or one of the scores |
| `HybridSpec.MaxScoreUnique` | cmd/prototype/app/hybrid/hybrid.go:174-180 | those three properties determine the maximum |
| `HybridSpec.NormalizedFields` | cmd/prototype/app/hybrid/hybrid.go:169-195 | normalising changes only scores; it returns the input when the maximum is 0 and otherwise divides every score by the maximum |
| `HybridSpec.NormalizedMaxIsOne` | cmd/prototype/app/hybrid/hybrid.go:187-194 | after dividing by a non-zero maximum, every score is at most 1 and some score is exactly 1 |
| `HybridSpec.NormalizedInUnitRange` | cmd/prototype/app/hybrid/hybrid.go:168-195 | non-negative scores normalise into [0, 1], with 1 reached when some score is positive, as the "[0, 1] range" comment promises |
| `HybridSpec.NormalizedIdempotent` | cmd/prototype/app/hybrid/hybrid.go:169-195 | normalising twice is normalising once |
| `Hybrid.HybridSearcher.NormalizeScores` | cmd/prototype/app/hybrid/hybrid.go:169-195 | the method returns exactly `Normalized(results)`: the max loop computes `MaxScore`, and the copy loop divides into a fresh array |
| `HybridSpec.Hits` | cmd/prototype/app/hybrid/hybrid.go:98-100 | the number of results carrying a key: positive exactly when some result carries it |
| `HybridSpec.ShareWithoutHits` | cmd/prototype/app/hybrid/hybrid.go:98-122 | a key no result carries gets no weighted score |
| `HybridSpec.TotalShareSplit` | cmd/prototype/app/hybrid/hybrid.go:92-123 | the summed weighted score over a set of backends splits off ANY backend first: iteration order does not change the score |
| `HybridSpec.TotalHitsSplit` | cmd/prototype/app/hybrid/hybrid.go:92-123 | the same for the source count |
| `HybridSpec.TotalShareWithoutHits` | cmd/prototype/app/hybrid/hybrid.go:92-123 | a key no backend returned has summed score 0 |
| `HybridSpec.TotalHitsPositive` | cmd/prototype/app/hybrid/hybrid.go:92-123 | the source count of a key is positive exactly when some backend returned it |
| `HybridSpec.RankedMeansTiers` | cmd/prototype/app/hybrid/hybrid.go:151-163 | ranked order means: with priority, overlap entries come first and scores do not increase within a tier; without priority, scores do not increase (both directions) |
| `HybridSpec.NotLessTransitive` | cmd/prototype/app/hybrid/hybrid.go:151-163 | the comparator's "ranks no better than" is transitive |
| `HybridSpec.Insert` | cmd/prototype/app/hybrid/hybrid.go:151-163 | inserting into a ranked sequence keeps it ranked and adds exactly the element |
| `HybridSpec.SortRanked` | cmd/prototype/app/hybrid/hybrid.go:151-163 | the sort returns a ranked permutation of its input |
| `HybridSpec.PermutationKeeps` | cmd/prototype/app/hybrid/hybrid.go:151-163 | sorting keeps every entry and every property the entries had |
| `HybridSpec.PermutationKeepsDistinctKeys` | cmd/prototype/app/hybrid/hybrid.go:151-163 | sorting keeps the keys distinct |
| `HybridSpec.DistinctCountAtMostOne` | cmd/prototype/app/hybrid/hybrid.go:126-148 | an entry occurs at most once in a list with distinct keys |
| `HybridSpec.Collected` | cmd/prototype/app/hybrid/hybrid.go:52-61 | the results map has an entry exactly for each registered backend whose call succeeded, holding that call's results |
| `HybridSpec.AtLeast` | cmd/prototype/app/hybrid/hybrid.go:67-75 | the filter keeps exactly the entries scoring at least the minimum, and no more entries than it was given |
| `HybridSpec.Truncated` | cmd/prototype/app/hybrid/hybrid.go:78-80 | a positive limit keeps the first min(limit, length) entries; a non-positive limit keeps all |
| `HybridSpec.AtLeastKeepsOrder` | cmd/prototype/app/hybrid/hybrid.go:67-75 | filtering keeps the ranking order and distinct keys |
| `HybridSpec.SearchResultProperties` | cmd/prototype/app/hybrid/hybrid.go:63-82 | the final result is ranked, has distinct keys, holds only merged entries at or above a positive `MinScore` and at most `limit` entries; without a limit it keeps every merged entry that passes the filter |
| `Hybrid.SettledCovers` | cmd/prototype/app/hybrid/hybrid.go:92-123 | after all backends, the score map has an entry exactly for every returned key |
| `Hybrid.Restart` | cmd/prototype/app/hybrid/hybrid.go:92-98 | between backends, the loop state does not depend on which backend comes next |
| `Hybrid.NothingBeforeFirstHit` | cmd/prototype/app/hybrid/hybrid.go:111-121 | a key seen for the first time has nothing accumulated yet: score 0 and no contributions |
| `Hybrid.FinishBackend` | cmd/prototype/app/hybrid/hybrid.go:92-123 | once a backend's results are all added, its share, hits and contribution move into the totals for the set of finished backends |
| `Hybrid.FinishBackendEntry` | cmd/prototype/app/hybrid/hybrid.go:92-123 | the same for the entry of one key |
| `Hybrid.FinishBackendHit` | cmd/prototype/app/hybrid/hybrid.go:102-110 | the same for a key the backend returned |
| `Hybrid.FinishBackendMiss` | cmd/prototype/app/hybrid/hybrid.go:92-123 | the same for a key the backend did not return |
| `Hybrid.ContributionsAddHit` | cmd/prototype/app/hybrid/hybrid.go:107-110 | a backend that returned the key adds its own entry to the key's contribution map |
| `Hybrid.ContributionsAddMiss` | cmd/prototype/app/hybrid/hybrid.go:92-123 | a backend that did not return the key leaves the key's contribution map unchanged |
| `Hybrid.ListedDistinct` | cmd/prototype/app/hybrid/hybrid.go:126-148 | the entries the key loop appends have distinct keys |
| `Hybrid.ListedAppend` | cmd/prototype/app/hybrid/hybrid.go:147 | appending the entry of an unvisited key keeps the listing invariant |
| `Hybrid.AddExisting` | cmd/prototype/app/hybrid/hybrid.go:100-110 | for a key that has an entry, one inner-loop step keeps the accumulation invariant |
| `Hybrid.ExistingEntries` | cmd/prototype/app/hybrid/hybrid.go:100-110 | the same, key by key |
| `Hybrid.AddNew` | cmd/prototype/app/hybrid/hybrid.go:100-121 | for a new key, one inner-loop step seeds the entry and keeps the invariant |
| `Hybrid.NewEntries` | cmd/prototype/app/hybrid/hybrid.go:111-121 | the same, key by key |
| `Hybrid.EntryUntouched` | cmd/prototype/app/hybrid/hybrid.go:98-121 | a step for one key leaves the entries of other keys unchanged |
| `Hybrid.EntryAdd` | cmd/prototype/app/hybrid/hybrid.go:100-110 | an existing entry gains the weighted score, one more count, and its backend's latest contribution |
| `Hybrid.EntryNew` | cmd/prototype/app/hybrid/hybrid.go:112-120 | a new entry holds the weighted score, count 1, one contribution, and the display fields of its result |
| `Hybrid.PartStep` | cmd/prototype/app/hybrid/hybrid.go:98-121 | adding one result to a backend's processed results adds its hit and weighted score, and makes it that backend's last result for its key |
| `Hybrid.FinishEntry` | cmd/prototype/app/hybrid/hybrid.go:127-147 | a finished entry of the completed accumulation is the merged entry of its key |
| `Hybrid.AllFinished` | cmd/prototype/app/hybrid/hybrid.go:126-148 | the same for every entry |
| `Hybrid.SeedMerged` | cmd/prototype/app/hybrid/hybrid.go:127-147 | bonus plus annotations on the seeding result give a merged entry |
| `Hybrid.CompletedEntry` | cmd/prototype/app/hybrid/hybrid.go:92-123 | with every backend done, an entry holds the totals over all backends |
| `Hybrid.HybridSearcher.constructor` | cmd/prototype/app/hybrid/hybrid.go:19-27 | no backends, the given configuration, bonus 2.0, overlap priority on |
| `Hybrid.HybridSearcher.AddSearcher` | cmd/prototype/app/hybrid/hybrid.go:30-33 | registers or replaces the backend and its weight; nothing else changes |
| `Hybrid.HybridSearcher.SetOverlapBonus` | cmd/prototype/app/hybrid/hybrid.go:36-38 | sets the bonus; nothing else changes |
| `Hybrid.HybridSearcher.SetOverlapPriority` | cmd/prototype/app/hybrid/hybrid.go:41-43 | sets the flag; nothing else changes |
| `Hybrid.HybridSearcher.MergeResults` | cmd/prototype/app/hybrid/hybrid.go:86-166 | whatever the map order, the result has one merged entry per returned key and nothing else, with distinct keys, in ranked order. A merged entry's score is the sum of the weighted normalised scores (times the bonus when overlapping). Its payload is annotated with the contributions and the source count |
| `Hybrid.HybridSearcher.Accumulate` | cmd/prototype/app/hybrid/hybrid.go:92-123 | after the backend loop, there is an entry exactly for every returned key, and each entry, once finished, is the merged entry of its key |
| `Hybrid.HybridSearcher.AccumulateBackend` | cmd/prototype/app/hybrid/hybrid.go:93-122 | one backend iteration moves that backend into the finished set |
| `Hybrid.HybridSearcher.AddResult` | cmd/prototype/app/hybrid/hybrid.go:99-121 | one inner-loop iteration extends the accumulation by one result |
| `Hybrid.HybridSearcher.Flatten` | cmd/prototype/app/hybrid/hybrid.go:126-148 | the key loop lists each entry once, finished, with distinct keys |
| `Hybrid.HybridSearcher.FinishResult` | cmd/prototype/app/hybrid/hybrid.go:128-147 | the bonus and the four payload annotations, as `Finished` defines them |
| `Hybrid.HybridSearcher.CollectResults` | cmd/prototype/app/hybrid/hybrid.go:52-61 | the results map is `Collected` over all registered backends |
| `Hybrid.HybridSearcher.FilterByMinScore` | cmd/prototype/app/hybrid/hybrid.go:67-75 | the filter loop computes `AtLeast` |
| `Hybrid.HybridSearcher.Search` | cmd/prototype/app/hybrid/hybrid.go:46-83 | with no backends, the "no searchers configured" error; otherwise success, with a merged result of the collected answers, filtered and truncated |
| `HybridConfig.SearchDefaults` | cmd/prototype/app/hybrid/config.go:63-70 | keeps the other fields; afterwards some weight is non-zero and `MaxResults` is non-zero |
| `HybridConfig.DatabaseDefaults` | cmd/prototype/app/hybrid/config.go:72-82 | keeps the three collection names; afterwards host, port and collection are set |
| `HybridConfig.APIDefaults` | cmd/prototype/app/hybrid/config.go:84-90 | afterwards the server and the timeout are set |
| `HybridConfig.DefaultsOnlyFillZeroFields` | cmd/prototype/app/hybrid/config.go:62-90 | a set field is never overwritten, and an unset one gets its default (0.5/0.5 only when both weights are zero; 10; "localhost"; 6334; "default_collection"; the server URL; 30) |
| `HybridConfig.DefaultsIdempotent` | cmd/prototype/app/hybrid/config.go:62-90 | applying the defaults twice is applying them once |
| `HybridConfig.DefaultConfigIsFixpoint` | cmd/prototype/app/hybrid/config.go:108-133 | the default configuration is left unchanged by `setDefaults` |
| `HybridConfig.Config.SetDefaults` | cmd/prototype/app/hybrid/config.go:62-90 | each section becomes its defaulted value, in place |
| `HybridConfig.Config.SetSearchDefaults` | cmd/prototype/app/hybrid/config.go:63-70 | the search rules, in place; the other sections are unchanged |
| `HybridConfig.Config.SetDatabaseDefaults` | cmd/prototype/app/hybrid/config.go:72-82 | the database rules, in place; the other sections are unchanged |
| `HybridConfig.Config.SetAPIDefaults` | cmd/prototype/app/hybrid/config.go:84-90 | the API rules, in place; the other sections are unchanged |
| `HybridConfig.GetDefaultConfig` | cmd/prototype/app/hybrid/config.go:108-133 | a fresh configuration holding the listed constants |
| `RetryOptions.Last` | pkg/retry/options.go:19-47 | the argument of the last option of a kind: present exactly when such an option exists, and no later option of that kind follows it |
| `RetryOptions.ApplyAllLastWins` | pkg/retry/retry.go:10-13 | after the option loop, each field is set by the last option naming it, or keeps its starting value |
| `RetryOptions.ConfigureDefaults` | pkg/retry/options.go:12-17 | 3 retries, 1s backoff, 30s cap and an always-true predicate unless overridden; `WithRetryable(nil)` accepts every error |
| `RetryOptions.ApplyWritesOneField` | pkg/retry/options.go:21-47 | each option writes its own field and keeps the other three; a nil predicate becomes always-true |
| `Retry.Waits` | pkg/retry/retry.go:17-37 | the n waits are the successive backoff values |
| `Retry.RunFrom` | pkg/retry/retry.go:30-47 | the continuation of the loop from call i makes more than i calls |
| `Retry.Run` | pkg/retry/retry.go:9-48 | at least one call is made |
| `Retry.DoWithData` | pkg/retry/retry.go:50-90 | the result, the error, the number of calls and the waits are those of `Run` with the configured options |
| `Retry.Do` | pkg/retry/retry.go:9-48 | the error, calls and waits are those of `Run` on the unit-valued function |
| `Retry.RunFromEnds` | pkg/retry/retry.go:30-47 | the loop ends on the first success, a non-retryable error, exhausted retries, or a cancellation that returns the joined error |
| `Retry.RunEnds` | pkg/retry/retry.go:9-48 | the same for the whole call: exactly why and with which value and error it returned |
| `Retry.RunFromBounded` | pkg/retry/retry.go:30-45 | the loop makes at most max(maxRetries, 0) + 1 calls in all |
| `Retry.RunBounded` | pkg/retry/retry.go:9-48 | 1 <= calls <= max(maxRetries, 0) + 1 |
| `Retry.FirstSuccess` | pkg/retry/retry.go:20-22 | a first success returns at once: one call and no waits |
| `Retry.RunFromSkips` | pkg/retry/retry.go:30-45 | retried, uncancelled calls are stepped over |
| `Retry.NonRetryableStops` | pkg/retry/retry.go:20-45 | the first non-retryable error after retryable ones is returned with its call's value |
| `Retry.PersistentError` | pkg/retry/retry.go:30-47 | a persistent retryable error makes maxRetries + 1 calls and returns the last error |
| `Retry.CancelledStops` | pkg/retry/retry.go:32-34 | cancellation during a wait returns the joined context and call errors |
| `Retry.BackoffCapped` | pkg/retry/retry.go:17-37 | every wait is at most the cap |
| `Retry.Pow2` | pkg/retry/retry.go:36 | powers of two are positive |
| `Retry.BackoffClosedForm` | pkg/retry/retry.go:17-37 | the k-th wait is min(backoff * 2^k, cap) |
| `Retry.BackoffNonDecreasing` | pkg/retry/retry.go:36 | with non-negative settings, waits never shrink |
| `Retry.BackoffNonNegative` | pkg/retry/retry.go:17-37 | with non-negative settings, waits are non-negative |
| `Retry.SuccessAfterTwoRetries` | pkg/retry/retry_test.go:29-47 | two temporary errors and then success: three calls and a nil error |
| `Retry.FailAfterMaxRetries` | pkg/retry/retry_test.go:200-212 | a persistent error with 2 retries: three calls, the error, and the partial data |
| `Retry.NonRetryableAfterRetries` | pkg/retry/retry_test.go:253-276 | a retryable error, then a non-retryable one: two calls and the last call's data |
| `Retry.NilRetryable` | pkg/retry/retry_test.go:123-136 | with `WithRetryable(nil)` and 1 retry: two calls |
| `Json.Get` | scripts/model_server/config_manager.py:44-46 | `dict.get` returns the stored value, or the default when the key is absent |
| `ModelServerConfig.FirstMissing` | scripts/model_server/config_manager.py:29-33 | no key is reported exactly when all required keys are present and truthy; otherwise the first one that is not |
| `ModelServerConfig.FirstMissingIsFirst` | scripts/model_server/config_manager.py:30-33 | the missing key checked first is the one reported |
| `ModelServerConfig.ModelsIn` | scripts/model_server/config_manager.py:70-72 | the models entry, or an empty object when there is none |
| `ModelServerConfig.ConfigManager.AvailableModels` | scripts/model_server/config_manager.py:70-72 | the manager's `models` entry, or an empty object when there is none |
| `ModelServerConfig.NonObjectDocument` | scripts/model_server/config_manager.py:29-33 | a non-object document never loads: a list or string that the `in` test finds no 'aws_access_key' in stops with that key missing; any other one raises into the generic handler |
| `ModelServerConfig.NonObjectExamples` | scripts/model_server/config_manager.py:29-33 | `[]`, `""` and `"abc"` stop with 'aws_access_key' missing; `"aws_access_key"` and `null` raise |
| `ModelServerConfig.LoadConfig` | scripts/model_server/config_manager.py:17-64 | the loop over the required keys and the defaulting compute `Loaded` |
| `ModelServerConfig.FillDefaults` | scripts/model_server/config_manager.py:35-57 | the setdefault steps and the two guarded steps compute `WithDefaults` |
| `ModelServerConfig.DefaultsInOrder` | scripts/model_server/config_manager.py:35-57 | the four steps in source order add up to the union with the defaults |
| `ModelServerConfig.SetDefaultsAreUnion` | scripts/model_server/config_manager.py:36-55 | setdefault on four distinct keys is a union with the defaults |
| `ModelServerConfig.LoadedRequires` | scripts/model_server/config_manager.py:19-33 | loading succeeds exactly when the document is an object with all four required keys truthy; the reported error is the first missing key in order |
| `ModelServerConfig.WithDefaultsFields` | scripts/model_server/config_manager.py:35-55 | keys already present keep their values; the four defaulted keys are added; region "us-west-2", user "ubuntu", legacy model from `model_path`/`gpu_layers`/`threads`, `base_port` from `server_port` or 8080 |
| `ModelServerConfig.WithDefaultsIdempotent` | scripts/model_server/config_manager.py:35-55 | normalising normalised settings changes nothing |
| `ModelServerConfig.ReloadIsStable` | scripts/model_server/config_manager.py:17-57 | reloading the saved settings gives them back |
| `ModelServerConfig.WithModelEffect` | scripts/model_server/config_manager.py:74-79 | adding fails exactly when `models` exists and is not an object; otherwise the model is available under its id and other models and keys are unchanged |
| `ModelServerConfig.WithModelOverrides` | scripts/model_server/config_manager.py:74-79 | a later addition under the same id replaces an earlier one |
| `ModelServerConfig.ConfigManager.constructor` | scripts/model_server/config_manager.py:13-15 | holds the file name and the settings |
| `ModelServerConfig.ConfigManager.Open` | scripts/model_server/config_manager.py:13-15 | fails exactly when loading fails, with its error; otherwise holds the loaded settings |
| `ModelServerConfig.ConfigManager.AddModel` | scripts/model_server/config_manager.py:74-80 | the settings become `WithModel` of the old ones, or stay unchanged with an error |
| `Bm42Indexer.Truthful` | scripts/bm42/bm42_indexer.py:81 | `filter(None, ...)` keeps exactly the truthy parts |
| `Bm42Indexer.Strings` | scripts/bm42/bm42_indexer.py:81 | join succeeds exactly when every part is a string |
| `Bm42Indexer.JoinLength` | scripts/bm42/bm42_indexer.py:81 | the joined text is the words plus one space between each pair |
| `Bm42Indexer.ExtractText` | scripts/bm42/bm42_indexer.py:60-81 | for a document of the Jira shape, the text exists exactly when every present part (summary, description, comment bodies, key) is a string or falsy, and is then the non-empty strings among them, in that order, joined by single spaces |
| `Bm42Indexer.Field` | scripts/bm42/bm42_indexer.py:64-79 | a key contributes at most one part |
| `Bm42Indexer.Texts` | scripts/bm42/bm42_indexer.py:81 | the kept words are non-empty; when every truthy part is a string, there are none exactly when every part is falsy |
| `Bm42Indexer.BodiesOfObjects` | scripts/bm42/bm42_indexer.py:73-75 | the comment loop over a list of objects collects exactly the bodies that are present, in order |
| `Bm42Indexer.PartsOfShaped` | scripts/bm42/bm42_indexer.py:60-79 | for a document of the Jira shape, the collected parts are the present summary, description, comment bodies and key |
| `Bm42Indexer.StringsOfParts` | scripts/bm42/bm42_indexer.py:81 | filter-and-join fails exactly when a truthy part is not a string, and otherwise keeps the non-empty strings |
| `Bm42Indexer.TextEmpty` | scripts/bm42/bm42_indexer.py:60-81 | the text of a Jira-shaped document is empty exactly when every present part is falsy |
| `Bm42Indexer.NullDescription` | scripts/bm42/bm42_indexer.py:60-81 | summary "a", a null description and key "K" give the text "a K" |
| `Bm42Indexer.NoFieldsOnlyKey` | scripts/bm42/bm42_indexer.py:60-81 | without `fields`, the text is the key (or "") and a non-string key raises |
| `Bm42Indexer.AsJson` | scripts/bm42/bm42_indexer.py:62-79 | one JSON string per word |
| `Bm42Indexer.AsJsonAppend` | scripts/bm42/bm42_indexer.py:62-79 | converting distributes over concatenation |
| `Bm42Indexer.NonEmpty` | scripts/bm42/bm42_indexer.py:81 | exactly the non-empty words |
| `Bm42Indexer.BodiesOfComments` | scripts/bm42/bm42_indexer.py:73-75 | the bodies of comment objects that have one, in order |
| `Bm42Indexer.StringsOfTruthful` | scripts/bm42/bm42_indexer.py:81 | for string parts, filter-and-join keeps the non-empty words |
| `Bm42Indexer.JiraText` | scripts/bm42/bm42_indexer.py:60-81 | a well-formed Jira document yields summary, description, comment bodies and key, with empties dropped, joined by single spaces |
| `Bm42Indexer.NatToString` | scripts/bm42/bm42_indexer.py:97 | `f"{i}"` is a non-empty string of decimal digits |
| `Bm42Indexer.Digit` | scripts/bm42/bm42_indexer.py:97 | a decimal digit character |
| `Bm42Indexer.NatToStringRoundTrip` | scripts/bm42/bm42_indexer.py:97 | reading the digits back gives the number |
| `Bm42Indexer.DefaultKeysDistinct` | scripts/bm42/bm42_indexer.py:97 | distinct documents get distinct default keys "doc_<i>" |
| `Bm42Indexer.MetaFields` | scripts/bm42/bm42_indexer.py:96-100 | metadata: the document key or "doc_<i>"; the summary under `fields` (or at the top level without `fields`) or ""; the first 1000 characters of the text |
| `Bm42Indexer.PrepareAll` | scripts/bm42/bm42_indexer.py:91-101 | when shaping succeeds, one text and metadata per document, in order |
| `Bm42Indexer.PrepareAllFirstError` | scripts/bm42/bm42_indexer.py:91-101 | shaping fails exactly at the first document that raises |
| `Bm42Indexer.ConcatFull` | scripts/bm42/bm42_indexer.py:121-128 | full batches of 100 hold 100 points each |
| `Bm42Indexer.ShapeDocuments` | scripts/bm42/bm42_indexer.py:91-101 | the first loop: the first exception, or all texts and metadata in order |
| `Bm42Indexer.UploadPoints` | scripts/bm42/bm42_indexer.py:108-128 | every batch holds 1 to 100 points, all but the last exactly 100; concatenated, they are points 0, 1, ... pairing the i-th embedding with the i-th metadata; their number is `Uploaded` |
| `Bm42Indexer.IndexDocuments` | scripts/bm42/bm42_indexer.py:83-128 | an exception while shaping uploads nothing; otherwise the batches are `Batched` for the shaped metadata and the embeddings of the texts |

## Left out

- Floating point. `float32` scores, weights and the bonus are modelled as reals. Rounding, NaN
  and infinities are not modelled. `normalizeScores` on NaN scores is therefore not covered.
- Payload aliasing in `mergeResults`. In Go, the seeded entry shares its payload map with the
  backend's result, so the annotations also appear in the backend's own results. The model gives
  each entry its own payload.
- Sort tie order. `sort.Slice` is not stable, so the model states only that the output is a
  ranked permutation. It does not say how equal entries are ordered.
- Display fields. For a key returned by several backends, the title, content and original
  payload depend on which backend Go visits first. `Hybrid.HybridSearcher.MergeResults` states
  only that they come from some result with that key.
- `Hybrid.HybridSearcher.Search`: the backends' context and query embedding are not modelled.
  The backend answers are a function parameter.
- `Retry.DoWithData`: the context and the timer are not modelled. Cancellation during wait k is
  a parameter, and the waits are returned instead of slept. `ctx.Err()` is a parameter too.
- `Retry.BackoffAt`: `time.Duration` is an unbounded integer here. The int64 overflow of
  `backoff * 2` after many doublings is not modelled.
- `Retry.Do`: the function being retried is modelled by the call number → result. Go closures
  with hidden state fit this form.
- The interactive helpers (`add_model_interactive`, `create_template`,
  `print_*`) are not part of this model. They are interactive I/O.
- `_load_config` I/O: reading the file and `sys.exit` are not modelled. Reading becomes a
  `FileContents` parameter, and each exit becomes a `LoadError`.
- `_save_config` is not modelled. It is a file write, so `add_model` is modelled up to the
  in-memory update.
- Printing and the exception message texts are not modelled.
- JSON: integers and floats are both `JNumber`. Objects are maps, so key order (which
  `json.dump` would preserve) is not kept.
- A top-level document that is not an object: a list or string in which `in` finds no
  'aws_access_key' stops with that key missing, exactly as in Python. Every other such document
  raises `TypeError` inside the generic `except`, and is modelled as the single error
  `NotAnObject`; the exception's message is not kept.
- BM42: the embedding model and the Qdrant client are not modelled. Embedding is a function
  parameter, and `upsert` is recorded as the returned sequence of batches.
- `load_documents` and `create_collection` are not modelled. They are file and network I/O.
- BM42 text: `text[:1000]` counts Unicode code points in Python and characters here. The two
  agree for every string of code points.

