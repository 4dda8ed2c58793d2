/** The values exchanged between the fusion engine and its backends (types.go). */
module HybridTypes {
  import opened Wrappers

  /** A value stored in a result's open payload map (Go `map[string]any`). */
  datatype PayloadValue =
    | IntValue(i: int)
    | BoolValue(b: bool)
    | RealValue(r: real)
    | TextValue(s: string)
    | ContributionsValue(byName: map<string, real>)

  /** A result payload; a nil Go map is the empty map here, since the engine only reads it
      or writes it after allocating it. */
  type Payload = map<string, PayloadValue>

  /** One scored result. `Score` is the backend's float32 score, modelled as a real. */
  datatype SearchResult = SearchResult(Key: string, Title: string, Content: string, Score: real, Payload: Payload)

  /** Handle of a registered backend. What a backend answers for a query is given to the
      engine as an oracle (see `Backend`), so the handle only carries an identity. */
  datatype Searcher = Searcher(handle: string)

  /** A failed backend call. */
  datatype BackendError = BackendError(message: string)

  /** What one call of `Searcher.Search(ctx, query, limit)` returns. */
  type Response = Result<seq<SearchResult>, BackendError>

  /** The answers of the backends: the response of searcher `s` to `(query, limit)`. */
  type Backend = (Searcher, string, int) -> Response
}
