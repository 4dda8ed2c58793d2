/** The settings of the retry helper and the functional options that change them
    (pkg/retry/options.go). */
module RetryOptions {
  import W = Wrappers

  /** A non-nil Go `error`: a plain error with its message, or the value of
      `errors.Join(first, second)` with two non-nil operands. */
  datatype Error = Message(text: string) | Joined(first: Error, second: Error)

  /** A `time.Duration`: a signed count of nanoseconds. */
  type Duration = int

  const Second: Duration := 1_000_000_000

  /** The record `retryOptions`. */
  datatype Options = Options(maxRetries: int, backoff: Duration, maxBackoff: Duration, retryable: Error -> bool)

  /** The predicate installed when none (or a nil one) is given: every error is retryable. */
  function AlwaysRetryable(err: Error): bool {
    true
  }

  /** `defaultOptions`. */
  const DefaultOptions := Options(3, 1 * Second, 30 * Second, AlwaysRetryable)

  /** A functional `Option`; each one writes a single field of the record it is applied to.
      The argument of `WithRetryable` may be nil (`None`). */
  datatype Option =
    | WithMaxRetries(maxRetries: int)
    | WithBackoff(backoff: Duration)
    | WithMaxBackoff(maxBackoff: Duration)
    | WithRetryable(retryable: W.Option<Error -> bool>)

  /** The record after `opt(&options)`. */
  function Apply(o: Options, opt: Option): Options {
    match opt
    case WithMaxRetries(n) => o.(maxRetries := n)
    case WithBackoff(d) => o.(backoff := d)
    case WithMaxBackoff(d) => o.(maxBackoff := d)
    case WithRetryable(f) =>
      match f
      case None => o.(retryable := AlwaysRetryable)
      case Some(g) => o.(retryable := g)
  }

  /** The record after applying `opts` to `o` in order (the `range opts` loop). */
  function ApplyAll(o: Options, opts: seq<Option>): Options {
    if opts == [] then o else Apply(ApplyAll(o, opts[..|opts| - 1]), opts[|opts| - 1])
  }

  /** The settings `Do` and `DoWithData` run with. */
  function Configure(opts: seq<Option>): Options {
    ApplyAll(DefaultOptions, opts)
  }

  /** The argument of an option of each kind, or `None` for an option of another kind. */
  function MaxRetriesOf(opt: Option): W.Option<int> {
    if opt.WithMaxRetries? then W.Some(opt.maxRetries) else W.None
  }

  function BackoffOf(opt: Option): W.Option<Duration> {
    if opt.WithBackoff? then W.Some(opt.backoff) else W.None
  }

  function MaxBackoffOf(opt: Option): W.Option<Duration> {
    if opt.WithMaxBackoff? then W.Some(opt.maxBackoff) else W.None
  }

  function RetryableOf(opt: Option): W.Option<W.Option<Error -> bool>> {
    if opt.WithRetryable? then W.Some(opt.retryable) else W.None
  }

  /** The argument of the last option in `opts` that `pick` selects, if there is one. */
  function Last<X>(opts: seq<Option>, pick: Option -> W.Option<X>): (r: W.Option<X>)
    ensures r.Some? <==> exists i :: 0 <= i < |opts| && pick(opts[i]).Some?
    ensures r.Some? ==>
      exists i :: 0 <= i < |opts| && pick(opts[i]) == r && forall j :: i < j < |opts| ==> pick(opts[j]).None?
  {
    if opts == [] then W.None
    else if pick(opts[|opts| - 1]).Some? then pick(opts[|opts| - 1])
    else
      var r := Last(opts[..|opts| - 1], pick);
      assert forall i :: 0 <= i < |opts| - 1 ==> opts[..|opts| - 1][i] == opts[i];
      r
  }

  /** Whether the predicate selected by the options accepts `err`: the last `WithRetryable`
      with a non-nil argument decides, and a nil argument or no `WithRetryable` at all accepts
      every error. */
  predicate RetryableBy(last: W.Option<W.Option<Error -> bool>>, dflt: Error -> bool, err: Error) {
    match last
    case None => dflt(err)
    case Some(None) => true
    case Some(Some(f)) => f(err)
  }

  /** Each field of the configured record is set by the last option that names it, and is the
      starting value when no option names it: options of other kinds leave a field alone, and a
      later option of the same kind overrides an earlier one. */
  lemma {:induction false} ApplyAllLastWins(o: Options, opts: seq<Option>)
    ensures ApplyAll(o, opts).maxRetries == Last(opts, MaxRetriesOf).GetOr(o.maxRetries)
    ensures ApplyAll(o, opts).backoff == Last(opts, BackoffOf).GetOr(o.backoff)
    ensures ApplyAll(o, opts).maxBackoff == Last(opts, MaxBackoffOf).GetOr(o.maxBackoff)
    ensures forall err :: ApplyAll(o, opts).retryable(err) == RetryableBy(Last(opts, RetryableOf), o.retryable, err)
  {
    if opts != [] {
      ApplyAllLastWins(o, opts[..|opts| - 1]);
    }
  }

  /** The configured settings: 3 retries, a 1s initial and a 30s maximal backoff and an
      always-true predicate unless an option says otherwise; in particular `WithRetryable(nil)`
      makes every error retryable, as the default does. */
  lemma ConfigureDefaults(opts: seq<Option>)
    ensures Configure(opts).maxRetries == Last(opts, MaxRetriesOf).GetOr(3)
    ensures Configure(opts).backoff == Last(opts, BackoffOf).GetOr(Second)
    ensures Configure(opts).maxBackoff == Last(opts, MaxBackoffOf).GetOr(30 * Second)
    ensures forall err :: Configure(opts).retryable(err) == RetryableBy(Last(opts, RetryableOf), AlwaysRetryable, err)
    ensures forall err :: Last(opts, RetryableOf) != W.Some(W.None) || Configure(opts).retryable(err)
  {
    ApplyAllLastWins(DefaultOptions, opts);
  }

  /** Every option writes one field and keeps the other three. */
  lemma ApplyWritesOneField(o: Options, opt: Option)
    ensures Apply(o, opt).maxRetries == MaxRetriesOf(opt).GetOr(o.maxRetries)
    ensures Apply(o, opt).backoff == BackoffOf(opt).GetOr(o.backoff)
    ensures Apply(o, opt).maxBackoff == MaxBackoffOf(opt).GetOr(o.maxBackoff)
    ensures forall err :: Apply(o, opt).retryable(err) == RetryableBy(RetryableOf(opt), o.retryable, err)
  {
  }
}
