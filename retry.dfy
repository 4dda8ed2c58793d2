/** The retry loop of `Do` and `DoWithData` (pkg/retry/retry.go).

    The environment of a run is given as parameters:
    - `fn(k)` is what the `k`-th call of the user's function returns (calls are numbered from 0),
      so a function whose behaviour depends on how often it was called is modelled exactly;
    - `cancelled(k)` says whether the `select` of the `k`-th wait takes the `ctx.Done()` branch
      rather than the timer branch;
    - `ctxErr` is `ctx.Err()` at that moment.
    The waits themselves are not timed: the durations the timer is reset to are returned. */
module Retry {
  import W = Wrappers
  import opened RetryOptions

  /** What one call of the user's function returns: a value and an error, nil as `None`. */
  datatype Reply<T> = Reply(value: T, err: W.Option<Error>)

  /** The end of a run: the returned value and error, how many calls were made and the
      durations of the waits that were started, in order. */
  datatype Outcome<T> = Outcome(result: T, err: W.Option<Error>, calls: nat, waits: seq<Duration>)

  function Min(a: int, b: int): int {
    if a <= b then a else b
  }

  /** The duration of the `k`-th wait: `min(backoff, maxBackoff)` first, then doubled and
      capped by `maxBackoff` after each completed wait. */
  function BackoffAt(o: Options, k: nat): Duration {
    if k == 0 then Min(o.backoff, o.maxBackoff) else Min(BackoffAt(o, k - 1) * 2, o.maxBackoff)
  }

  /** The first `n` wait durations. */
  function Waits(o: Options, n: nat): (r: seq<Duration>)
    ensures |r| == n && forall k :: 0 <= k < n ==> r[k] == BackoffAt(o, k)
  {
    if n == 0 then [] else Waits(o, n - 1) + [BackoffAt(o, n - 1)]
  }

  /** Whether a run goes on after the `i`-th call: it failed with a retryable error, a retry
      is left and the wait that follows is not cut short by cancellation. */
  predicate Continues<T>(o: Options, fn: nat -> Reply<T>, cancelled: nat -> bool, i: nat) {
    fn(i).err.Some? && o.retryable(fn(i).err.value) && i < o.maxRetries && !cancelled(i)
  }

  /** The run from the moment the `i`-th call has returned, as a recursive reference
      definition of the loop. */
  function RunFrom<T>(o: Options, fn: nat -> Reply<T>, cancelled: nat -> bool, ctxErr: Error, i: nat): (r: Outcome<T>)
    ensures i < r.calls
    decreases if i < o.maxRetries then o.maxRetries - i else 0
  {
    var reply := fn(i);
    if reply.err.None? || !o.retryable(reply.err.value) || i >= o.maxRetries then
      Outcome(reply.value, reply.err, i + 1, Waits(o, i))
    else if cancelled(i) then
      Outcome(reply.value, W.Some(Joined(ctxErr, reply.err.value)), i + 1, Waits(o, i + 1))
    else
      RunFrom(o, fn, cancelled, ctxErr, i + 1)
  }

  /** A whole run with settings `o`. */
  function Run<T>(o: Options, fn: nat -> Reply<T>, cancelled: nat -> bool, ctxErr: Error): (r: Outcome<T>)
    ensures 0 < r.calls
  {
    RunFrom(o, fn, cancelled, ctxErr, 0)
  }

  /** `DoWithData`: apply the options to the defaults, call once, then retry while the error is
      retryable and retries are left, waiting before each retry. */
  method DoWithData<T>(fn: nat -> Reply<T>, cancelled: nat -> bool, ctxErr: Error, opts: seq<Option>)
    returns (result: T, err: W.Option<Error>, calls: nat, waits: seq<Duration>)
    ensures Outcome(result, err, calls, waits) == Run(Configure(opts), fn, cancelled, ctxErr)
  {
    var options := DefaultOptions;
    for n := 0 to |opts|
      invariant options == ApplyAll(DefaultOptions, opts[..n])
    {
      assert opts[..n + 1][..n] == opts[..n];
      options := Apply(options, opts[n]);
    }
    assert opts[..|opts|] == opts;
    var backoff := Min(options.backoff, options.maxBackoff);

    var reply := fn(0);
    result, err, calls, waits := reply.value, reply.err, 1, [];
    if err.None? {
      return;
    } else if !options.retryable(err.value) {
      return;
    }

    var i := 0;
    while i < options.maxRetries
      invariant 0 <= i
      invariant calls == i + 1 && waits == Waits(options, i) && backoff == BackoffAt(options, i)
      invariant result == fn(i).value && err == fn(i).err && err.Some? && options.retryable(err.value)
      invariant RunFrom(options, fn, cancelled, ctxErr, i) == Run(options, fn, cancelled, ctxErr)
    {
      waits := waits + [backoff];
      if cancelled(i) {
        err := W.Some(Joined(ctxErr, err.value));
        return;
      }
      backoff := Min(backoff * 2, options.maxBackoff);

      reply := fn(i + 1);
      result, err, calls := reply.value, reply.err, calls + 1;
      if err.None? {
        return;
      } else if !options.retryable(err.value) {
        return;
      }
      i := i + 1;
    }
  }

  /** `fn` of `Do`, which returns only an error, as a function with an empty result. */
  function Unit(fn: nat -> W.Option<Error>): nat -> Reply<()> {
    (k: nat) => Reply((), fn(k))
  }

  /** `Do`: the same loop as `DoWithData`, for a function that returns only an error. */
  method Do(fn: nat -> W.Option<Error>, cancelled: nat -> bool, ctxErr: Error, opts: seq<Option>)
    returns (err: W.Option<Error>, calls: nat, waits: seq<Duration>)
    ensures var r := Run(Configure(opts), Unit(fn), cancelled, ctxErr);
      err == r.err && calls == r.calls && waits == r.waits
  {
    var _, e, c, w := DoWithData(Unit(fn), cancelled, ctxErr, opts);
    err, calls, waits := e, c, w;
  }

  // ---------------------------------------------------------------------------------------
  // Properties of a run

  /** How a run ends. With `n` the index of the last call: every earlier call failed with a
      retryable error and its wait completed; the value of the last call is returned; a run
      stops after call `n` only when it succeeded, failed with a non-retryable error, used up
      the retries or was cancelled in the wait after it; and the returned error is that call's
      error, joined after `ctxErr` exactly when the run was cancelled. The waits are the
      backoff durations, one per retry plus the cancelled one. */
  lemma {:induction false} RunFromEnds<T>(o: Options, fn: nat -> Reply<T>, cancelled: nat -> bool, ctxErr: Error, i: nat)
    requires i == 0 || i <= o.maxRetries
    ensures var r := RunFrom(o, fn, cancelled, ctxErr, i);
      var n := r.calls - 1;
      var stopped := fn(n).err.Some? && o.retryable(fn(n).err.value) && n < o.maxRetries && cancelled(n);
      && (forall k :: i <= k < n ==> Continues(o, fn, cancelled, k))
      && !Continues(o, fn, cancelled, n)
      && r.result == fn(n).value
      && r.err == (if stopped then W.Some(Joined(ctxErr, fn(n).err.value)) else fn(n).err)
      && r.waits == Waits(o, if stopped then n + 1 else n)
    decreases if i < o.maxRetries then o.maxRetries - i else 0
  {
    var reply := fn(i);
    if reply.err.None? || !o.retryable(reply.err.value) || i >= o.maxRetries || cancelled(i) {
    } else {
      RunFromEnds(o, fn, cancelled, ctxErr, i + 1);
    }
  }

  lemma RunEnds<T>(o: Options, fn: nat -> Reply<T>, cancelled: nat -> bool, ctxErr: Error)
    ensures var r := Run(o, fn, cancelled, ctxErr);
      var n := r.calls - 1;
      var stopped := fn(n).err.Some? && o.retryable(fn(n).err.value) && n < o.maxRetries && cancelled(n);
      && (forall k :: 0 <= k < n ==> Continues(o, fn, cancelled, k))
      && !Continues(o, fn, cancelled, n)
      && r.result == fn(n).value
      && r.err == (if stopped then W.Some(Joined(ctxErr, fn(n).err.value)) else fn(n).err)
      && r.waits == Waits(o, if stopped then n + 1 else n)
  {
    RunFromEnds(o, fn, cancelled, ctxErr, 0);
  }

  /** A run makes at least one and at most `maxRetries + 1` calls (one call when `maxRetries`
      is not positive), and starts no more waits than calls. */
  lemma {:induction false} RunFromBounded<T>(o: Options, fn: nat -> Reply<T>, cancelled: nat -> bool, ctxErr: Error, i: nat)
    ensures var r := RunFrom(o, fn, cancelled, ctxErr, i);
      && i < r.calls <= (if i < o.maxRetries then o.maxRetries else i) + 1
      && r.calls - 1 <= |r.waits| <= r.calls
    decreases if i < o.maxRetries then o.maxRetries - i else 0
  {
    var reply := fn(i);
    if reply.err.None? || !o.retryable(reply.err.value) || i >= o.maxRetries || cancelled(i) {
    } else {
      RunFromBounded(o, fn, cancelled, ctxErr, i + 1);
    }
  }

  lemma RunBounded<T>(o: Options, fn: nat -> Reply<T>, cancelled: nat -> bool, ctxErr: Error)
    ensures var r := Run(o, fn, cancelled, ctxErr);
      1 <= r.calls <= (if 0 < o.maxRetries then o.maxRetries else 0) + 1
  {
    RunFromBounded(o, fn, cancelled, ctxErr, 0);
  }

  /** A first call that succeeds ends the run: one call, no wait, its value and a nil error. */
  lemma FirstSuccess<T>(o: Options, fn: nat -> Reply<T>, cancelled: nat -> bool, ctxErr: Error)
    requires fn(0).err.None?
    ensures Run(o, fn, cancelled, ctxErr) == Outcome(fn(0).value, W.None, 1, [])
  {
  }

  /** A run whose calls `i` to `n - 1` all continue reaches call `n`. */
  lemma {:induction false} RunFromSkips<T>(o: Options, fn: nat -> Reply<T>, cancelled: nat -> bool, ctxErr: Error, i: nat, n: nat)
    requires i <= n
    requires forall k :: i <= k < n ==> Continues(o, fn, cancelled, k)
    ensures RunFrom(o, fn, cancelled, ctxErr, i) == RunFrom(o, fn, cancelled, ctxErr, n)
    decreases n - i
  {
    if i < n {
      assert Continues(o, fn, cancelled, i);
      RunFromSkips(o, fn, cancelled, ctxErr, i + 1, n);
    }
  }

  /** A call that fails with a non-retryable error is the last one, and its error and value
      are returned unchanged. */
  lemma NonRetryableStops<T>(o: Options, fn: nat -> Reply<T>, cancelled: nat -> bool, ctxErr: Error, n: nat)
    requires fn(n).err.Some? && !o.retryable(fn(n).err.value)
    requires forall k :: 0 <= k < n ==> Continues(o, fn, cancelled, k)
    ensures Run(o, fn, cancelled, ctxErr) == Outcome(fn(n).value, fn(n).err, n + 1, Waits(o, n))
  {
    RunFromSkips(o, fn, cancelled, ctxErr, 0, n);
  }

  /** An error that stays retryable and a context that is never cancelled make exactly
      `maxRetries + 1` calls, and the last call's error is returned. */
  lemma PersistentError<T>(o: Options, fn: nat -> Reply<T>, cancelled: nat -> bool, ctxErr: Error)
    requires 0 <= o.maxRetries
    requires forall k :: 0 <= k <= o.maxRetries ==> fn(k).err.Some? && o.retryable(fn(k).err.value) && !cancelled(k)
    ensures Run(o, fn, cancelled, ctxErr) ==
      Outcome(fn(o.maxRetries).value, fn(o.maxRetries).err, o.maxRetries + 1, Waits(o, o.maxRetries))
  {
    RunFromSkips(o, fn, cancelled, ctxErr, 0, o.maxRetries);
  }

  /** A wait that is cancelled ends the run with `Join(ctx.Err(), lastErr)` and the value of
      the last call; no further call is made. */
  lemma CancelledStops<T>(o: Options, fn: nat -> Reply<T>, cancelled: nat -> bool, ctxErr: Error, n: nat)
    requires fn(n).err.Some? && o.retryable(fn(n).err.value) && n < o.maxRetries && cancelled(n)
    requires forall k :: 0 <= k < n ==> Continues(o, fn, cancelled, k)
    ensures Run(o, fn, cancelled, ctxErr) ==
      Outcome(fn(n).value, W.Some(Joined(ctxErr, fn(n).err.value)), n + 1, Waits(o, n + 1))
  {
    RunFromSkips(o, fn, cancelled, ctxErr, 0, n);
  }

  // ---------------------------------------------------------------------------------------
  // Backoff

  /** No wait is longer than `maxBackoff`. */
  lemma BackoffCapped(o: Options, k: nat)
    ensures BackoffAt(o, k) <= o.maxBackoff
  {
  }

  function Pow2(k: nat): (r: nat)
    ensures r >= 1
  {
    if k == 0 then 1 else 2 * Pow2(k - 1)
  }

  /** With a non-negative cap, the `k`-th wait is the initial backoff doubled `k` times, capped
      by `maxBackoff`. */
  lemma {:induction false} BackoffClosedForm(o: Options, k: nat)
    requires o.maxBackoff >= 0
    ensures BackoffAt(o, k) == Min(o.backoff * Pow2(k), o.maxBackoff)
  {
    if k > 0 {
      BackoffClosedForm(o, k - 1);
      var p := o.backoff * Pow2(k - 1);
      assert o.backoff * Pow2(k) == 2 * p;
    }
  }

  /** With non-negative durations the waits never get shorter. */
  lemma {:induction false} BackoffNonDecreasing(o: Options, j: nat, k: nat)
    requires o.backoff >= 0 && o.maxBackoff >= 0 && j <= k
    ensures 0 <= BackoffAt(o, j) <= BackoffAt(o, k)
  {
    if j < k {
      BackoffNonDecreasing(o, j, k - 1);
      BackoffCapped(o, k - 1);
    } else {
      BackoffNonNegative(o, k);
    }
  }

  lemma {:induction false} BackoffNonNegative(o: Options, k: nat)
    requires o.backoff >= 0 && o.maxBackoff >= 0
    ensures BackoffAt(o, k) >= 0
  {
    if k > 0 {
      BackoffNonNegative(o, k - 1);
    }
  }

  // ---------------------------------------------------------------------------------------
  // The cases of pkg/retry/retry_test.go

  function Fail(text: string): W.Option<Error> {
    W.Some(Message(text))
  }

  function Never(k: nat): bool {
    false
  }

  /** "success after 2 retries": two temporary errors, then success, with 5 retries and no
      backoff: three calls and a nil error. */
  lemma SuccessAfterTwoRetries(ctxErr: Error)
    ensures var fn := (k: nat) => if k < 2 then Fail("temporary error") else W.None;
      var r := Run(Configure([WithMaxRetries(5), WithBackoff(0), WithMaxBackoff(0)]), Unit(fn), Never, ctxErr);
      r.calls == 3 && r.err == W.None && r.waits == [0, 0]
  {
    var fn := (k: nat) => if k < 2 then Fail("temporary error") else W.None;
    var opts := [WithMaxRetries(5), WithBackoff(0), WithMaxBackoff(0)];
    assert opts[..2][..1] == opts[..1] && opts[..1][..0] == [] && opts[..3] == opts;
    assert ApplyAll(DefaultOptions, opts[..1]) == Apply(DefaultOptions, opts[0]);
    assert ApplyAll(DefaultOptions, opts[..2]) == Apply(ApplyAll(DefaultOptions, opts[..1]), opts[1]);
    var o := Configure(opts);
    assert o == Apply(ApplyAll(DefaultOptions, opts[..2]), opts[2]);
    assert o.maxRetries == 5 && o.backoff == 0 && o.maxBackoff == 0;
    assert Unit(fn)(0) == Unit(fn)(1) == Reply((), Fail("temporary error")) && Unit(fn)(2) == Reply((), W.None);
    assert Continues(o, Unit(fn), Never, 0) && Continues(o, Unit(fn), Never, 1);
    RunFromSkips(o, Unit(fn), Never, ctxErr, 0, 2);
  }

  /** "fail after max retries": a persistent error with 2 retries: three calls and the error. */
  lemma FailAfterMaxRetries(ctxErr: Error)
    ensures var r := Run(Configure([WithMaxRetries(2), WithBackoff(0), WithMaxBackoff(0)]),
        (k: nat) => Reply("partial data", Fail("persistent error")), Never, ctxErr);
      r.calls == 3 && r.err == Fail("persistent error") && r.result == "partial data"
  {
    var opts := [WithMaxRetries(2), WithBackoff(0), WithMaxBackoff(0)];
    assert opts[..2][..1] == opts[..1] && opts[..1][..0] == [] && opts[..3] == opts;
    assert ApplyAll(DefaultOptions, opts[..1]) == Apply(DefaultOptions, opts[0]);
    assert ApplyAll(DefaultOptions, opts[..2]) == Apply(ApplyAll(DefaultOptions, opts[..1]), opts[1]);
    var o := Configure(opts);
    assert o == Apply(ApplyAll(DefaultOptions, opts[..2]), opts[2]);
    assert o.maxRetries == 2 && o.retryable(Message("persistent error"));
    PersistentError(o, (k: nat) => Reply("partial data", Fail("persistent error")), Never, ctxErr);
  }

  /** "non-retryable error after retries": a retryable error, then one the predicate rejects:
      two calls, and the second call's value and error. */
  lemma NonRetryableAfterRetries(ctxErr: Error)
    ensures var fn := (k: nat) =>
        if k < 1 then Reply("", Fail("retryable error")) else Reply("last attempt data", Fail("non-retryable error"));
      var o := Configure([WithMaxRetries(5), WithBackoff(0), WithMaxBackoff(0),
        WithRetryable(W.Some((e: Error) => e == Message("retryable error")))]);
      var r := Run(o, fn, Never, ctxErr);
      r.calls == 2 && r.err == Fail("non-retryable error") && r.result == "last attempt data"
  {
    var fn := (k: nat) =>
      if k < 1 then Reply("", Fail("retryable error")) else Reply("last attempt data", Fail("non-retryable error"));
    var opts := [WithMaxRetries(5), WithBackoff(0), WithMaxBackoff(0),
      WithRetryable(W.Some((e: Error) => e == Message("retryable error")))];
    assert opts[..3][..2] == opts[..2] && opts[..2][..1] == opts[..1] && opts[..1][..0] == [] && opts[..4] == opts;
    assert ApplyAll(DefaultOptions, opts[..1]) == Apply(DefaultOptions, opts[0]);
    assert ApplyAll(DefaultOptions, opts[..2]) == Apply(ApplyAll(DefaultOptions, opts[..1]), opts[1]);
    assert ApplyAll(DefaultOptions, opts[..3]) == Apply(ApplyAll(DefaultOptions, opts[..2]), opts[2]);
    var o := Configure(opts);
    assert o == Apply(ApplyAll(DefaultOptions, opts[..3]), opts[3]);
    assert o.maxRetries == 5 && o.retryable(Message("retryable error")) && !o.retryable(Message("non-retryable error"));
    assert fn(0) == Reply("", Fail("retryable error")) && fn(1) == Reply("last attempt data", Fail("non-retryable error"));
    assert Continues(o, fn, Never, 0);
    NonRetryableStops(o, fn, Never, ctxErr, 1);
  }

  /** "nil retryable function": `WithRetryable(nil)` retries every error, so one retry makes
      two calls. */
  lemma NilRetryable(ctxErr: Error)
    ensures var fn := (k: nat) => Fail("some error");
      var o := Configure([WithMaxRetries(1), WithBackoff(0), WithMaxBackoff(0), WithRetryable(W.None)]);
      var r := Run(o, Unit(fn), Never, ctxErr);
      r.calls == 2 && r.err == Fail("some error")
  {
    var fn := (k: nat) => Fail("some error");
    var opts := [WithMaxRetries(1), WithBackoff(0), WithMaxBackoff(0), WithRetryable(W.None)];
    assert opts[..3][..2] == opts[..2] && opts[..2][..1] == opts[..1] && opts[..1][..0] == [] && opts[..4] == opts;
    assert ApplyAll(DefaultOptions, opts[..1]) == Apply(DefaultOptions, opts[0]);
    assert ApplyAll(DefaultOptions, opts[..2]) == Apply(ApplyAll(DefaultOptions, opts[..1]), opts[1]);
    assert ApplyAll(DefaultOptions, opts[..3]) == Apply(ApplyAll(DefaultOptions, opts[..2]), opts[2]);
    var o := Configure(opts);
    assert o == Apply(ApplyAll(DefaultOptions, opts[..3]), opts[3]);
    assert o.maxRetries == 1 && o.retryable(Message("some error"));
    PersistentError(o, Unit(fn), Never, ctxErr);
  }
}
