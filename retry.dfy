/**
 * `Retrier`: run a block up to `maxAttempts` times, with a fixed delay between
 * attempts, retrying a failure only when the predicate accepts it; a
 * cancellation is never retried. The block is an oracle: what each call of it
 * does. Delays are recorded, in milliseconds, instead of waited.
 */
module Retry {
  import Base

  /** What one call of `block` does: return a value, be cancelled, or throw `E`. */
  datatype Attempt<T, E> = Ok(value: T) | Cancel | Err(error: E)

  /** What `run` throws: the cancellation, the block's error, or a failed `require`/`error`. */
  datatype Thrown<E> = Cancelled | Failed(error: E) | RequirementFailed | Unreachable

  datatype Outcome<T, E> = Returned(value: T) | Threw(thrown: Thrown<E>)

  /** `Retrier(maxAttempts, retryDelay, shouldRetry)`. */
  datatype Retrier<!E> = Retrier(maxAttempts: int, retryDelay: nat, shouldRetry: E -> bool)

  const DefaultMaxAttempts: int := 3
  const DefaultRetryDelay: nat := 500

  /** `Retrier()`: three attempts, 500 ms apart, every error retried. */
  function DefaultRetrier<E(!new)>(): (r: Retrier<E>)
    ensures r.maxAttempts == 3 && r.retryDelay == 500 && forall e :: r.shouldRetry(e)
  {
    Retrier(DefaultMaxAttempts, DefaultRetryDelay, _ => true)
  }

  /** A run: its outcome, the state the block leaves, how often the block ran and the delays between. */
  datatype Trace<T, E, S> = Trace(outcome: Outcome<T, E>, state: S, calls: nat, delays: seq<nat>)

  /**
   * The loop of `run` from attempt `attempt` on, for a block that turns a state
   * into an attempt and a new state.
   */
  function RunFrom<T, E, S>(r: Retrier<E>, block: S -> (Attempt<T, E>, S), s: S, attempt: nat): Trace<T, E, S>
    requires attempt < r.maxAttempts
    decreases r.maxAttempts - attempt
  {
    var (o, s') := block(s);
    match o
    case Ok(v) => Trace(Returned(v), s', 1, [])
    case Cancel => Trace(Threw(Cancelled), s', 1, [])
    case Err(e) =>
      if !r.shouldRetry(e) || attempt == r.maxAttempts - 1 then Trace(Threw(Failed(e)), s', 1, [])
      else
        var next := RunFrom(r, block, s', attempt + 1);
        next.(calls := next.calls + 1, delays := [r.retryDelay] + next.delays)
  }

  /** An attempt whose error is retried: the run goes on from the next attempt, one delay later. */
  lemma RetriedStep<T, E, S>(r: Retrier<E>, block: S -> (Attempt<T, E>, S), s: S, attempt: nat)
    requires attempt < r.maxAttempts - 1
    requires block(s).0.Err? && r.shouldRetry(block(s).0.error)
    ensures var run := RunFrom(r, block, s, attempt);
      var next := RunFrom(r, block, block(s).1, attempt + 1);
      Continues(run, next, 1, [r.retryDelay])
  {
  }

  /** An attempt that is not retried ends the run: its value is returned, or what it threw is thrown. */
  lemma FinalStep<T, E, S>(r: Retrier<E>, block: S -> (Attempt<T, E>, S), s: S, attempt: nat)
    requires attempt < r.maxAttempts
    requires !(block(s).0.Err? && r.shouldRetry(block(s).0.error) && attempt < r.maxAttempts - 1)
    ensures var run := RunFrom(r, block, s, attempt);
      && run.calls == 1 && run.delays == [] && run.state == block(s).1
      && run.outcome == match block(s).0
                        case Ok(v) => Returned(v)
                        case Cancel => Threw(Cancelled)
                        case Err(e) => Threw(Failed(e))
  {
  }

  /** `run(block)`: the `require` on `maxAttempts`, then the loop. */
  function RunSpec<T, E, S>(r: Retrier<E>, block: S -> (Attempt<T, E>, S), s: S): Trace<T, E, S> {
    if r.maxAttempts <= 0 then Trace(Threw(RequirementFailed), s, 0, []) else RunFrom(r, block, s, 0)
  }

  /** A block whose `i`-th call does `outcomes(i)`: its state counts the calls made. */
  function OracleBlock<T, E>(outcomes: nat -> Attempt<T, E>): nat -> (Attempt<T, E>, nat) {
    i => (outcomes(i), i + 1)
  }

  /** `whole` is the run `part` after `calls` calls that waited `delays`. */
  ghost predicate Continues<T, E, S>(whole: Trace<T, E, S>, part: Trace<T, E, S>, calls: nat, delays: seq<nat>) {
    whole.outcome == part.outcome && whole.state == part.state
    && whole.calls == calls + part.calls && whole.delays == delays + part.delays
  }

  /**
   * One turn of the loop, for a run that is `whole` once `calls` calls and
   * `delays` are added: a retried error leads to the next attempt one delay
   * later, and anything else ends `whole` with that call.
   */
  lemma Turn<T, E, S>(r: Retrier<E>, block: S -> (Attempt<T, E>, S), s: S, attempt: nat,
                      whole: Trace<T, E, S>, calls: nat, delays: seq<nat>)
    requires attempt < r.maxAttempts
    requires Continues(whole, RunFrom(r, block, s, attempt), calls, delays)
    ensures var (o, s') := block(s);
      if o.Err? && r.shouldRetry(o.error) && attempt < r.maxAttempts - 1 then
        Continues(whole, RunFrom(r, block, s', attempt + 1), calls + 1, delays + [r.retryDelay])
      else
        && whole.state == s' && whole.calls == calls + 1 && whole.delays == delays
        && whole.outcome == match o
                            case Ok(v) => Returned(v)
                            case Cancel => Threw(Cancelled)
                            case Err(e) => Threw(Failed(e))
  {
    var (o, s') := block(s);
    if o.Err? && r.shouldRetry(o.error) && attempt < r.maxAttempts - 1 {
      var next := RunFrom(r, block, s', attempt + 1);
      assert delays + [r.retryDelay] + next.delays == delays + ([r.retryDelay] + next.delays);
    }
  }

  /**
   * `run` over an oracle block: the `for (attempt in 0..maxAttempts)` loop with
   * an early return on success and a throw on cancellation, on a rejected
   * error, or on the last attempt's error.
   */
  method Run<T, E>(r: Retrier<E>, outcomes: nat -> Attempt<T, E>) returns (outcome: Outcome<T, E>, calls: nat, delays: seq<nat>)
    ensures var run := RunSpec<T, E, nat>(r, OracleBlock(outcomes), 0);
      outcome == run.outcome && calls == run.calls && delays == run.delays
  {
    if r.maxAttempts <= 0 {
      return Threw(RequirementFailed), 0, [];
    }
    calls, delays := 0, [];
    ghost var block: nat -> (Attempt<T, E>, nat) := OracleBlock(outcomes);
    ghost var whole := RunFrom<T, E, nat>(r, block, 0, 0);
    assert Continues(whole, whole, 0, []);
    for attempt := 0 to r.maxAttempts + 1
      invariant attempt < r.maxAttempts
      invariant calls == attempt
      invariant Continues(whole, RunFrom<T, E, nat>(r, block, attempt, attempt), calls, delays)
    {
      var o := outcomes(attempt);
      calls := calls + 1;
      match o {
        case Ok(v) => return Returned(v), calls, delays;
        case Cancel => return Threw(Cancelled), calls, delays;
        case Err(e) =>
          if !r.shouldRetry(e) || attempt == r.maxAttempts - 1 {
            return Threw(Failed(e)), calls, delays;
          }
          ghost var next := RunFrom<T, E, nat>(r, block, attempt + 1, attempt + 1);
          assert whole.delays == (delays + [r.retryDelay]) + next.delays;
          delays := delays + [r.retryDelay];
      }
    }
    assert false;
    outcome := Threw(Unreachable);
  }

  /**
   * What `run` does, stated call by call: with `n` calls, every call before the
   * last threw an error the predicate accepted, one delay separates each pair of
   * calls, and the last call decides: its value is returned, its cancellation
   * rethrown, or its error thrown because the predicate rejected it or no
   * attempt was left.
   */
  lemma {:induction false} RunFromCalls<T, E>(r: Retrier<E>, outcomes: nat -> Attempt<T, E>, attempt: nat)
    requires attempt < r.maxAttempts
    ensures var run := RunFrom<T, E, nat>(r, OracleBlock(outcomes), attempt, attempt);
      var n := run.calls;
      && 1 <= n <= r.maxAttempts - attempt
      && run.state == attempt + n
      && (forall i :: attempt <= i < attempt + n - 1 ==> outcomes(i).Err? && r.shouldRetry(outcomes(i).error))
      && run.delays == seq(n - 1, _ => r.retryDelay)
      && match outcomes(attempt + n - 1)
         case Ok(v) => run.outcome == Returned(v)
         case Cancel => run.outcome == Threw(Cancelled)
         case Err(e) => run.outcome == Threw(Failed(e)) && (!r.shouldRetry(e) || attempt + n == r.maxAttempts)
    decreases r.maxAttempts - attempt
  {
    var o := outcomes(attempt);
    if o.Err? && r.shouldRetry(o.error) && attempt < r.maxAttempts - 1 {
      RunFromCalls(r, outcomes, attempt + 1);
      var next := RunFrom<T, E, nat>(r, OracleBlock(outcomes), attempt + 1, attempt + 1);
      assert [r.retryDelay] + seq(next.calls - 1, _ => r.retryDelay) == seq(next.calls, _ => r.retryDelay);
    }
  }

  lemma RunCalls<T, E>(r: Retrier<E>, outcomes: nat -> Attempt<T, E>)
    requires r.maxAttempts >= 1
    ensures var run := RunSpec<T, E, nat>(r, OracleBlock(outcomes), 0);
      var n := run.calls;
      && 1 <= n <= r.maxAttempts
      && (forall i :: 0 <= i < n - 1 ==> outcomes(i).Err? && r.shouldRetry(outcomes(i).error))
      && run.delays == seq(n - 1, _ => r.retryDelay)
      && match outcomes(n - 1)
         case Ok(v) => run.outcome == Returned(v)
         case Cancel => run.outcome == Threw(Cancelled)
         case Err(e) => run.outcome == Threw(Failed(e)) && (!r.shouldRetry(e) || n == r.maxAttempts)
  {
    RunFromCalls(r, outcomes, 0);
  }

  /** With `maxAttempts <= 0` the `require` fails before the block runs. */
  lemma RequireFirst<T, E, S>(r: Retrier<E>, block: S -> (Attempt<T, E>, S), s: S)
    requires r.maxAttempts <= 0
    ensures RunSpec(r, block, s) == Trace(Threw(RequirementFailed), s, 0, [])
  {
  }

  /** The first success is returned, and nothing runs after it. */
  lemma FirstSuccessReturned<T, E>(r: Retrier<E>, outcomes: nat -> Attempt<T, E>, k: nat)
    requires k < r.maxAttempts && outcomes(k).Ok?
    requires forall i :: 0 <= i < k ==> outcomes(i).Err? && r.shouldRetry(outcomes(i).error)
    ensures var run := RunSpec<T, E, nat>(r, OracleBlock(outcomes), 0);
      run.outcome == Returned(outcomes(k).value) && run.calls == k + 1
  {
    RunCalls(r, outcomes);
  }

  /** A cancellation is rethrown at once, whatever the predicate would say. */
  lemma CancellationFirst<T, E>(r: Retrier<E>, outcomes: nat -> Attempt<T, E>, k: nat)
    requires k < r.maxAttempts && outcomes(k).Cancel?
    requires forall i :: 0 <= i < k ==> outcomes(i).Err? && r.shouldRetry(outcomes(i).error)
    ensures var run := RunSpec<T, E, nat>(r, OracleBlock(outcomes), 0);
      run.outcome == Threw(Cancelled) && run.calls == k + 1
  {
    RunCalls(r, outcomes);
  }

  /** An error the predicate rejects is thrown at the attempt where it occurred. */
  lemma RejectedErrorThrown<T, E>(r: Retrier<E>, outcomes: nat -> Attempt<T, E>, k: nat)
    requires k < r.maxAttempts && outcomes(k).Err? && !r.shouldRetry(outcomes(k).error)
    requires forall i :: 0 <= i < k ==> outcomes(i).Err? && r.shouldRetry(outcomes(i).error)
    ensures var run := RunSpec<T, E, nat>(r, OracleBlock(outcomes), 0);
      run.outcome == Threw(Failed(outcomes(k).error)) && run.calls == k + 1
  {
    RunCalls(r, outcomes);
  }

  /**
   * Retry bound: when every error is retried and every call fails, the block
   * runs exactly `maxAttempts` times and the last error is thrown.
   */
  lemma AlwaysFailing<T, E(!new)>(r: Retrier<E>, outcomes: nat -> Attempt<T, E>)
    requires r.maxAttempts >= 1
    requires forall e :: r.shouldRetry(e)
    requires forall i :: outcomes(i).Err?
    ensures var run := RunSpec<T, E, nat>(r, OracleBlock(outcomes), 0);
      && run.calls == r.maxAttempts
      && run.outcome == Threw(Failed(outcomes(r.maxAttempts - 1).error))
      && |run.delays| == r.maxAttempts - 1
  {
    RunCalls(r, outcomes);
  }
}
