/**
 * The socket as an oracle, and pure specifications of the loops TCPWire runs
 * over it: `InputStream.read`, the `readFully` extension, the `repeat(5)` read
 * loops of `readPrefix`/`readMessage`, and the resilient `write` loop.
 */
module Sockets {
  import opened Base

  /** The exception classes TCPWire tells apart. */
  datatype IOKind = SocketTimeout | EndOfFile | GeneralIO

  /** A `java.io.IOException`: its class and its (nullable) message. */
  datatype IOError = IOError(kind: IOKind, message: Option<string>)

  /** Kotlin's `s.contains(w)` on strings: `w` occurs somewhere in `s`. */
  predicate Contains(s: string, w: string) {
    exists i | 0 <= i <= |s| - |w| :: w <= s[i..]
  }

  /** `e.message?.contains(word) == true`. */
  predicate Mentions(e: IOError, word: string) {
    e.message.Some? && Contains(e.message.value, word)
  }

  /** The errors after which `readPrefix` and `write` sleep and double the delay. */
  predicate IsBackoffError(e: IOError) {
    e.kind == SocketTimeout || Mentions(e, "temporary")
  }

  /** The errors after which `readMessage` sleeps: those above and an EOF. */
  predicate IsBodyBackoffError(e: IOError) {
    IsBackoffError(e) || e.kind == EndOfFile
  }

  /** The errors a read loop sleeps after: `onEof` selects the body loop's list. */
  predicate Backoff(e: IOError, onEof: bool) {
    if onEof then IsBodyBackoffError(e) else IsBackoffError(e)
  }

  /** The `EOFException` `readFully` raises when `read` returns -1. */
  const UnexpectedEof: IOError := IOError(EndOfFile, Some("Unexpected EOF while reading stream"))

  /**
   * One event of the input stream: a chunk of bytes the socket makes available
   * to one `read` call, or an exception that call throws. The end of the
   * sequence is the end of the stream: from then on `read` returns -1.
   */
  datatype ReadEvent = Chunk(data: seq<byte>) | ReadFails(error: IOError)

  /** The bytes the stream delivers before its first exception or its end. */
  function Delivered(input: seq<ReadEvent>): seq<byte> {
    if input == [] || input[0].ReadFails? then [] else input[0].data + Delivered(input[1..])
  }

  /** What follows the delivered bytes: the first exception and everything after it. */
  function Trailing(input: seq<ReadEvent>): (t: seq<ReadEvent>)
    ensures t == [] || t[0].ReadFails?
  {
    if input == [] || input[0].ReadFails? then input else Trailing(input[1..])
  }

  /** A measure of what is left in the stream: one per event and one per byte. */
  function Weight(input: seq<ReadEvent>): nat {
    if input == [] then 0
    else 1 + (if input[0].Chunk? then |input[0].data| else 0) + Weight(input[1..])
  }

  /** Size of the chunk at the head of the stream (0 if none). */
  function HeadSize(input: seq<ReadEvent>): nat {
    if input != [] && input[0].Chunk? then |input[0].data| else 0
  }

  /** What one `read(buffer, off, len)` call does. */
  datatype Step = Bytes(got: seq<byte>, rest: seq<ReadEvent>) | AtEnd | Fails(error: IOError, rest: seq<ReadEvent>)

  /**
   * `InputStream.read` with `len > 0`: returns at most `len` bytes of the head
   * chunk (leaving the remainder in the stream), -1 at the end of the stream,
   * or throws the head exception.
   */
  function ReadStep(input: seq<ReadEvent>, len: nat): (s: Step)
    requires len > 0
    ensures s.Bytes? ==> |s.got| <= len
    ensures s.Bytes? ==> |s.rest| < |input| || (|s.rest| == |input| && HeadSize(s.rest) < HeadSize(input))
    ensures s.AtEnd? <==> input == []
    ensures s.Fails? ==> input[0] == ReadFails(s.error) && s.rest == input[1..]
  {
    if input == [] then AtEnd
    else match input[0]
      case ReadFails(e) => Fails(e, input[1..])
      case Chunk(d) =>
        if |d| <= len then Bytes(d, input[1..])
        else
          var rest := [Chunk(d[len..])] + input[1..];
          assert rest[1..] == input[1..];
          assert d == d[..len] + d[len..];
          Bytes(d[..len], rest)
  }

  /** The bytes one `read` returns are the next delivered bytes; what follows them is untouched. */
  lemma ReadStepDelivers(input: seq<ReadEvent>, len: nat)
    requires len > 0
    ensures var s := ReadStep(input, len);
      s.Bytes? ==> Delivered(input) == s.got + Delivered(s.rest) && Trailing(s.rest) == Trailing(input)
  {
    if input != [] && input[0].Chunk? && |input[0].data| > len {
      var d := input[0].data;
      var rest := [Chunk(d[len..])] + input[1..];
      assert rest[1..] == input[1..];
      assert d == d[..len] + d[len..];
    }
  }

  /** The state `readFully` leaves: the buffer, the rest of the stream and the exception it raised, if any. */
  datatype Fill = Fill(buf: seq<byte>, rest: seq<ReadEvent>, error: Option<IOError>)

  /** `buf` with `got` copied in at offset `off` (`System.arraycopy`). */
  function Overlay(buf: seq<byte>, off: nat, got: seq<byte>): (r: seq<byte>)
    requires off + |got| <= |buf|
    ensures |r| == |buf|
  {
    buf[..off] + got + buf[off + |got|..]
  }

  /** The bytes before the overlay, followed by the overlay, are the start of the result. */
  lemma OverlayPrefix(buf: seq<byte>, off: nat, got: seq<byte>)
    requires off + |got| <= |buf|
    ensures Overlay(buf, off, got)[..off + |got|] == buf[..off] + got
  {
    assert (buf[..off] + got + buf[off + |got|..])[..off + |got|] == buf[..off] + got;
  }

  /**
   * Taking `need` bytes of `got + more`, with `got` no longer than `need`,
   * takes all of `got` first; so does appending them to `pre`.
   */
  lemma TakeAcross(pre: seq<byte>, got: seq<byte>, more: seq<byte>, need: nat)
    requires |got| <= need <= |got| + |more|
    ensures pre + (got + more)[..need] == (pre + got) + more[..need - |got|]
    ensures (got + more)[need..] == more[need - |got|..]
  {
    assert (got + more)[..need] == got + more[..need - |got|];
  }

  /**
   * `readFully(buffer)` continued from `read` bytes already read: call `read` for
   * the remaining space until the buffer is full, raising EOF on -1 and
   * propagating an exception of `read`.
   */
  function ReadFullyFrom(input: seq<ReadEvent>, buf: seq<byte>, read: nat): (f: Fill)
    requires read <= |buf|
    ensures |f.buf| == |buf|
    decreases |input|, HeadSize(input)
  {
    if read == |buf| then Fill(buf, input, None)
    else match ReadStep(input, |buf| - read)
      case AtEnd => Fill(buf, input, Some(UnexpectedEof))
      case Fails(e, rest) => Fill(buf, rest, Some(e))
      case Bytes(got, rest) => ReadFullyFrom(rest, Overlay(buf, read, got), read + |got|)
  }

  /**
   * `readFully` returns normally exactly when the stream delivers enough bytes;
   * the buffer then holds them after the `read` bytes already there, and the
   * stream goes on with what follows them.
   */
  lemma {:induction false} ReadFullyDelivers(input: seq<ReadEvent>, buf: seq<byte>, read: nat)
    requires read <= |buf|
    ensures var f := ReadFullyFrom(input, buf, read);
      var need := |buf| - read;
      && (f.error.None? <==> need <= |Delivered(input)|)
      && (f.error.None? ==>
            && f.buf == buf[..read] + Delivered(input)[..need]
            && Delivered(f.rest) == Delivered(input)[need..]
            && Trailing(f.rest) == Trailing(input))
    decreases |input|, HeadSize(input)
  {
    if read < |buf| {
      var need := |buf| - read;
      var step := ReadStep(input, need);
      ReadStepDelivers(input, need);
      if step.Bytes? {
        var got, rest := step.got, step.rest;
        var buf' := Overlay(buf, read, got);
        ReadFullyDelivers(rest, buf', read + |got|);
        if need - |got| <= |Delivered(rest)| {
          OverlayPrefix(buf, read, got);
          TakeAcross(buf[..read], got, Delivered(rest), need);
        }
      }
    }
  }

  /**
   * A `readFully` that raises has consumed every delivered byte; the exception
   * is the stream's next exception, which it also consumes, or EOF at the end
   * of the stream.
   */
  lemma {:induction false} ReadFullyRaises(input: seq<ReadEvent>, buf: seq<byte>, read: nat)
    requires read <= |buf|
    requires ReadFullyFrom(input, buf, read).error.Some?
    ensures var f := ReadFullyFrom(input, buf, read);
      var t := Trailing(input);
      && f.rest == (if t == [] then [] else t[1..])
      && f.error.value == (if t == [] then UnexpectedEof else t[0].error)
    decreases |input|, HeadSize(input)
  {
    var step := ReadStep(input, |buf| - read);
    ReadStepDelivers(input, |buf| - read);
    if step.Bytes? {
      ReadFullyRaises(step.rest, Overlay(buf, read, step.got), read + |step.got|);
    }
  }

  /** One `read` call never adds to the stream, and one that returns bytes consumes them. */
  lemma ReadStepWeight(input: seq<ReadEvent>, len: nat)
    requires len > 0
    ensures var s := ReadStep(input, len);
      && (s.Bytes? ==> Weight(s.rest) + |s.got| <= Weight(input) && (|s.got| == 0 ==> Weight(s.rest) < Weight(input)))
      && (s.Fails? ==> Weight(s.rest) < Weight(input))
  {
    if input != [] && input[0].Chunk? && |input[0].data| > len {
      var d := input[0].data;
      var rest := [Chunk(d[len..])] + input[1..];
      assert rest[1..] == input[1..];
    }
  }

  /**
   * `readFully` never adds to the stream, and one that returns normally after
   * filling at least one byte consumes part of it.
   */
  lemma {:induction false} ReadFullyProgress(input: seq<ReadEvent>, buf: seq<byte>, read: nat)
    requires read <= |buf|
    ensures var f := ReadFullyFrom(input, buf, read);
      Weight(f.rest) <= Weight(input) && (read < |buf| && f.error.None? ==> Weight(f.rest) < Weight(input))
    decreases |input|, HeadSize(input)
  {
    if read < |buf| {
      ReadStepWeight(input, |buf| - read);
      var step := ReadStep(input, |buf| - read);
      if step.Bytes? {
        ReadFullyProgress(step.rest, Overlay(buf, read, step.got), read + |step.got|);
      }
    }
  }

  /** `delay`, `2*delay`, `4*delay`, ...: the sleeps of `k` successive backoffs. */
  function Backoffs(delay: int, k: nat): (s: seq<int>)
    ensures |s| == k
    decreases k
  {
    if k == 0 then [] else [delay] + Backoffs(2 * delay, k - 1)
  }

  /** 2 to the power `i`. */
  function Pow2(i: nat): nat {
    if i == 0 then 1 else 2 * Pow2(i - 1)
  }

  /** The `i`-th backoff sleeps `delay * 2^i`. */
  lemma {:induction false} BackoffsAt(delay: int, k: nat, i: nat)
    requires i < k
    ensures Backoffs(delay, k)[i] == delay * Pow2(i)
    decreases k
  {
    if i > 0 {
      BackoffsAt(2 * delay, k - 1, i - 1);
      assert Pow2(i) == 2 * Pow2(i - 1);
    }
  }

  /** The outcome of a `repeat(maxRetries)` read loop. */
  datatype Attempts = Attempts(
    success: bool,              // some `readFully` returned normally
    buf: seq<byte>,             // the buffer afterwards
    rest: seq<ReadEvent>,       // the stream afterwards
    lastError: Option<IOError>, // `lastErr`
    sleeps: seq<int>,           // the delays slept, in order
    calls: nat)                 // how many times `readFully` ran

  /**
   * `repeat(left) { try { readFully(buf); return } catch (e) { lastErr = e; if backoff { sleep } } }`.
   * Every error is retried; only the backoff errors sleep. `onEof` says
   * whether an EOF counts as a backoff error (true in `readMessage`).
   */
  function ReadAttempts(input: seq<ReadEvent>, buf: seq<byte>, left: nat, delay: int,
                        lastError: Option<IOError>, onEof: bool): (a: Attempts)
    ensures |a.buf| == |buf|
    ensures a.calls <= left
    ensures !a.success ==> a.calls == left && (left > 0 ==> a.lastError.Some?)
    ensures !a.success && left == 0 ==> a.lastError == lastError
    decreases left
  {
    if left == 0 then Attempts(false, buf, input, lastError, [], 0)
    else
      var f := ReadFullyFrom(input, buf, 0);
      if f.error.None? then Attempts(true, f.buf, f.rest, lastError, [], 1)
      else
        var e := f.error.value;
        var backoff := Backoff(e, onEof);
        var next := ReadAttempts(f.rest, f.buf, left - 1, if backoff then 2 * delay else delay, Some(e), onEof);
        next.(sleeps := (if backoff then [delay] else []) + next.sleeps, calls := next.calls + 1)
  }

  /** `whole` is `a` run after the attempts that slept `slept`: same outcome, earlier sleeps first. */
  predicate Continues(whole: Attempts, a: Attempts, slept: seq<int>) {
    && whole.success == a.success && whole.buf == a.buf && whole.rest == a.rest
    && whole.lastError == a.lastError && whole.sleeps == slept + a.sleeps
  }

  /** Continuing is transitive: the earlier sleeps come first. */
  lemma ContinuesTrans(a: Attempts, b: Attempts, c: Attempts, s1: seq<int>, s2: seq<int>)
    requires Continues(a, b, s1) && Continues(b, c, s2)
    ensures Continues(a, c, s1 + s2)
  {
    assert a.sleeps == s1 + (s2 + c.sleeps) == (s1 + s2) + c.sleeps;
  }

  /** The delay after a failed read attempt raising `e`. */
  function NextDelay(e: IOError, delay: int, onEof: bool): int {
    if Backoff(e, onEof) then 2 * delay else delay
  }

  /** The sleep a failed read attempt raising `e` makes: `[delay]` after a backoff error, none otherwise. */
  function BackoffSleep(e: IOError, delay: int, onEof: bool): seq<int> {
    if Backoff(e, onEof) then [delay] else []
  }

  /**
   * When the attempts still to run are the rest of the loop `whole`, and the
   * next `readFully` fails, the attempts after it are the rest of `whole` too,
   * after one more failed call and its sleep.
   */
  lemma FailedAttempt(whole: Attempts, input: seq<ReadEvent>, buf: seq<byte>, left: nat, delay: int,
                      lastError: Option<IOError>, onEof: bool, slept: seq<int>)
    requires left > 0
    requires Continues(whole, ReadAttempts(input, buf, left, delay, lastError, onEof), slept)
    requires ReadFullyFrom(input, buf, 0).error.Some?
    ensures var f := ReadFullyFrom(input, buf, 0);
      var e := f.error.value;
      Continues(whole, ReadAttempts(f.rest, f.buf, left - 1, NextDelay(e, delay, onEof), f.error, onEof),
                slept + BackoffSleep(e, delay, onEof))
  {
    var f := ReadFullyFrom(input, buf, 0);
    var e := f.error.value;
    var next := ReadAttempts(f.rest, f.buf, left - 1, NextDelay(e, delay, onEof), f.error, onEof);
    assert Continues(ReadAttempts(input, buf, left, delay, lastError, onEof), next, BackoffSleep(e, delay, onEof));
    ContinuesTrans(whole, ReadAttempts(input, buf, left, delay, lastError, onEof), next, slept, BackoffSleep(e, delay, onEof));
  }

  /** When the next `readFully` of the rest of the loop `whole` returns normally, `whole` ends there. */
  lemma SucceededAttempt(whole: Attempts, input: seq<ReadEvent>, buf: seq<byte>, left: nat, delay: int,
                         lastError: Option<IOError>, onEof: bool, slept: seq<int>)
    requires left > 0
    requires Continues(whole, ReadAttempts(input, buf, left, delay, lastError, onEof), slept)
    requires ReadFullyFrom(input, buf, 0).error.None?
    ensures var f := ReadFullyFrom(input, buf, 0);
      && whole.success && whole.buf == f.buf && whole.rest == f.rest
      && whole.lastError == lastError && whole.sleeps == slept
  {
  }

  /** When no attempt is left, the loop `whole` has failed with the stream, buffer and error as they are. */
  lemma NoAttemptLeft(whole: Attempts, input: seq<ReadEvent>, buf: seq<byte>, delay: int,
                      lastError: Option<IOError>, onEof: bool, slept: seq<int>)
    requires Continues(whole, ReadAttempts(input, buf, 0, delay, lastError, onEof), slept)
    ensures !whole.success && whole.buf == buf && whole.rest == input
      && whole.lastError == lastError && whole.sleeps == slept
  {
  }

  /** The sleeps of a read loop double from the initial delay, one per failed attempt at most. */
  lemma {:induction false} ReadAttemptsBackoffs(input: seq<ReadEvent>, buf: seq<byte>, left: nat, delay: int,
                                                lastError: Option<IOError>, onEof: bool)
    ensures var a := ReadAttempts(input, buf, left, delay, lastError, onEof);
      a.sleeps == Backoffs(delay, |a.sleeps|) && |a.sleeps| <= a.calls - (if a.success then 1 else 0)
    decreases left
  {
    if left > 0 {
      var f := ReadFullyFrom(input, buf, 0);
      if f.error.Some? {
        var e := f.error.value;
        var backoff := Backoff(e, onEof);
        ReadAttemptsBackoffs(f.rest, f.buf, left - 1, if backoff then 2 * delay else delay, Some(e), onEof);
      }
    }
  }

  /** A read loop whose stream already holds the whole buffer succeeds on the first attempt. */
  lemma FirstAttemptReads(input: seq<ReadEvent>, buf: seq<byte>, left: nat, delay: int,
                          lastError: Option<IOError>, onEof: bool)
    requires left > 0 && |buf| <= |Delivered(input)|
    ensures var a := ReadAttempts(input, buf, left, delay, lastError, onEof);
      && a.success && a.calls == 1 && a.sleeps == []
      && a.buf == Delivered(input)[..|buf|]
      && Delivered(a.rest) == Delivered(input)[|buf|..]
      && Trailing(a.rest) == Trailing(input)
  {
    ReadFullyDelivers(input, buf, 0);
  }

  /** A read loop never adds to the stream, and a successful one consumes part of it. */
  lemma ReadAttemptsConsume(input: seq<ReadEvent>, buf: seq<byte>, left: nat, delay: int,
                            lastError: Option<IOError>, onEof: bool)
    ensures var a := ReadAttempts(input, buf, left, delay, lastError, onEof);
      Weight(a.rest) <= Weight(input) && (a.success && |buf| > 0 ==> Weight(a.rest) < Weight(input))
    decreases left
  {
    if left > 0 {
      var f := ReadFullyFrom(input, buf, 0);
      ReadFullyProgress(input, buf, 0);
      if f.error.Some? {
        var e := f.error.value;
        var backoff := Backoff(e, onEof);
        ReadAttemptsConsume(f.rest, f.buf, left - 1, if backoff then 2 * delay else delay, Some(e), onEof);
      }
    }
  }

  /**
   * One `output.write(...); output.flush()` attempt: it succeeds or throws.
   * The end of the sequence stands for a socket that is gone: every further
   * attempt throws `SocketClosed`.
   */
  datatype WriteEvent = Written | WriteFails(error: IOError)

  /** The exception a write to a socket that is gone throws. */
  const SocketClosed: IOError := IOError(GeneralIO, Some("Socket closed"))

  /** `maxBackoffRetries` and `maxPartialWriteRetries` of `write`. */
  const MaxBackoffRetries: nat := 5
  const MaxPartialWriteRetries: nat := 10

  /** How the write loop ended. */
  datatype WriteVerdict = Flushed | PeerClosed(error: IOError) | BackoffLimit(error: IOError) | RetryLimit(error: IOError)

  /** The outcome of the write loop: its verdict, the events left, the sleeps and the attempts made. */
  datatype WriteRun = WriteRun(verdict: WriteVerdict, rest: seq<WriteEvent>, sleeps: seq<int>, calls: nat)

  /** The next write event, and the events after it. */
  function NextWrite(events: seq<WriteEvent>): (WriteEvent, seq<WriteEvent>) {
    if events == [] then (WriteFails(SocketClosed), []) else (events[0], events[1..])
  }

  /** What the `catch` block of `write`'s loop does with an exception. */
  datatype WriteRetry = Stop(verdict: WriteVerdict) | SleepAndRetry | RetryNow

  /**
   * The `catch` block of `write`: a "closed" message ends the loop at once; a
   * backoff error sleeps unless five backoffs were already made; any other
   * error is retried at once, up to ten times.
   */
  function CatchWriteError(e: IOError, backoffRetries: nat, partialRetries: nat): (r: WriteRetry)
    ensures r.Stop? ==> !r.verdict.Flushed?
    ensures r == SleepAndRetry ==> backoffRetries < MaxBackoffRetries
    ensures r == RetryNow ==> partialRetries < MaxPartialWriteRetries
  {
    if Mentions(e, "closed") then Stop(PeerClosed(e))
    else if IsBackoffError(e) then
      if backoffRetries >= MaxBackoffRetries then Stop(BackoffLimit(e)) else SleepAndRetry
    else if partialRetries + 1 > MaxPartialWriteRetries then Stop(RetryLimit(e))
    else RetryNow
  }

  /**
   * The `while (totalWritten < buffer.size)` loop of `write`, from
   * `backoffRetries` and `partialWriteRetries` retries already made.
   */
  function WriteLoop(events: seq<WriteEvent>, backoffRetries: nat, partialRetries: nat, delay: int): WriteRun
    requires backoffRetries <= MaxBackoffRetries && partialRetries <= MaxPartialWriteRetries
    decreases (MaxBackoffRetries - backoffRetries) + (MaxPartialWriteRetries - partialRetries)
  {
    var (ev, rest) := NextWrite(events);
    var h := AttemptHandling(ev, backoffRetries, partialRetries);
    if h.Stop? then WriteRun(h.verdict, rest, [], 1)
    else
      var backoff := h == SleepAndRetry;
      var next := WriteLoop(rest, if backoff then backoffRetries + 1 else backoffRetries,
                            if backoff then partialRetries else partialRetries + 1,
                            if backoff then 2 * delay else delay);
      next.(sleeps := (if backoff then [delay] else []) + next.sleeps, calls := next.calls + 1)
  }

  /** `whole` is the write loop `w` run after attempts that slept `slept`. */
  predicate WriteContinues(whole: WriteRun, w: WriteRun, slept: seq<int>) {
    whole.verdict == w.verdict && whole.rest == w.rest && whole.sleeps == slept + w.sleeps
  }

  /** What one attempt of the write loop leads to: a success stops it with `Flushed`. */
  function AttemptHandling(ev: WriteEvent, backoffRetries: nat, partialRetries: nat): WriteRetry {
    match ev
    case Written => Stop(Flushed)
    case WriteFails(e) => CatchWriteError(e, backoffRetries, partialRetries)
  }

  /**
   * One iteration of the write loop `whole`, whose remaining part runs on
   * `events` after the sleeps `slept`: a success or a give-up ends `whole`
   * there, and a retry hands the rest of `whole` to the next iteration.
   */
  lemma WriteStep(whole: WriteRun, events: seq<WriteEvent>, backoffRetries: nat, partialRetries: nat, delay: int,
                  slept: seq<int>)
    requires backoffRetries <= MaxBackoffRetries && partialRetries <= MaxPartialWriteRetries
    requires WriteContinues(whole, WriteLoop(events, backoffRetries, partialRetries, delay), slept)
    ensures var (ev, rest) := NextWrite(events);
      var h := AttemptHandling(ev, backoffRetries, partialRetries);
      && (h.Stop? ==> whole.verdict == h.verdict && whole.rest == rest && whole.sleeps == slept)
      && (h == SleepAndRetry ==>
            backoffRetries < MaxBackoffRetries
            && WriteContinues(whole, WriteLoop(rest, backoffRetries + 1, partialRetries, 2 * delay), slept + [delay]))
      && (h == RetryNow ==>
            partialRetries < MaxPartialWriteRetries
            && WriteContinues(whole, WriteLoop(rest, backoffRetries, partialRetries + 1, delay), slept))
  {
    var (ev, rest) := NextWrite(events);
    if ev.WriteFails? && CatchWriteError(ev.error, backoffRetries, partialRetries) == SleepAndRetry {
      var next := WriteLoop(rest, backoffRetries + 1, partialRetries, 2 * delay);
      assert whole.sleeps == slept + ([delay] + next.sleeps) == (slept + [delay]) + next.sleeps;
    }
  }

  /**
   * Retry bound of the write loop: at most one attempt per retry left in
   * either budget plus the final one, and at most one sleep per backoff retry
   * left.
   */
  lemma {:induction false} WriteLoopBounds(events: seq<WriteEvent>, backoffRetries: nat, partialRetries: nat, delay: int)
    requires backoffRetries <= MaxBackoffRetries && partialRetries <= MaxPartialWriteRetries
    ensures var w := WriteLoop(events, backoffRetries, partialRetries, delay);
      && 1 <= w.calls <= (MaxBackoffRetries - backoffRetries) + (MaxPartialWriteRetries - partialRetries) + 1
      && |w.sleeps| <= MaxBackoffRetries - backoffRetries
    decreases (MaxBackoffRetries - backoffRetries) + (MaxPartialWriteRetries - partialRetries)
  {
    var (ev, rest) := NextWrite(events);
    if ev.WriteFails? {
      match CatchWriteError(ev.error, backoffRetries, partialRetries)
      case Stop(_) =>
      case SleepAndRetry => WriteLoopBounds(rest, backoffRetries + 1, partialRetries, 2 * delay);
      case RetryNow => WriteLoopBounds(rest, backoffRetries, partialRetries + 1, delay);
    }
  }

  /** The write loop's sleeps double from the initial delay. */
  lemma {:induction false} WriteLoopBackoffs(events: seq<WriteEvent>, backoffRetries: nat, partialRetries: nat, delay: int)
    requires backoffRetries <= MaxBackoffRetries && partialRetries <= MaxPartialWriteRetries
    ensures var w := WriteLoop(events, backoffRetries, partialRetries, delay);
      w.sleeps == Backoffs(delay, |w.sleeps|)
    decreases (MaxBackoffRetries - backoffRetries) + (MaxPartialWriteRetries - partialRetries)
  {
    var (ev, rest) := NextWrite(events);
    if ev.WriteFails? {
      match CatchWriteError(ev.error, backoffRetries, partialRetries)
      case Stop(_) =>
      case SleepAndRetry => WriteLoopBackoffs(rest, backoffRetries + 1, partialRetries, 2 * delay);
      case RetryNow => WriteLoopBackoffs(rest, backoffRetries, partialRetries + 1, delay);
    }
  }

  /** A timeout whose message does not mention "closed". */
  predicate IsPlainTimeout(ev: WriteEvent) {
    ev.WriteFails? && ev.error.kind == SocketTimeout && !Mentions(ev.error, "closed")
  }

  /** Against a socket that only times out, the write gives up on the sixth attempt after five sleeps. */
  lemma {:induction false} WriteLoopAllTimeouts(events: seq<WriteEvent>, backoffRetries: nat, partialRetries: nat, delay: int)
    requires backoffRetries <= MaxBackoffRetries && partialRetries <= MaxPartialWriteRetries
    requires |events| > MaxBackoffRetries - backoffRetries
    requires forall i :: 0 <= i < |events| ==> IsPlainTimeout(events[i])
    ensures var w := WriteLoop(events, backoffRetries, partialRetries, delay);
      && w.verdict.BackoffLimit?
      && w.calls == MaxBackoffRetries - backoffRetries + 1
      && w.sleeps == Backoffs(delay, MaxBackoffRetries - backoffRetries)
      && w.rest == events[w.calls..]
    decreases MaxBackoffRetries - backoffRetries
  {
    assert IsPlainTimeout(events[0]);
    if backoffRetries < MaxBackoffRetries {
      WriteLoopAllTimeouts(events[1..], backoffRetries + 1, partialRetries, 2 * delay);
    }
  }

  /** An error that is neither "closed" nor a backoff error. */
  predicate IsPlainFailure(ev: WriteEvent) {
    ev.WriteFails? && !Mentions(ev.error, "closed") && !IsBackoffError(ev.error)
  }

  /** Against a socket that only fails with other errors, the write gives up on the eleventh attempt without sleeping. */
  lemma {:induction false} WriteLoopAllFailures(events: seq<WriteEvent>, backoffRetries: nat, partialRetries: nat, delay: int)
    requires backoffRetries <= MaxBackoffRetries && partialRetries <= MaxPartialWriteRetries
    requires |events| > MaxPartialWriteRetries - partialRetries
    requires forall i :: 0 <= i < |events| ==> IsPlainFailure(events[i])
    ensures var w := WriteLoop(events, backoffRetries, partialRetries, delay);
      && w.verdict.RetryLimit?
      && w.calls == MaxPartialWriteRetries - partialRetries + 1
      && w.sleeps == []
      && w.rest == events[w.calls..]
    decreases MaxPartialWriteRetries - partialRetries
  {
    assert IsPlainFailure(events[0]);
    if partialRetries < MaxPartialWriteRetries {
      WriteLoopAllFailures(events[1..], backoffRetries, partialRetries + 1, delay);
    }
  }

  /**
   * The write loop ends in `Flushed` exactly when its last attempt is a
   * success on an event of the stream and every attempt before it failed.
   */
  lemma {:induction false} WriteLoopFlushedIff(events: seq<WriteEvent>, backoffRetries: nat, partialRetries: nat, delay: int)
    requires backoffRetries <= MaxBackoffRetries && partialRetries <= MaxPartialWriteRetries
    ensures var w := WriteLoop(events, backoffRetries, partialRetries, delay);
      w.verdict.Flushed? <==>
        (1 <= w.calls <= |events| && events[w.calls - 1] == Written
         && forall i :: 0 <= i < w.calls - 1 ==> events[i].WriteFails?)
    decreases (MaxBackoffRetries - backoffRetries) + (MaxPartialWriteRetries - partialRetries)
  {
    var (ev, rest) := NextWrite(events);
    if ev.WriteFails? {
      match CatchWriteError(ev.error, backoffRetries, partialRetries)
      case Stop(_) =>
      case SleepAndRetry => WriteLoopFlushedIff(rest, backoffRetries + 1, partialRetries, 2 * delay);
      case RetryNow => WriteLoopFlushedIff(rest, backoffRetries, partialRetries + 1, delay);
    }
  }
}
