/**
 * `TCPWire`: length-prefixed frames over one socket, with bounded retry and
 * backoff on reads and writes, and a one-way OPEN -> CLOSED lifecycle.
 * The socket is an oracle: `input` lists what successive `read` calls see,
 * `writes` what successive write attempts do; `output` logs the frames whose
 * write succeeded and `sleeps` the backoff delays slept, in milliseconds.
 */
module Transport {
  import opened Base
  import opened Framing
  import opened Sockets
  import Decimal

  /** The lifecycle of a wire. */
  datatype Status = Open | Closed

  /** `WireError.Kind`. */
  datatype WireErrorKind = Terminated | CorruptMessage | Empty

  /** The `cause` of a `WireError`. */
  datatype Cause = NoCause | IO(error: IOError) | Described(text: string, inner: Option<IOError>)

  /** `WireError(kind, cause)`. */
  datatype WireError = WireError(kind: WireErrorKind, cause: Cause)

  /** What `receive` does: returns a (payload, error) pair, or throws a `WireError`. */
  datatype Received = Returned(data: Option<seq<byte>>, err: Option<WireError>) | Raised(raised: WireError)

  /** What `readPrefix` does: returns a size, returns null, or throws. */
  datatype PrefixOutcome = Size(size: Int32) | NoPrefix | PrefixRaised(raised: WireError)

  /** How an operation leaves the lifecycle: untouched, through `close()`, or by `status.set(CLOSED)`. */
  datatype CloseAction = NoClose | CloseSocket | MarkClosed

  function StatusAfter(s: Status, a: CloseAction): Status {
    if a == NoClose then s else Closed
  }

  /** Only `close()` on an open wire closes the socket. */
  function ClosesAfter(s: Status, closes: nat, a: CloseAction): nat {
    if a == CloseSocket && s == Open then closes + 1 else closes
  }

  /** `ByteArray(n)`: n zero bytes. */
  function Zeros(n: nat): (z: seq<byte>)
    ensures |z| == n
  {
    seq(n, _ => 0)
  }

  /** The retry budget and initial delay of both read loops. */
  const MaxReadRetries: nat := 5
  const InitialDelay: int := 5

  /** The error `send` returns on a closed wire. */
  const ClosedWireError: WireError := WireError(Terminated, Described("trying to use closed wire", None))

  /** `handleFatalReadError(e)` for a non-null `e`: the error it throws and whether it closes the wire. */
  function FatalReadError(e: IOError): (WireError, CloseAction) {
    if e.kind == EndOfFile then (WireError(Empty, IO(e)), NoClose)
    else if Mentions(e, "use of closed network connection") then (WireError(Terminated, IO(e)), CloseSocket)
    else (WireError(Terminated, IO(e)), CloseSocket)
  }

  /** `readPrefix` as a value: its outcome, the stream left, the sleeps and the close action. */
  datatype PrefixPlan = PrefixPlan(outcome: PrefixOutcome, rest: seq<ReadEvent>, sleeps: seq<int>, action: CloseAction)

  function ReadPrefixPlan(input: seq<ReadEvent>): PrefixPlan {
    var a := ReadAttempts(input, Zeros(PrefixSize), MaxReadRetries, InitialDelay, None, false);
    if a.success then PrefixPlan(Size(DecodeInt32(a.buf)), a.rest, a.sleeps, NoClose)
    else match a.lastError
      case None => PrefixPlan(NoPrefix, a.rest, a.sleeps, NoClose)
      case Some(e) =>
        var (err, action) := FatalReadError(e);
        PrefixPlan(PrefixRaised(err), a.rest, a.sleeps, action)
  }

  /** `receive` as a value. */
  datatype ReceivePlan = ReceivePlan(outcome: Received, rest: seq<ReadEvent>, sleeps: seq<int>, action: CloseAction)

  function InvalidSize(size: Int32): WireError {
    WireError(CorruptMessage, Described("invalid message size: " + Decimal.IntToString(size), None))
  }

  function TooLarge(size: Int32, maxMsgSize: Int32): WireError {
    WireError(CorruptMessage, Described("message too large: " + Decimal.IntToString(size) + " > "
                                       + Decimal.IntToString(maxMsgSize), None))
  }

  const NoPrefixError: WireError := WireError(Empty, Described("failed to read prefix", None))

  /** The `TERMINATED` error `readMessage` returns once its attempts are used up. */
  function BodyLost(lastErr: Option<IOError>): WireError {
    match lastErr
    case None => WireError(Terminated, NoCause)
    case Some(e) => WireError(Terminated, IO(e))
  }

  /** `receive`: read the prefix, check the size, read the body. */
  function ReceiveSpec(input: seq<ReadEvent>, maxMsgSize: Int32): ReceivePlan {
    var p := ReadPrefixPlan(input);
    match p.outcome
    case NoPrefix => ReceivePlan(Returned(None, Some(NoPrefixError)), p.rest, p.sleeps, p.action)
    case PrefixRaised(e) => ReceivePlan(Raised(e), p.rest, p.sleeps, p.action)
    case Size(size) =>
      if size <= 0 then ReceivePlan(Returned(None, Some(InvalidSize(size))), p.rest, p.sleeps, CloseSocket)
      else if size > maxMsgSize then ReceivePlan(Returned(None, Some(TooLarge(size, maxMsgSize))), p.rest, p.sleeps, CloseSocket)
      else
        var m := ReadAttempts(p.rest, Zeros(size), MaxReadRetries, InitialDelay, None, true);
        if m.success then ReceivePlan(Returned(Some(m.buf), None), m.rest, p.sleeps + m.sleeps, NoClose)
        else ReceivePlan(Returned(Some(m.buf), Some(BodyLost(m.lastError))), m.rest, p.sleeps + m.sleeps, MarkClosed)
  }

  /** The error `write` returns for each way its loop ends. */
  function WriteError(v: WriteVerdict): Option<WireError> {
    match v
    case Flushed => None
    case PeerClosed(e) => Some(WireError(Terminated, IO(e)))
    case BackoffLimit(e) => Some(WireError(Terminated, Described("max backoff retries", Some(e))))
    case RetryLimit(e) => Some(WireError(Terminated, Described("max partial write retries", Some(e))))
  }

  /** The state of a wire as a value: what `send`, `receive` and `close` read and change. */
  datatype WireState = WireState(status: Status, input: seq<ReadEvent>, writes: seq<WriteEvent>,
                                 output: seq<byte>, socketCloses: nat, sleeps: seq<int>)

  /** The lifecycle invariant of a wire state. */
  predicate ValidState(w: WireState) {
    (w.status == Open ==> w.socketCloses == 0) && w.socketCloses <= 1
  }

  /** `close()` on a wire in state `w`. */
  function CloseState(w: WireState): WireState {
    w.(status := StatusAfter(w.status, CloseSocket), socketCloses := ClosesAfter(w.status, w.socketCloses, CloseSocket))
  }

  /**
   * `write(buffer)` on a wire in state `w`: an empty buffer writes nothing;
   * otherwise the write loop runs, and the bytes reach the stream only if it
   * flushed them.
   */
  function WriteState(w: WireState, bytes: seq<byte>): (Option<WireError>, WireState) {
    if bytes == [] then (None, w)
    else
      var run := WriteLoop(w.writes, 0, 0, InitialDelay);
      var flushed := run.verdict.Flushed?;
      (WriteError(run.verdict),
       w.(status := if flushed then w.status else Closed, writes := run.rest, sleeps := w.sleeps + run.sleeps,
          output := w.output + if flushed then bytes else []))
  }

  /** `send(msg)` on a wire in state `w`: the error it returns and the state it leaves. */
  function SendState(w: WireState, msg: Payload): (Option<WireError>, WireState) {
    if w.status == Closed then (Some(ClosedWireError), w) else WriteState(w, Frame(msg))
  }

  /** The state a read leaves when it consumed the stream up to `rest`, slept `sleeps` and then took `action`. */
  function AfterRead(w: WireState, rest: seq<ReadEvent>, sleeps: seq<int>, action: CloseAction): WireState {
    w.(input := rest, sleeps := w.sleeps + sleeps, status := StatusAfter(w.status, action),
       socketCloses := ClosesAfter(w.status, w.socketCloses, action))
  }

  /** Two reads in a row, the first without a close, are one read that slept both times. */
  lemma AfterTwoReads(w: WireState, rest1: seq<ReadEvent>, sleeps1: seq<int>, rest2: seq<ReadEvent>, sleeps2: seq<int>,
                      action: CloseAction)
    ensures AfterRead(AfterRead(w, rest1, sleeps1, NoClose), rest2, sleeps2, action)
            == AfterRead(w, rest2, sleeps1 + sleeps2, action)
  {
    assert w.sleeps + sleeps1 + sleeps2 == w.sleeps + (sleeps1 + sleeps2);
  }

  /** `readPrefix()` on a wire in state `w`. */
  function PrefixState(w: WireState): (PrefixOutcome, WireState) {
    var plan := ReadPrefixPlan(w.input);
    (plan.outcome, AfterRead(w, plan.rest, plan.sleeps, plan.action))
  }

  /** `readMessage(size)` on a wire in state `w`: a body lost after the retries marks the wire closed. */
  function MessageState(w: WireState, size: nat): (Received, WireState) {
    var m := ReadAttempts(w.input, Zeros(size), MaxReadRetries, InitialDelay, None, true);
    if m.success then (Returned(Some(m.buf), None), AfterRead(w, m.rest, m.sleeps, NoClose))
    else (Returned(Some(m.buf), Some(BodyLost(m.lastError))), AfterRead(w, m.rest, m.sleeps, MarkClosed))
  }

  /** `receive()` on a wire in state `w`: its outcome and the state it leaves. */
  function ReceiveState(w: WireState, maxMsgSize: Int32): (Received, WireState) {
    var plan := ReceiveSpec(w.input, maxMsgSize);
    (plan.outcome, AfterRead(w, plan.rest, plan.sleeps, plan.action))
  }

  /** The error of a `receive` outcome, whether returned or thrown. */
  function ReceivedError(r: Received): Option<WireError> {
    match r
    case Returned(_, err) => err
    case Raised(e) => Some(e)
  }

  /**
   * `close` is idempotent and closes the socket at most once: a second
   * `close` changes nothing, and only a `close` of an open wire counts.
   */
  lemma CloseIdempotent(w: WireState)
    requires ValidState(w)
    ensures ValidState(CloseState(w)) && CloseState(w).status == Closed
    ensures CloseState(CloseState(w)) == CloseState(w)
    ensures CloseState(w).socketCloses == if w.status == Open then 1 else w.socketCloses
  {
  }

  /**
   * The lifecycle invariant holds after every operation, and CLOSED is final:
   * no operation reopens a closed wire, and `send` on it changes nothing.
   */
  lemma OperationsKeepLifecycle(w: WireState, msg: Payload, maxMsgSize: Int32)
    requires ValidState(w)
    ensures ValidState(SendState(w, msg).1) && ValidState(ReceiveState(w, maxMsgSize).1)
    ensures w.status == Closed ==>
      && SendState(w, msg) == (Some(ClosedWireError), w)
      && ReceiveState(w, maxMsgSize).1.status == Closed
      && ReceiveState(w, maxMsgSize).1.socketCloses == w.socketCloses
  {
  }

  /** `send` only ever returns `TERMINATED`, and only after the write loop gave up and marked the wire closed. */
  lemma SendErrorsClose(w: WireState, msg: Payload)
    ensures var (err, w') := SendState(w, msg);
      err.Some? ==> err.value.kind == Terminated && w'.status == Closed
  {
    var run := WriteLoop(w.writes, 0, 0, InitialDelay);
    assert WriteError(run.verdict).Some? ==> !run.verdict.Flushed?;
  }

  /**
   * Every `receive` error other than `EMPTY` leaves the wire closed: a
   * rejected size or a fatal prefix error closes it, and a lost body marks it
   * closed.
   */
  lemma ReceiveErrorsClose(w: WireState, maxMsgSize: Int32)
    ensures var (r, w') := ReceiveState(w, maxMsgSize);
      ReceivedError(r).Some? && ReceivedError(r).value.kind != Empty ==> w'.status == Closed
  {
    var p := ReadPrefixPlan(w.input);
    if p.outcome.PrefixRaised? {
      var a := ReadAttempts(w.input, Zeros(PrefixSize), MaxReadRetries, InitialDelay, None, false);
      assert p.action == FatalReadError(a.lastError.value).1;
    }
  }

  /** A `receive` that returns a payload without an error has consumed part of the stream. */
  lemma ReceiveConsumes(input: seq<ReadEvent>, maxMsgSize: Int32)
    ensures var plan := ReceiveSpec(input, maxMsgSize);
      Weight(plan.rest) <= Weight(input)
      && (plan.outcome.Returned? && plan.outcome.data.Some? && plan.outcome.err.None? ==> Weight(plan.rest) < Weight(input))
  {
    ReadAttemptsConsume(input, Zeros(PrefixSize), MaxReadRetries, InitialDelay, None, false);
    var p := ReadPrefixPlan(input);
    if p.outcome.Size? && 0 < p.outcome.size {
      ReadAttemptsConsume(p.rest, Zeros(p.outcome.size), MaxReadRetries, InitialDelay, None, true);
    }
  }

  /**
   * Framing round trip: when the stream delivers the frame of a payload the
   * size check accepts, `receive` returns that payload on the first attempt of
   * each loop, without an error, a sleep or a close, and leaves the stream just
   * after the frame.
   */
  lemma ReceiveFrame(input: seq<ReadEvent>, maxMsgSize: Int32, msg: Payload)
    requires 0 < |msg| <= maxMsgSize
    requires |Frame(msg)| <= |Delivered(input)| && Delivered(input)[..|Frame(msg)|] == Frame(msg)
    ensures var r := ReceiveSpec(input, maxMsgSize);
      && r.outcome == Returned(Some(msg), None)
      && r.action == NoClose && r.sleeps == []
      && Delivered(r.rest) == Delivered(input)[|Frame(msg)|..]
      && Trailing(r.rest) == Trailing(input)
  {
    var d := Delivered(input);
    var f := Frame(msg);
    FirstAttemptReads(input, Zeros(PrefixSize), MaxReadRetries, InitialDelay, None, false);
    var a := ReadAttempts(input, Zeros(PrefixSize), MaxReadRetries, InitialDelay, None, false);
    assert a.buf == f[..PrefixSize] by { assert d[..PrefixSize] == f[..PrefixSize]; }
    assert Delivered(a.rest)[..|msg|] == msg by {
      assert d[PrefixSize..][..|msg|] == d[..|f|][PrefixSize..];
    }
    FirstAttemptReads(a.rest, Zeros(|msg|), MaxReadRetries, InitialDelay, None, true);
    assert Delivered(a.rest)[|msg|..] == d[|f|..];
  }

  /**
   * A prefix that decodes to a size that is not positive or exceeds
   * `maxMsgSize` makes `receive` return `CORRUPT_MESSAGE` with a null payload
   * and close the wire; no body read is attempted, so the stream is left just
   * after the prefix.
   */
  lemma ReceiveRejectsSize(input: seq<ReadEvent>, maxMsgSize: Int32)
    requires PrefixSize <= |Delivered(input)|
    requires var size := DecodeInt32(Delivered(input)[..PrefixSize]); size <= 0 || size > maxMsgSize
    ensures var r := ReceiveSpec(input, maxMsgSize);
      && r.outcome.Returned? && r.outcome.data == None
      && r.outcome.err.Some? && r.outcome.err.value.kind == CorruptMessage
      && r.action == CloseSocket && r.sleeps == []
      && Delivered(r.rest) == Delivered(input)[PrefixSize..]
  {
    FirstAttemptReads(input, Zeros(PrefixSize), MaxReadRetries, InitialDelay, None, false);
  }

  /** At the end of the stream every read attempt raises EOF. */
  lemma {:induction false} AttemptsAtEnd(buf: seq<byte>, left: nat, delay: int, lastError: Option<IOError>, onEof: bool)
    requires |buf| > 0 && left > 0
    ensures var a := ReadAttempts([], buf, left, delay, lastError, onEof);
      !a.success && a.lastError == Some(UnexpectedEof) && a.rest == []
    decreases left
  {
    if left > 1 {
      var backoff := Backoff(UnexpectedEof, onEof);
      AttemptsAtEnd(buf, left - 1, if backoff then 2 * delay else delay, Some(UnexpectedEof), onEof);
    }
  }

  /**
   * A stream that ends before a whole prefix arrives makes `receive` throw
   * `EMPTY` without closing the wire: the last of the five attempts saw EOF.
   */
  lemma ReceiveAtEnd(input: seq<ReadEvent>, maxMsgSize: Int32)
    requires |Delivered(input)| < PrefixSize && Trailing(input) == []
    ensures var r := ReceiveSpec(input, maxMsgSize);
      r.outcome == Raised(WireError(Empty, IO(UnexpectedEof))) && r.action == NoClose && r.rest == []
  {
    ReadFullyDelivers(input, Zeros(PrefixSize), 0);
    ReadFullyRaises(input, Zeros(PrefixSize), 0);
    var f := ReadFullyFrom(input, Zeros(PrefixSize), 0);
    AttemptsAtEnd(f.buf, MaxReadRetries - 1, InitialDelay, Some(UnexpectedEof), false);
    var a := ReadAttempts(input, Zeros(PrefixSize), MaxReadRetries, InitialDelay, None, false);
    assert !a.success && a.lastError == Some(UnexpectedEof) && a.rest == [];
  }

  /** `readPrefix` never returns null: after five failed attempts `lastErr` is set. */
  lemma PrefixNeverNull(input: seq<ReadEvent>)
    ensures !ReadPrefixPlan(input).outcome.NoPrefix?
  {
  }

  /**
   * `readPrefix` gives up after five failed attempts: a last EOF is thrown as
   * `EMPTY` and leaves the wire as it was; any other last error closes the
   * wire and is thrown as `TERMINATED`.
   */
  lemma PrefixGivesUp(input: seq<ReadEvent>)
    ensures var a := ReadAttempts(input, Zeros(PrefixSize), MaxReadRetries, InitialDelay, None, false);
      var p := ReadPrefixPlan(input);
      !a.success ==>
        && a.calls == MaxReadRetries && a.lastError.Some?
        && (a.lastError.value.kind == EndOfFile ==>
              p.outcome == PrefixRaised(WireError(Empty, IO(a.lastError.value))) && p.action == NoClose)
        && (a.lastError.value.kind != EndOfFile ==>
              p.outcome == PrefixRaised(WireError(Terminated, IO(a.lastError.value))) && p.action == CloseSocket)
  {
  }

  /**
   * `readMessage` gives up after five failed attempts: the wire is marked
   * closed without closing the socket, and `TERMINATED` is returned with the
   * buffer as it was left.
   */
  lemma MessageGivesUp(w: WireState, size: nat)
    ensures var m := ReadAttempts(w.input, Zeros(size), MaxReadRetries, InitialDelay, None, true);
      var (r, w') := MessageState(w, size);
      !m.success ==>
        && m.calls == MaxReadRetries && m.lastError.Some?
        && r == Returned(Some(m.buf), Some(WireError(Terminated, IO(m.lastError.value))))
        && w'.status == Closed && w'.socketCloses == w.socketCloses
  {
  }

  /** Copies `src` into `dst` at `off`: `System.arraycopy`. */
  method ArrayCopy(src: seq<byte>, dst: array<byte>, off: nat)
    requires off + |src| <= dst.Length
    modifies dst
    ensures dst[..] == Overlay(old(dst[..]), off, src)
  {
    for i := 0 to |src|
      invariant forall k :: 0 <= k < dst.Length ==> dst[k] == if off <= k < off + i then src[k - off] else old(dst[k])
    {
      dst[off + i] := src[i];
    }
  }

  /** What one `read(buffer, off, len)` call returns: a count (-1 at the end) or an exception. */
  datatype ReadReturn = Count(n: int) | Threw(error: IOError)

  class TCPWire {
    const maxMsgSize: Int32
    var status: Status
    var input: seq<ReadEvent>
    var writes: seq<WriteEvent>
    var output: seq<byte>
    var socketCloses: nat
    var sleeps: seq<int>

    /** The lifecycle invariant: an open wire has never closed its socket, and no socket is closed twice. */
    ghost predicate Valid()
      reads this
    {
      (status == Open ==> socketCloses == 0) && socketCloses <= 1
    }

    /** The fields as a `WireState`. */
    ghost function State(): (w: WireState)
      reads this
      ensures ValidState(w) == Valid()
    {
      WireState(status, input, writes, output, socketCloses, sleeps)
    }

    constructor (maxMsgSize: Int32, input: seq<ReadEvent>, writes: seq<WriteEvent>)
      ensures Valid() && status == Open && socketCloses == 0
      ensures this.maxMsgSize == maxMsgSize && this.input == input && this.writes == writes
      ensures output == [] && sleeps == []
    {
      this.maxMsgSize := maxMsgSize;
      this.input := input;
      this.writes := writes;
      status := Open;
      output := [];
      socketCloses := 0;
      sleeps := [];
    }

    /** `close()`: compare-and-set OPEN -> CLOSED; only the winner closes the socket. */
    method Close()
      requires Valid()
      modifies this`status, this`socketCloses
      ensures Valid() && status == Closed
      ensures socketCloses == old(socketCloses) + (if old(status) == Open then 1 else 0)
      ensures State() == CloseState(old(State()))
    {
      if status == Open {
        status := Closed;
        socketCloses := socketCloses + 1;
      }
    }

    /** Applies `close()` or `status.set(CLOSED)` as `action` says. */
    method Apply(action: CloseAction)
      requires Valid()
      modifies this`status, this`socketCloses
      ensures Valid()
      ensures status == StatusAfter(old(status), action)
      ensures socketCloses == ClosesAfter(old(status), old(socketCloses), action)
    {
      match action
      case NoClose =>
      case CloseSocket => Close();
      case MarkClosed => status := Closed;
    }

    /** `send(msg)`: refuse on a closed wire, else write the frame of `msg`. */
    method Send(msg: Payload) returns (err: Option<WireError>)
      requires Valid()
      modifies this`status, this`writes, this`output, this`sleeps
      ensures Valid()
      ensures (err, State()) == SendState(old(State()), msg)
    {
      if status == Closed {
        return Some(ClosedWireError);
      }
      var size := |msg|;
      var buffer := new byte[PrefixSize + size](_ => 0);
      WritePrefix(size, buffer);
      ArrayCopy(msg, buffer, PrefixSize);
      assert buffer[..] == Frame(msg);
      err := Write(buffer);
    }

    /** `writePrefix(size, buffer)`: the big-endian size into the first four bytes. */
    static method WritePrefix(size: Int32, buffer: array<byte>)
      requires PrefixSize <= buffer.Length
      modifies buffer
      ensures buffer[..] == EncodeInt32(size) + old(buffer[PrefixSize..])
    {
      var bytes := EncodeInt32(size);
      ArrayCopy(bytes, buffer, 0);
    }

    /**
     * `write(buffer)`: attempt to write the whole buffer until it is flushed,
     * a "closed" error arrives, or a retry budget is exceeded; the last two
     * mark the wire closed without closing the socket. An empty buffer never
     * enters the loop.
     */
    method Write(buffer: array<byte>) returns (err: Option<WireError>)
      requires Valid()
      modifies this`status, this`writes, this`output, this`sleeps
      ensures Valid()
      ensures (err, State()) == WriteState(old(State()), buffer[..])
    {
      if buffer.Length == 0 {
        return None;
      }
      var verdict, rest, slept := WriteAttempts(writes);
      writes := rest;
      sleeps := sleeps + slept;
      if verdict.Flushed? {
        output := output + buffer[..];
        return None;
      }
      status := Closed;
      assert output == old(output) + [];
      return WriteError(verdict);
    }

    /**
     * The `while (totalWritten < buffer.size)` loop of `write`: one
     * write-and-flush per iteration, then the `catch` block's decision. Returns
     * how the loop ended, the events left and the delays slept.
     */
    static method WriteAttempts(events: seq<WriteEvent>) returns (verdict: WriteVerdict, rest: seq<WriteEvent>, slept: seq<int>)
      ensures var run := WriteLoop(events, 0, 0, InitialDelay);
        verdict == run.verdict && rest == run.rest && slept == run.sleeps
    {
      var partialWriteRetries: nat := 0;
      var backoffRetries: nat := 0;
      var delay := InitialDelay;
      rest, slept := events, [];
      ghost var whole := WriteLoop(events, 0, 0, delay);
      assert [] + whole.sleeps == whole.sleeps;
      while true
        invariant backoffRetries <= MaxBackoffRetries && partialWriteRetries <= MaxPartialWriteRetries
        invariant WriteContinues(whole, WriteLoop(rest, backoffRetries, partialWriteRetries, delay), slept)
        decreases (MaxBackoffRetries - backoffRetries) + (MaxPartialWriteRetries - partialWriteRetries)
      {
        WriteStep(whole, rest, backoffRetries, partialWriteRetries, delay, slept);
        var (ev, left) := NextWrite(rest);
        rest := left;
        var h := AttemptHandling(ev, backoffRetries, partialWriteRetries);
        if h.Stop? {
          verdict := h.verdict;
          break;
        } else if h == SleepAndRetry {
          backoffRetries := backoffRetries + 1;
          slept := slept + [delay];
          delay := 2 * delay;
        } else {
          partialWriteRetries := partialWriteRetries + 1;
        }
      }
    }

    /** `InputStream.read(buffer, off, len)` for `len > 0`. */
    method Read(buffer: array<byte>, off: nat, len: nat) returns (r: ReadReturn)
      requires 0 < len && off + len <= buffer.Length
      modifies this`input, buffer
      ensures match ReadStep(old(input), len)
        case AtEnd => r == Count(-1) && input == old(input) && buffer[..] == old(buffer[..])
        case Fails(e, rest) => r == Threw(e) && input == rest && buffer[..] == old(buffer[..])
        case Bytes(got, rest) => r == Count(|got|) && input == rest && buffer[..] == Overlay(old(buffer[..]), off, got)
    {
      match ReadStep(input, len) {
        case AtEnd => r := Count(-1);
        case Fails(e, rest) => r := Threw(e); input := rest;
        case Bytes(got, rest) =>
          ArrayCopy(got, buffer, off);
          r := Count(|got|);
          input := rest;
      }
    }

    /** `InputStream.readFully(buffer)`: `read` until the buffer is full; -1 raises EOF. */
    method ReadFully(buffer: array<byte>) returns (err: Option<IOError>)
      modifies this`input, buffer
      ensures var f := ReadFullyFrom(old(input), old(buffer[..]), 0);
        buffer[..] == f.buf && input == f.rest && err == f.error
    {
      var read := 0;
      while read < buffer.Length
        invariant 0 <= read <= buffer.Length
        invariant ReadFullyFrom(input, buffer[..], read) == ReadFullyFrom(old(input), old(buffer[..]), 0)
        decreases |input|, HeadSize(input)
      {
        var bytesRead := Read(buffer, read, buffer.Length - read);
        match bytesRead {
          case Threw(e) => return Some(e);
          case Count(n) =>
            if n == -1 {
              return Some(UnexpectedEof);
            }
            read := read + n;
        }
      }
      return None;
    }

    /**
     * `handleFatalReadError(e)`: EOF throws `EMPTY`; any other error closes the
     * wire and throws `TERMINATED`; null does nothing.
     */
    method HandleFatalReadError(e: Option<IOError>) returns (raised: Option<WireError>)
      requires Valid()
      modifies this`status, this`socketCloses
      ensures Valid()
      ensures e.None? ==> raised.None? && status == old(status) && socketCloses == old(socketCloses)
      ensures e.Some? ==>
        var (err, action) := FatalReadError(e.value);
        && raised == Some(err)
        && status == StatusAfter(old(status), action)
        && socketCloses == ClosesAfter(old(status), old(socketCloses), action)
    {
      match e
      case None => raised := None;
      case Some(x) =>
        if x.kind == EndOfFile {
          raised := Some(WireError(Empty, IO(x)));
        } else if Mentions(x, "use of closed network connection") {
          Close();
          raised := Some(WireError(Terminated, IO(x)));
        } else {
          Close();
          raised := Some(WireError(Terminated, IO(x)));
        }
    }

    /**
     * The `repeat(5)` loop `readPrefix` and `readMessage` both run over `buffer`:
     * `readFully` until it returns normally, remembering the last exception and
     * sleeping, with doubling delays, after a backoff error; `onEof` makes an EOF
     * a backoff error, as in `readMessage`.
     */
    method RetryRead(buffer: array<byte>, maxRetries: nat, initialDelay: int, onEof: bool) returns (ok: bool, lastErr: Option<IOError>)
      modifies this`input, this`sleeps, buffer
      ensures var a := ReadAttempts(old(input), old(buffer[..]), maxRetries, initialDelay, None, onEof);
        && ok == a.success && buffer[..] == a.buf && input == a.rest && lastErr == a.lastError
        && sleeps == old(sleeps) + a.sleeps
    {
      var delay := initialDelay;
      ok, lastErr := false, None;
      ghost var slept: seq<int> := [];
      ghost var whole := ReadAttempts(input, buffer[..], maxRetries, delay, None, onEof);
      for attempt := 0 to maxRetries
        invariant Continues(whole, ReadAttempts(input, buffer[..], maxRetries - attempt, delay, lastErr, onEof), slept)
        invariant sleeps == old(sleeps) + slept
      {
        ghost var before, filled := input, buffer[..];
        var err := ReadFully(buffer);
        if err.None? {
          SucceededAttempt(whole, before, filled, maxRetries - attempt, delay, lastErr, onEof, slept);
          ok := true;
          break;
        }
        FailedAttempt(whole, before, filled, maxRetries - attempt, delay, lastErr, onEof, slept);
        lastErr := err;
        var e := err.value;
        if Backoff(e, onEof) {
          sleeps := sleeps + [delay];
          slept := slept + [delay];
          delay := 2 * delay;
        } else {
          assert slept + [] == slept;
        }
      }
      if !ok {
        NoAttemptLeft(whole, input, buffer[..], delay, lastErr, onEof, slept);
      }
    }

    /** `readPrefix()`: the retry loop over four bytes, then the fatal-error handling. */
    method ReadPrefix() returns (p: PrefixOutcome)
      requires Valid()
      modifies this`input, this`sleeps, this`status, this`socketCloses
      ensures Valid()
      ensures (p, State()) == PrefixState(old(State()))
    {
      var buffer := new byte[PrefixSize](_ => 0);
      assert buffer[..] == Zeros(PrefixSize);
      var ok, lastErr := RetryRead(buffer, MaxReadRetries, InitialDelay, false);
      if ok {
        return Size(DecodeInt32(buffer[..]));
      }
      var raised := HandleFatalReadError(lastErr);
      match raised {
        case None => p := NoPrefix;
        case Some(x) => p := PrefixRaised(x);
      }
    }

    /** `readMessage(size)`: the retry loop over the body; when it gives up the wire is marked closed. */
    method ReadMessage(size: nat) returns (r: Received)
      requires Valid()
      modifies this`input, this`sleeps, this`status
      ensures Valid()
      ensures (r, State()) == MessageState(old(State()), size)
    {
      var buffer := new byte[size](_ => 0);
      assert buffer[..] == Zeros(size);
      var ok, lastErr := RetryRead(buffer, MaxReadRetries, InitialDelay, true);
      if ok {
        return Returned(Some(buffer[..]), None);
      }
      status := Closed;
      r := Returned(Some(buffer[..]), Some(BodyLost(lastErr)));
    }

    /** `receive()`. */
    method Receive() returns (r: Received)
      requires Valid()
      modifies this`input, this`sleeps, this`status, this`socketCloses
      ensures Valid()
      ensures (r, State()) == ReceiveState(old(State()), maxMsgSize)
    {
      ghost var w := State();
      ghost var plan := ReadPrefixPlan(input);
      var p := ReadPrefix();
      match p {
        case NoPrefix =>
          r := Returned(None, Some(NoPrefixError));
        case PrefixRaised(e) =>
          r := Raised(e);
        case Size(size) =>
          if size <= 0 {
            Close();
            return Returned(None, Some(InvalidSize(size)));
          }
          if size > maxMsgSize {
            Close();
            return Returned(None, Some(TooLarge(size, maxMsgSize)));
          }
          ghost var m := ReadAttempts(input, Zeros(size), MaxReadRetries, InitialDelay, None, true);
          r := ReadMessage(size);
          AfterTwoReads(w, plan.rest, plan.sleeps, m.rest, m.sleeps, if m.success then NoClose else MarkClosed);
      }
    }
  }
}
