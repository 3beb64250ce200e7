/**
 * `Client`: a main wire for request/response commands, fired under a
 * `Retrier` that retries only `TERMINATED` wire errors, and a watch wire whose
 * flow emits pushed results until the first error. The sockets are oracles
 * (see `Transport`), the protobuf codec is a parameter (see `Codec`), and the
 * retrier's delays are recorded in `waits` instead of waited.
 */
module DiceClient {
  import opened Base
  import opened Framing
  import opened Sockets
  import opened Transport
  import opened Proto
  import opened Codec
  import opened Commands
  import opened Retry

  /** What one attempt of `fire` throws. */
  datatype Failure =
    | WireFailure(error: WireError)           // a `WireError` from the wire or the codec
    | CommandFailed(message: Option<string>)  // "Command failed: <message>"; `None` for a null result
    | Mismatched(kind: ResponseKind)          // "Mismatched response type": the slot was null

  /** The retry predicate: only a `WireError` of kind `TERMINATED` is retried. */
  predicate IsRetryable(f: Failure) {
    f.WireFailure? && f.error.kind == Terminated
  }

  /** `ClientConfig(maxMessageSize, retryDelay, maxAttempts)`, the delay in milliseconds. */
  datatype ClientConfig = ClientConfig(maxMessageSize: Int32, retryDelay: nat, maxAttempts: Int32)

  const DefaultConfig: ClientConfig := ClientConfig(32 * 1024 * 1024, 5000, 3)

  /** The client's retrier: the configured attempts and delay, and the `TERMINATED` predicate. */
  function ClientRetrier(config: ClientConfig): (r: Retrier<Failure>)
    ensures r.maxAttempts == config.maxAttempts && r.retryDelay == config.retryDelay
    ensures forall f :: r.shouldRetry(f) <==> f.WireFailure? && f.error.kind == Terminated
  {
    Retrier(config.maxAttempts, config.retryDelay, IsRetryable)
  }

  /**
   * The body of one attempt after the send: a wire error is thrown, a null
   * result or an `ERR` status fails the command, and otherwise the slot of the
   * requested class is returned, or the attempt fails when that slot is null.
   */
  function Classify(d: Decoded, k: ResponseKind): Attempt<Response, Failure> {
    match d
    case Thrown(e) => Err(WireFailure(e))
    case Pair(result, err) =>
      if err.Some? then Err(WireFailure(err.value))
      else if result.None? then Err(CommandFailed(None))
      else if result.value.status == Some(ERR) then Err(CommandFailed(Some(result.value.message)))
      else match SlotFor(result.value, k)
        case Some(r) => Ok(r)
        case None => Err(Mismatched(k))
  }

  /**
   * One attempt of `fire` on a main wire in state `w`: send the encoded
   * command `p`, then receive and classify the reply for response class `k`.
   */
  function FireAttempt(encode: Encoder, decode: Decoder, maxMsgSize: Int32, p: ProtoCommand, k: ResponseKind,
                       w: WireState): (Attempt<Response, Failure>, WireState)
  {
    var (err, w1) := CodecSendState(encode, w, p);
    if err.Some? then (Err(WireFailure(err.value)), w1)
    else
      var (d, w2) := CodecReceiveState(decode, w1, maxMsgSize);
      (Classify(d, k), w2)
  }

  /** The block `fire` hands to the retrier, as a step on the main wire's state. */
  function FireBlock(encode: Encoder, decode: Decoder, maxMsgSize: Int32, p: ProtoCommand, k: ResponseKind)
    : WireState -> (Attempt<Response, Failure>, WireState)
  {
    w => FireAttempt(encode, decode, maxMsgSize, p, k, w)
  }

  /** `fire` of the encoded command `p` for response class `k`, from main wire state `w`. */
  function FireRun(config: ClientConfig, encode: Encoder, decode: Decoder, p: ProtoCommand, k: ResponseKind,
                   w: WireState): Trace<Response, Failure, WireState>
  {
    RunSpec(ClientRetrier(config), FireBlock(encode, decode, config.maxMessageSize, p, k), w)
  }

  /** `fire(c)` from main wire state `w`: the command's encoding, for its declared response class. */
  function FireSpec(config: ClientConfig, encode: Encoder, decode: Decoder, c: Command, w: WireState)
    : Trace<Response, Failure, WireState>
  {
    FireRun(config, encode, decode, ToProto(c), ResponseKindOf(c), w)
  }

  /**
   * An attempt returns a payload exactly when the reply decodes without an
   * error, its status is not `ERR`, and the slot of the requested class is set;
   * the payload is that slot, so it is of the requested class.
   */
  lemma ClassifyOk(d: Decoded, k: ResponseKind, v: Response)
    ensures Classify(d, k) == Ok(v) <==>
      d.Pair? && d.err.None? && d.result.Some? && d.result.value.status != Some(ERR)
      && k in d.result.value.slots && d.result.value.slots[k] == v
    ensures Classify(d, k) == Ok(v) ==> v.Kind() == k
  {
  }

  /** An attempt fails with a retryable error exactly when the wire or the codec reported `TERMINATED`. */
  lemma ClassifyRetryable(d: Decoded, k: ResponseKind)
    ensures (Classify(d, k).Err? && IsRetryable(Classify(d, k).error)) <==>
      DecodedError(d).Some? && DecodedError(d).value.kind == Terminated
  {
  }

  /** A send error is thrown before any receive: the stream is not read. */
  lemma SendErrorSkipsReceive(encode: Encoder, decode: Decoder, maxMsgSize: Int32, p: ProtoCommand, k: ResponseKind,
                               w: WireState)
    requires CodecSendState(encode, w, p).0.Some?
    ensures var (a, w') := FireAttempt(encode, decode, maxMsgSize, p, k, w);
      a == Err(WireFailure(CodecSendState(encode, w, p).0.value)) && w'.input == w.input
  {
    var bytes := encode(p);
    if bytes.Some? && w.status == Open && |bytes.value| <= IntMax - PrefixSize {
      assert CodecSendState(encode, w, p) == SendState(w, bytes.value);
    }
  }

  /**
   * The command's declared response class fixes the slot: `ZCount` reads the
   * `zcardRes` slot, so a reply that fills only `zcountRes` fails as mismatched.
   */
  lemma ZCountReadsZCardSlot(key: string, min: string, max: string, reply: Envelope)
    requires reply.status != Some(ERR) && reply.slots.Keys == {ZCOUNT}
    ensures Classify(Pair(Some(reply), None), ResponseKindOf(ZCount(key, min, max))) == Err(Mismatched(ZCARD))
  {
    assert ZCARD !in reply.slots;
  }

  /** Likewise `HGetAllWatch` reads the `hgetWatchRes` slot, not `hgetAllWatchRes`. */
  lemma HGetAllWatchReadsHGetWatchSlot(key: string, reply: Envelope)
    requires reply.status != Some(ERR) && reply.slots.Keys == {HGETALLWATCH}
    ensures Classify(Pair(Some(reply), None), ResponseKindOf(HGetAllWatch(key))) == Err(Mismatched(HGETWATCH))
  {
    assert HGETWATCH !in reply.slots;
  }

  /** The error every attempt on a closed main wire fails with. */
  function ClosedAttemptError(encode: Encoder, p: ProtoCommand): WireError {
    if encode(p).Some? then ClosedWireError else CodecError
  }

  /** On a closed wire an attempt fails before anything is read or written, and the wire stays closed. */
  lemma ClosedAttemptFails(encode: Encoder, decode: Decoder, maxMsgSize: Int32, p: ProtoCommand, k: ResponseKind,
                           w: WireState)
    requires w.status == Closed
    ensures var (a, w') := FireAttempt(encode, decode, maxMsgSize, p, k, w);
      && a == Err(WireFailure(ClosedAttemptError(encode, p)))
      && w' == w
  {
  }

  /**
   * From a closed main wire the remaining attempts all fail: each is refused
   * with "trying to use closed wire", which is retried until the attempts run
   * out, whatever the size of the encoding, unless the encoder throws, which
   * fails at once.
   */
  lemma {:induction false} ClosedRunFails(config: ClientConfig, encode: Encoder, decode: Decoder, p: ProtoCommand,
                                          k: ResponseKind, w: WireState, attempt: nat)
    requires w.status == Closed && attempt < config.maxAttempts
    ensures var run := RunFrom(ClientRetrier(config), FireBlock(encode, decode, config.maxMessageSize, p, k), w, attempt);
      && run.outcome == Outcome.Threw(Failed(WireFailure(ClosedAttemptError(encode, p))))
      && run.state == w
      && run.calls == if encode(p).Some? then config.maxAttempts - attempt else 1
    decreases config.maxAttempts - attempt
  {
    ClosedAttemptFails(encode, decode, config.maxMessageSize, p, k, w);
    if encode(p).Some? && attempt < config.maxAttempts - 1 {
      ClosedRunFails(config, encode, decode, p, k, w, attempt + 1);
    }
  }

  /**
   * An attempt whose error is retried leaves the main wire closed: a retried
   * error is `TERMINATED`, and every error other than `EMPTY` closes the wire.
   */
  lemma RetriedAttemptCloses(encode: Encoder, decode: Decoder, maxMsgSize: Int32, p: ProtoCommand, k: ResponseKind,
                             w: WireState)
    ensures var (a, w') := FireAttempt(encode, decode, maxMsgSize, p, k, w);
      a.Err? && IsRetryable(a.error) ==> w'.status == Closed
  {
    CodecSendErrorsClose(encode, w, p);
    var (err, ws) := CodecSendState(encode, w, p);
    if err.None? {
      CodecReceiveErrorsClose(decode, ws, maxMsgSize);
      var (d, _) := CodecReceiveState(decode, ws, maxMsgSize);
      ClassifyRetryable(d, k);
    }
  }

  /**
   * Retrying cannot recover: a retried error leaves the main wire closed, and
   * a closed wire refuses every later send. So once `fire` retries, it uses up
   * all its attempts and throws "trying to use closed wire" on a closed wire.
   */
  lemma NoRecoveryAfterRetry(config: ClientConfig, encode: Encoder, decode: Decoder, p: ProtoCommand, k: ResponseKind,
                             w: WireState)
    ensures var run := FireRun(config, encode, decode, p, k, w);
      run.calls > 1 ==>
        && run.outcome == Outcome.Threw(Failed(WireFailure(ClosedWireError)))
        && run.calls == config.maxAttempts
        && run.state.status == Closed
  {
    var block := FireBlock(encode, decode, config.maxMessageSize, p, k);
    var (a, w1) := FireAttempt(encode, decode, config.maxMessageSize, p, k, w);
    assert block(w) == (a, w1);
    if config.maxAttempts > 1 && a.Err? && IsRetryable(a.error) {
      RetriedStep(ClientRetrier(config), block, w, 0);
      RetriedAttemptCloses(encode, decode, config.maxMessageSize, p, k, w);
      ClosedRunFails(config, encode, decode, p, k, w1, 1);
    } else if config.maxAttempts > 0 {
      FinalStep(ClientRetrier(config), block, w, 0);
    }
  }

  /**
   * What `fire` returns: a payload of the requested response class, taken
   * from the reply to the first attempt, since no retry can succeed.
   */
  lemma FireReturnsRequestedClass(config: ClientConfig, encode: Encoder, decode: Decoder, p: ProtoCommand,
                                  k: ResponseKind, w: WireState)
    ensures var run := FireRun(config, encode, decode, p, k, w);
      run.outcome.Returned? ==>
        && run.calls == 1
        && run.outcome.value.Kind() == k
        && FireAttempt(encode, decode, config.maxMessageSize, p, k, w).0 == Ok(run.outcome.value)
  {
    var run := FireRun(config, encode, decode, p, k, w);
    if config.maxAttempts > 0 {
      var block := FireBlock(encode, decode, config.maxMessageSize, p, k);
      var (a, w1) := FireAttempt(encode, decode, config.maxMessageSize, p, k, w);
      assert block(w) == (a, w1);
      if config.maxAttempts > 1 && a.Err? && IsRetryable(a.error) {
        RetriedStep(ClientRetrier(config), block, w, 0);
        RetriedAttemptCloses(encode, decode, config.maxMessageSize, p, k, w);
        ClosedRunFails(config, encode, decode, p, k, w1, 1);
      } else {
        FinalStep(ClientRetrier(config), block, w, 0);
        if a.Ok? {
          var (err, ws) := CodecSendState(encode, w, p);
          var (d, _) := CodecReceiveState(decode, ws, config.maxMessageSize);
          ClassifyOk(d, k, a.value);
        }
      }
    }
  }

  /** `fire(c)` returns only a payload of the command's declared response class. */
  lemma FireReturnsDeclaredClass(config: ClientConfig, encode: Encoder, decode: Decoder, c: Command, w: WireState)
    ensures var run := FireSpec(config, encode, decode, c, w);
      run.outcome.Returned? ==> run.calls == 1 && run.outcome.value.Kind() == ResponseKindOf(c)
  {
    FireReturnsRequestedClass(config, encode, decode, ToProto(c), ResponseKindOf(c), w);
  }

  /** The defaults: 32 MiB messages, three attempts, 5000 ms apart. */
  lemma DefaultClientRetrier()
    ensures ClientRetrier(DefaultConfig).maxAttempts == 3 && ClientRetrier(DefaultConfig).retryDelay == 5000
    ensures DefaultConfig.maxMessageSize == 33554432
  {
  }

  /** What collecting `watchFlow(c)` yields: the results emitted, what it throws, and the watch wire's state after. */
  datatype Watched = Watched(emitted: seq<Envelope>, thrown: Option<WireError>, state: WireState)

  /**
   * The `while (true)` receive loop: emit each result until a thrown error,
   * a returned error or a null result. The loop's own `close` and the one in
   * `onCompletion` leave the wire closed; the second changes nothing.
   */
  function WatchLoop(decode: Decoder, maxMsgSize: Int32, w: WireState): Watched
    decreases Weight(w.input)
  {
    var (d, w1) := CodecReceiveState(decode, w, maxMsgSize);
    match d
    case Thrown(e) => Watched([], Some(e), CloseState(w1))
    case Pair(message, err) =>
      if err.Some? || message.None? then Watched([], None, CloseState(w1))
      else
        ReceiveConsumes(w.input, maxMsgSize);
        var rest := WatchLoop(decode, maxMsgSize, w1);
        Watched([message.value] + rest.emitted, rest.thrown, rest.state)
  }

  /** `watchFlow` of the encoded command `p` from watch wire state `w`: send once, throwing a send error, then the loop. */
  function WatchSpec(encode: Encoder, decode: Decoder, maxMsgSize: Int32, p: ProtoCommand, w: WireState): Watched {
    var (err, w1) := CodecSendState(encode, w, p);
    if err.Some? then Watched([], err, CloseState(w1)) else WatchLoop(decode, maxMsgSize, w1)
  }

  /** One turn of the watch loop: how it ends, or the result it emits before going on with less of the stream. */
  lemma WatchLoopStep(decode: Decoder, maxMsgSize: Int32, w: WireState)
    ensures var (d, w1) := CodecReceiveState(decode, w, maxMsgSize);
      var r := WatchLoop(decode, maxMsgSize, w);
      && (d.Thrown? ==> r == Watched([], Some(d.error), CloseState(w1)))
      && (d.Pair? && (d.err.Some? || d.result.None?) ==> r == Watched([], None, CloseState(w1)))
      && (d.Pair? && d.err.None? && d.result.Some? ==>
            && Weight(w1.input) < Weight(w.input)
            && var rest := WatchLoop(decode, maxMsgSize, w1);
               r == Watched([d.result.value] + rest.emitted, rest.thrown, rest.state))
  {
    ReceiveConsumes(w.input, maxMsgSize);
  }

  /** `r` after the results `emitted` were already emitted. */
  function After(emitted: seq<Envelope>, r: Watched): Watched {
    Watched(emitted + r.emitted, r.thrown, r.state)
  }

  /**
   * One turn of the collecting loop, after `emitted` were emitted: a thrown or
   * returned error ends the flow with a closed wire (closed twice for a
   * returned one), and a result is emitted before the loop goes on.
   */
  lemma WatchTurn(decode: Decoder, maxMsgSize: Int32, w: WireState, emitted: seq<Envelope>)
    ensures var (d, w1) := CodecReceiveState(decode, w, maxMsgSize);
      var whole := After(emitted, WatchLoop(decode, maxMsgSize, w));
      && (d.Thrown? ==> whole == Watched(emitted, Some(d.error), CloseState(w1)))
      && (d.Pair? && (d.err.Some? || d.result.None?) ==> whole == Watched(emitted, None, CloseState(CloseState(w1))))
      && (d.Pair? && d.err.None? && d.result.Some? ==>
            && Weight(w1.input) < Weight(w.input)
            && whole == After(emitted + [d.result.value], WatchLoop(decode, maxMsgSize, w1)))
  {
    WatchLoopStep(decode, maxMsgSize, w);
    var (d, w1) := CodecReceiveState(decode, w, maxMsgSize);
    if d.Pair? && d.err.None? && d.result.Some? {
      assert emitted + [d.result.value] + WatchLoop(decode, maxMsgSize, w1).emitted == emitted + ([d.result.value] + WatchLoop(decode, maxMsgSize, w1).emitted);
    }
  }

  /** The watch wire is closed when the flow ends, however it ends. */
  lemma {:induction false} WatchLoopCloses(decode: Decoder, maxMsgSize: Int32, w: WireState)
    ensures WatchLoop(decode, maxMsgSize, w).state.status == Closed
    decreases Weight(w.input)
  {
    var (d, w1) := CodecReceiveState(decode, w, maxMsgSize);
    if d.Pair? && d.err.None? && d.result.Some? {
      ReceiveConsumes(w.input, maxMsgSize);
      WatchLoopCloses(decode, maxMsgSize, w1);
    }
  }

  lemma WatchCloses(encode: Encoder, decode: Decoder, maxMsgSize: Int32, p: ProtoCommand, w: WireState)
    ensures WatchSpec(encode, decode, maxMsgSize, p, w).state.status == Closed
  {
    var (err, w1) := CodecSendState(encode, w, p);
    if err.None? {
      WatchLoopCloses(decode, maxMsgSize, w1);
    }
  }

  /** A failed send is thrown: nothing is received or emitted, and the stream is not read. */
  lemma WatchSendFails(encode: Encoder, decode: Decoder, maxMsgSize: Int32, p: ProtoCommand, w: WireState)
    requires CodecSendState(encode, w, p).0.Some?
    ensures var r := WatchSpec(encode, decode, maxMsgSize, p, w);
      r.emitted == [] && r.thrown == CodecSendState(encode, w, p).0 && r.state.input == w.input
  {
    var bytes := encode(p);
    if bytes.Some? && w.status == Open && |bytes.value| <= IntMax - PrefixSize {
      assert CodecSendState(encode, w, p) == SendState(w, bytes.value);
    }
  }

  /** The frames of `msgs`, one after another. */
  function Frames(msgs: seq<Payload>): seq<byte> {
    if msgs == [] then [] else Frame(msgs[0]) + Frames(msgs[1..])
  }

  /** The frames of `msgs` start with the frame of its first payload, followed by the frames of the rest. */
  lemma FramesHead(msgs: seq<Payload>)
    requires msgs != []
    ensures var f := Frame(msgs[0]);
      |f| <= |Frames(msgs)| && Frames(msgs)[..|f|] == f && Frames(msgs)[|f|..] == Frames(msgs[1..])
  {
    var f := Frame(msgs[0]);
    assert Frames(msgs) == f + Frames(msgs[1..]);
  }

  /**
   * A stream that starts with the frame of a payload decoding to `result`
   * makes the watch loop emit `result` first, then go on just after the frame.
   */
  lemma WatchLoopEmitsFrame(decode: Decoder, maxMsgSize: Int32, w: WireState, msg: Payload, result: Envelope)
    requires 0 < |msg| <= maxMsgSize && decode(msg) == Some(result)
    requires |Frame(msg)| <= |Delivered(w.input)| && Delivered(w.input)[..|Frame(msg)|] == Frame(msg)
    ensures var w1 := CodecReceiveState(decode, w, maxMsgSize).1;
      var rest := WatchLoop(decode, maxMsgSize, w1);
      && Delivered(w1.input) == Delivered(w.input)[|Frame(msg)|..] && Trailing(w1.input) == Trailing(w.input)
      && WatchLoop(decode, maxMsgSize, w) == Watched([result] + rest.emitted, rest.thrown, rest.state)
  {
    ReceiveDecodesFrame(decode, w, maxMsgSize, msg, result);
    WatchLoopStep(decode, maxMsgSize, w);
  }

  /**
   * Results are emitted in the order they arrive: a stream that delivers the
   * frames of payloads decoding to `results` and then ends makes the flow
   * emit exactly `results`, then throw the `EMPTY` error of the end of the
   * stream.
   */
  lemma {:induction false} WatchLoopEmitsFrames(decode: Decoder, maxMsgSize: Int32, w: WireState,
                                                msgs: seq<Payload>, results: seq<Envelope>)
    requires |msgs| == |results|
    requires forall i :: 0 <= i < |msgs| ==> 0 < |msgs[i]| <= maxMsgSize && decode(msgs[i]) == Some(results[i])
    requires Delivered(w.input) == Frames(msgs) && Trailing(w.input) == []
    ensures var r := WatchLoop(decode, maxMsgSize, w);
      r.emitted == results && r.thrown == Some(WireError(Empty, IO(UnexpectedEof)))
    decreases |msgs|
  {
    if msgs == [] {
      ReceiveAtEnd(w.input, maxMsgSize);
    } else {
      FramesHead(msgs);
      WatchLoopEmitsFrame(decode, maxMsgSize, w, msgs[0], results[0]);
      var w1 := CodecReceiveState(decode, w, maxMsgSize).1;
      WatchLoopEmitsFrames(decode, maxMsgSize, w1, msgs[1..], results[1..]);
      assert [results[0]] + results[1..] == results;
    }
  }

  /** `Client(host, port, config, id)`. */
  class Client {
    const config: ClientConfig
    const id: string
    const mainWire: ProtobufTCPWire
    const retrier: Retrier<Failure>
    const watchWire: ProtobufTCPWire
    var waits: seq<nat>                          // the retrier's delays, in milliseconds
    var initOutcome: Outcome<Response, Failure>  // what the handshake in `init` returned or threw

    ghost predicate Valid()
      reads this, mainWire, watchWire, mainWire.tcpWire, watchWire.tcpWire
    {
      && mainWire.Valid() && watchWire.Valid() && mainWire.tcpWire != watchWire.tcpWire
      && mainWire.tcpWire.maxMsgSize == config.maxMessageSize && watchWire.tcpWire.maxMsgSize == config.maxMessageSize
      && retrier == ClientRetrier(config)
    }

    /**
     * Opens both wires, then `init` fires one `Handshake(id)` on the main wire.
     * The sockets are given by what they deliver and accept.
     */
    constructor (config: ClientConfig, id: string, encode: Encoder, decode: Decoder,
                 mainInput: seq<ReadEvent>, mainWrites: seq<WriteEvent>,
                 watchInput: seq<ReadEvent>, watchWrites: seq<WriteEvent>)
      ensures Valid() && this.config == config && this.id == id
      ensures fresh(mainWire) && fresh(mainWire.tcpWire) && fresh(watchWire) && fresh(watchWire.tcpWire)
      ensures mainWire.encode == encode && mainWire.decode == decode
      ensures watchWire.encode == encode && watchWire.decode == decode
      ensures var run := FireSpec(config, encode, decode, DefaultHandshake(id), WireState(Open, mainInput, mainWrites, [], 0, []));
        initOutcome == run.outcome && mainWire.tcpWire.State() == run.state && waits == run.delays
      ensures watchWire.tcpWire.State() == WireState(Open, watchInput, watchWrites, [], 0, [])
    {
      this.config := config;
      this.id := id;
      mainWire := new ProtobufTCPWire(config.maxMessageSize, mainInput, mainWrites, encode, decode);
      retrier := ClientRetrier(config);
      watchWire := new ProtobufTCPWire(config.maxMessageSize, watchInput, watchWrites, encode, decode);
      waits := [];
      new;
      initOutcome := Fire(DefaultHandshake(id));
    }

    /** One attempt of `fire`: send `p`, throwing a send error, then receive and classify for class `k`. */
    static method Exchange(wire: ProtobufTCPWire, p: ProtoCommand, k: ResponseKind) returns (a: Attempt<Response, Failure>)
      requires wire.Valid()
      modifies wire.tcpWire
      ensures wire.Valid()
      ensures (a, wire.tcpWire.State()) ==
        FireAttempt(wire.encode, wire.decode, wire.tcpWire.maxMsgSize, p, k, old(wire.tcpWire.State()))
    {
      var err := wire.Send(p);
      if err.Some? {
        return Err(WireFailure(err.value));
      }
      var d := wire.Receive();
      a := Classify(d, k);
    }

    /**
     * `fire(c)`: the retrier's `require`, then its loop around one exchange,
     * for the slot of the command's declared response class.
     */
    method Fire(c: Command) returns (outcome: Outcome<Response, Failure>)
      requires Valid()
      modifies mainWire.tcpWire, this`waits
      ensures Valid()
      ensures var run := FireSpec(config, mainWire.encode, mainWire.decode, c, old(mainWire.tcpWire.State()));
        outcome == run.outcome && mainWire.tcpWire.State() == run.state && waits == old(waits) + run.delays
    {
      if retrier.maxAttempts <= 0 {
        return Outcome.Threw(RequirementFailed);
      }
      var delays;
      outcome, delays := Attempts(mainWire, retrier, ToProto(c), ResponseKindOf(c));
      waits := waits + delays;
    }

    /**
     * The `for` loop of `run` on `wire`: an exchange per attempt, an early
     * return on success, a throw on cancellation, on a rejected error or on
     * the last attempt's error, and a delay before each retry.
     */
    static method Attempts(wire: ProtobufTCPWire, retrier: Retrier<Failure>, p: ProtoCommand, k: ResponseKind)
      returns (outcome: Outcome<Response, Failure>, delays: seq<nat>)
      requires wire.Valid() && retrier.maxAttempts > 0
      modifies wire.tcpWire
      ensures wire.Valid()
      ensures var run := RunFrom(retrier, FireBlock(wire.encode, wire.decode, wire.tcpWire.maxMsgSize, p, k),
                                 old(wire.tcpWire.State()), 0);
        outcome == run.outcome && wire.tcpWire.State() == run.state && delays == run.delays
    {
      ghost var block := FireBlock(wire.encode, wire.decode, wire.tcpWire.maxMsgSize, p, k);
      ghost var whole := RunFrom(retrier, block, wire.tcpWire.State(), 0);
      delays := [];
      assert Retry.Continues(whole, whole, 0, []);
      for attempt := 0 to retrier.maxAttempts + 1
        invariant wire.Valid()
        invariant attempt < retrier.maxAttempts
        invariant Retry.Continues(whole, RunFrom(retrier, block, wire.tcpWire.State(), attempt), attempt, delays)
      {
        Retry.Turn(retrier, block, wire.tcpWire.State(), attempt, whole, attempt, delays);
        var a := Exchange(wire, p, k);
        match a {
          case Ok(v) => return Outcome.Returned(v), delays;
          case Cancel => return Outcome.Threw(Cancelled), delays;
          case Err(e) =>
            if !retrier.shouldRetry(e) || attempt == retrier.maxAttempts - 1 {
              return Outcome.Threw(Failed(e)), delays;
            }
            delays := delays + [retrier.retryDelay];
        }
      }
      assert false;
      outcome := Outcome.Threw(Unreachable);
    }

    /**
     * Collects `watchFlow(c)`: send once on the watch wire, then emit each
     * received result until an error or a null result ends the flow.
     */
    method WatchFlow(c: Command) returns (emitted: seq<Envelope>, thrown: Option<WireError>)
      requires Valid()
      modifies watchWire.tcpWire
      ensures Valid()
      ensures Watched(emitted, thrown, watchWire.tcpWire.State())
              == WatchSpec(watchWire.encode, watchWire.decode, config.maxMessageSize, ToProto(c), old(watchWire.tcpWire.State()))
    {
      var err := watchWire.Send(ToProto(c));
      if err.Some? {
        watchWire.Close();
        return [], err;
      }
      emitted, thrown := Collect(watchWire);
    }

    /**
     * The receive loop of `watchFlow` and its `onCompletion`: emit each result
     * until an error or a null result, and close the wire.
     */
    static method Collect(wire: ProtobufTCPWire) returns (emitted: seq<Envelope>, thrown: Option<WireError>)
      requires wire.Valid()
      modifies wire.tcpWire
      ensures wire.Valid()
      ensures Watched(emitted, thrown, wire.tcpWire.State()) == WatchLoop(wire.decode, wire.tcpWire.maxMsgSize, old(wire.tcpWire.State()))
    {
      emitted := [];
      ghost var whole := WatchLoop(wire.decode, wire.tcpWire.maxMsgSize, wire.tcpWire.State());
      assert whole == After([], whole);
      while true
        invariant wire.Valid()
        invariant whole == After(emitted, WatchLoop(wire.decode, wire.tcpWire.maxMsgSize, wire.tcpWire.State()))
        decreases Weight(wire.tcpWire.input)
      {
        WatchTurn(wire.decode, wire.tcpWire.maxMsgSize, wire.tcpWire.State(), emitted);
        var d := wire.Receive();
        match d {
          case Thrown(e) =>
            wire.Close();
            return emitted, Some(e);
          case Pair(message, err) =>
            if err.Some? || message.None? {
              wire.Close();
              wire.Close();
              return emitted, None;
            }
            emitted := emitted + [message.value];
        }
      }
    }

    /** `close()`: closes the main wire, then the watch wire. */
    method Close()
      requires Valid()
      modifies mainWire.tcpWire, watchWire.tcpWire
      ensures Valid()
      ensures mainWire.tcpWire.State() == CloseState(old(mainWire.tcpWire.State()))
      ensures watchWire.tcpWire.State() == CloseState(old(watchWire.tcpWire.State()))
    {
      mainWire.Close();
      watchWire.Close();
    }
  }
}
