/**
 * `ProtobufTCPWire`: a `TCPWire` that carries protobuf messages. The protobuf
 * encoder and decoder are parameters: `None` stands for a serialization
 * exception. A failure to encode or decode closes the wire and is reported
 * as `CORRUPT_MESSAGE`.
 */
module Codec {
  import opened Base
  import opened Framing
  import opened Sockets
  import opened Transport
  import opened Proto

  /** `ProtoBuf.encodeToByteArray` for commands; `None` when it throws. */
  type Encoder = ProtoCommand -> Option<seq<byte>>

  /** `ProtoBuf.decodeFromByteArray<Result>`; `None` when it throws. */
  type Decoder = seq<byte> -> Option<Envelope>

  /** What `receive<Result>()` does: returns a (message, error) pair, or throws what the wire threw. */
  datatype Decoded = Pair(result: Option<Envelope>, err: Option<WireError>) | Thrown(error: WireError)

  /** The error reported when the codec throws; the exception itself is not modelled. */
  const CodecError: WireError := WireError(CorruptMessage, NoCause)

  /**
   * `send(msg)` on a wire in state `w`. The wire refuses a closed wire before
   * it allocates the frame; on an open wire, an encoding too long to frame
   * makes the frame buffer's size overflow, which is caught like a codec
   * exception.
   */
  function CodecSendState(encode: Encoder, w: WireState, msg: ProtoCommand): (Option<WireError>, WireState) {
    match encode(msg)
    case Some(bytes) =>
      if w.status == Closed then (Some(ClosedWireError), w)
      else if |bytes| <= IntMax - PrefixSize then SendState(w, bytes)
      else (Some(CodecError), CloseState(w))
    case None => (Some(CodecError), CloseState(w))
  }

  /**
   * What `receive<Result>()` makes of the wire's outcome `r`, which left the
   * wire in state `w`: a thrown error, a wire error or a null buffer is passed
   * on; otherwise the buffer is decoded, and a decoding exception closes the wire.
   */
  function DecodeReceived(decode: Decoder, r: Received, w: WireState): (Decoded, WireState) {
    match r
    case Raised(e) => (Thrown(e), w)
    case Returned(data, err) =>
      if err.Some? || data.None? then (Pair(None, err), w)
      else match decode(data.value)
        case Some(message) => (Pair(Some(message), None), w)
        case None => (Pair(None, Some(CodecError)), CloseState(w))
  }

  /** `receive<Result>()` on a wire in state `w`. */
  function CodecReceiveState(decode: Decoder, w: WireState, maxMsgSize: Int32): (Decoded, WireState) {
    var (r, w') := ReceiveState(w, maxMsgSize);
    DecodeReceived(decode, r, w')
  }

  /** The error of a `receive<Result>()` outcome, whether returned or thrown. */
  function DecodedError(d: Decoded): Option<WireError> {
    match d
    case Pair(_, err) => err
    case Thrown(e) => Some(e)
  }

  /**
   * A codec failure closes the wire: a command that cannot be encoded is
   * reported as `CORRUPT_MESSAGE` with nothing written, and a payload that
   * cannot be decoded is reported as `CORRUPT_MESSAGE` on a closed wire.
   */
  lemma CodecFailureCloses(encode: Encoder, decode: Decoder, w: WireState, msg: ProtoCommand, maxMsgSize: Int32)
    ensures encode(msg).None? ==>
      var (err, w') := CodecSendState(encode, w, msg);
      err == Some(CodecError) && w'.status == Closed && w'.output == w.output && w'.writes == w.writes
    ensures var (r, w') := ReceiveState(w, maxMsgSize);
      r.Returned? && r.err.None? && r.data.Some? && decode(r.data.value).None? ==>
      CodecReceiveState(decode, w, maxMsgSize) == (Pair(None, Some(CodecError)), CloseState(w'))
      && CloseState(w').status == Closed
  {
  }

  /** A `send` error, from the wire or from the codec, is never `EMPTY` and leaves the wire closed. */
  lemma CodecSendErrorsClose(encode: Encoder, w: WireState, msg: ProtoCommand)
    ensures var (err, w') := CodecSendState(encode, w, msg);
      err.Some? ==> err.value.kind != Empty && w'.status == Closed
  {
    if encode(msg).Some? && w.status == Open && |encode(msg).value| <= IntMax - PrefixSize {
      SendErrorsClose(w, encode(msg).value);
    }
  }

  /**
   * A closed wire refuses every `send` that gets past the encoder with
   * "trying to use closed wire", whatever the size of the encoding, and an
   * encoder exception is reported as `CORRUPT_MESSAGE`; either way the wire
   * is left as it was.
   */
  lemma ClosedWireRefusesSend(encode: Encoder, w: WireState, msg: ProtoCommand)
    requires w.status == Closed
    ensures CodecSendState(encode, w, msg) == (Some(if encode(msg).Some? then ClosedWireError else CodecError), w)
  {
  }

  /**
   * Every `receive` error other than `EMPTY`, from the wire or from the codec,
   * leaves the wire closed; a message is only ever returned without an error.
   */
  lemma CodecReceiveErrorsClose(decode: Decoder, w: WireState, maxMsgSize: Int32)
    ensures var (d, w') := CodecReceiveState(decode, w, maxMsgSize);
      && (DecodedError(d).Some? && DecodedError(d).value.kind != Empty ==> w'.status == Closed)
      && (d.Pair? && d.result.Some? ==> d.err.None?)
  {
    ReceiveErrorsClose(w, maxMsgSize);
  }

  /**
   * Round trip through the wire and the codec: a stream that delivers the frame
   * of an accepted payload which decodes to `message` makes `receive` return
   * `message` without an error or a close, and leaves the stream just after
   * the frame.
   */
  lemma ReceiveDecodesFrame(decode: Decoder, w: WireState, maxMsgSize: Int32, bytes: Payload, message: Envelope)
    requires 0 < |bytes| <= maxMsgSize && decode(bytes) == Some(message)
    requires |Frame(bytes)| <= |Delivered(w.input)| && Delivered(w.input)[..|Frame(bytes)|] == Frame(bytes)
    ensures var (d, w') := CodecReceiveState(decode, w, maxMsgSize);
      && d == Pair(Some(message), None)
      && w'.status == w.status && w'.socketCloses == w.socketCloses && w'.sleeps == w.sleeps
      && Delivered(w'.input) == Delivered(w.input)[|Frame(bytes)|..] && Trailing(w'.input) == Trailing(w.input)
  {
    ReceiveFrame(w.input, maxMsgSize, bytes);
  }

  /** `ProtobufTCPWire(maxMsgSize, socket)`. */
  class ProtobufTCPWire {
    const tcpWire: TCPWire
    const encode: Encoder
    const decode: Decoder

    ghost predicate Valid()
      reads this, tcpWire
    {
      tcpWire.Valid()
    }

    constructor (maxMsgSize: Int32, input: seq<ReadEvent>, writes: seq<WriteEvent>, encode: Encoder, decode: Decoder)
      ensures Valid() && fresh(tcpWire)
      ensures tcpWire.State() == WireState(Open, input, writes, [], 0, []) && tcpWire.maxMsgSize == maxMsgSize
      ensures this.encode == encode && this.decode == decode
    {
      tcpWire := new TCPWire(maxMsgSize, input, writes);
      this.encode := encode;
      this.decode := decode;
    }

    /** `send(msg)`: encode, then send the bytes; a codec exception closes the wire. */
    method Send(msg: ProtoCommand) returns (err: Option<WireError>)
      requires Valid()
      modifies tcpWire
      ensures Valid()
      ensures (err, tcpWire.State()) == CodecSendState(encode, old(tcpWire.State()), msg)
    {
      var bytes := encode(msg);
      if bytes.None? {
        tcpWire.Close();
        return Some(CodecError);
      }
      if |bytes.value| > IntMax - PrefixSize {
        // `TCPWire.send` refuses a closed wire before it sizes the frame.
        if tcpWire.status == Closed {
          return Some(ClosedWireError);
        }
        tcpWire.Close();
        return Some(CodecError);
      }
      err := tcpWire.Send(bytes.value);
    }

    /** `receive<Result>()`: receive a buffer from the wire, then decode it. */
    method Receive() returns (d: Decoded)
      requires Valid()
      modifies tcpWire
      ensures Valid()
      ensures (d, tcpWire.State()) == CodecReceiveState(decode, old(tcpWire.State()), tcpWire.maxMsgSize)
    {
      var r := tcpWire.Receive();
      d := Unpack(r);
    }

    /** The rest of `receive<Result>()`: a wire error or a null buffer is passed on; a decoding exception closes the wire. */
    method Unpack(r: Received) returns (d: Decoded)
      requires Valid()
      modifies tcpWire
      ensures Valid()
      ensures (d, tcpWire.State()) == DecodeReceived(decode, r, old(tcpWire.State()))
    {
      match r {
        case Raised(e) =>
          return Thrown(e);
        case Returned(buffer, err) =>
          if err.Some? || buffer.None? {
            return Pair(None, err);
          }
          var message := decode(buffer.value);
          if message.None? {
            tcpWire.Close();
            return Pair(None, Some(CodecError));
          }
          d := Pair(message, None);
      }
    }

    /** `close()`. */
    method Close()
      requires Valid()
      modifies tcpWire
      ensures Valid()
      ensures tcpWire.State() == CloseState(old(tcpWire.State()))
    {
      tcpWire.Close();
    }
  }
}
