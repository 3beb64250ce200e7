# DiceDB Kotlin client: a verified model

This project models the core of the Kotlin client for DiceDB. It covers four
layers, each stated in Dafny and proved against its own specification:

- **Transport**: `TCPWire` sends length-prefixed frames over one socket. It
  retries and backs off on reads and writes, and moves one way from OPEN to
  CLOSED.
- **Codec**: `ProtobufTCPWire` puts the protobuf codec on top of the wire.
- **Commands**: each `Command` is encoded by `toProto()` into an operation name
  and ordered arguments, and declares the response class it expects.
- **Client and Retrier**: the `Client` fires commands on its main wire under a
  `Retrier`. It also runs a watch flow on a second wire. The constructor sends
  the handshake.

The modules follow the program's structure:

| module | file | what it holds |
|---|---|---|
| `Base` | `base.dfy` | nullable values (`Option`), bytes, Kotlin `Int`/`Long` ranges |
| `Decimal` | `decimal.dfy` | `Int.toString()` / `Long.toString()` and the parser that inverts it |
| `Framing` | `framing.dfy` | the 4-byte big-endian two's-complement length prefix (`ByteBuffer.putInt`/`getInt`) and the frame `prefix ++ payload` |
| `Sockets` | `sockets.dfy` | the socket as an oracle, and pure specifications of the loops `TCPWire` runs: `InputStream.read`, `readFully`, the `repeat(5)` read loops and the resilient `write` loop |
| `Transport` | `transport.dfy` | class `TCPWire` with imperative methods over arrays, proved against the pure state functions `SendState`, `ReceiveState` and `CloseState` |
| `Proto` | `proto.dfy` | `ProtoCommand`, the `Response` payload classes and the `Result` envelope with one slot per class |
| `Commands` | `commands.dfy` | the `Command` datatype, `ToProto`, and a parser `FromProto` that is its partner: every encoding parses back to the command |
| `Retry` | `retry.dfy` | `Retrier` and its `Run` loop, proved against the pure `RunSpec` |
| `Codec` | `codec.dfy` | class `ProtobufTCPWire`, with the encoder and decoder as function parameters |
| `DiceClient` | `client.dfy` | class `Client`: `Fire`, `WatchFlow`, `Close` and the handshake constructor, proved against `FireSpec` and `WatchSpec` |

The socket is an oracle: a sequence of read events and a sequence of write
events. A read event either delivers a chunk of bytes or throws an
`IOException`, which has a class and a message. Running out of read events is
the end of the stream, so `read` returns -1. Running out of write events
throws "Socket closed". Sleeps are recorded as the delays, in milliseconds,
that would have been slept.

Three behaviours of the code are modelled as written:

- `ZPopMax`, `ZPopMin` and `HSet` leave their key out of the request.
- `ZCount` declares `ZCARDRes` and `HGetAllWatch` declares `HGETWATCHRes`, so
  `fire` reads those slots.
- A retried `readFully` restarts at offset 0, so bytes taken by a failed
  attempt are lost.

Lemmas state each of these outright.

## Model

| member | source | states |
|---|---|---|
| `Framing.EncodeInt32` | src/main/kotlin/dicedb/core/service/TCPWire.kt:72-75 | `ByteBuffer.putInt` yields exactly the 4 bytes of the prefix |
| `Framing.DecodeEncode` | src/main/kotlin/dicedb/core/service/TCPWire.kt:72-86 | reading the prefix with `ByteBuffer.getInt` returns every `Int` that `putInt` wrote, negative ones included |
| `Framing.EncodeDecode` | src/main/kotlin/dicedb/core/service/TCPWire.kt:72-86 | every 4 bytes are the encoding of the `Int` they decode to, so the prefix codec is a bijection |
| `Framing.Frame` | src/main/kotlin/dicedb/core/service/TCPWire.kt:38-41 | the frame is 4 + size bytes; its tail is the message and its prefix decodes to the message size |
| `Framing.FramePrefixBigEndian` | src/main/kotlin/dicedb/core/service/TCPWire.kt:72-75 | the prefix holds the size as an unsigned big-endian number |
| `Decimal.ParseNatToString` | src/main/kotlin/dicedb/core/domain/Command.kt:51-54 | the decimal digits of any natural number parse back to it |
| `Decimal.ParseIntToString` | src/main/kotlin/dicedb/core/domain/Command.kt:51-54 | the decimal rendering of any integer parses back to that integer |
| `Sockets.ReadStep` | src/main/kotlin/dicedb/core/service/TCPWire.kt:187 | `read` returns -1 exactly at end of stream; otherwise it delivers at most `len` bytes or throws the next exception, and always makes progress |
| `Sockets.ReadStepDelivers` | src/main/kotlin/dicedb/core/service/TCPWire.kt:187 | the bytes a `read` delivers are the next bytes of the stream, and the stream's trailing exception is untouched |
| `Sockets.ReadFullyDelivers` | src/main/kotlin/dicedb/core/service/TCPWire.kt:184-191 | `readFully` succeeds iff the stream delivers enough bytes before its next exception or end; the buffer then holds exactly those bytes, and the stream goes on just after them |
| `Sockets.ReadFullyRaises` | src/main/kotlin/dicedb/core/service/TCPWire.kt:184-191 | a failing `readFully` throws the stream's next exception, or the EOF exception "Unexpected EOF while reading stream" at end of stream |
| `Sockets.BackoffsAt` | src/main/kotlin/dicedb/core/service/TCPWire.kt:89-91 | the i-th backoff delay is `delay * 2^i` |
| `Sockets.ReadAttempts` | src/main/kotlin/dicedb/core/service/TCPWire.kt:83-95 | the `repeat(5)` loop calls `readFully` at most `left` times; when every call fails, it used all of them and remembers the last exception |
| `Sockets.SucceededAttempt` | src/main/kotlin/dicedb/core/service/TCPWire.kt:84-86 | a successful `readFully` ends the read loop with its buffer, consuming nothing more and sleeping no more |
| `Sockets.FailedAttempt` | src/main/kotlin/dicedb/core/service/TCPWire.kt:87-93 | a failed `readFully` leaves the rest of the loop to the remaining attempts, after sleeping only for a backoff error, with the delay doubled |
| `Sockets.NoAttemptLeft` | src/main/kotlin/dicedb/core/service/TCPWire.kt:83-95 | with no attempt left the loop fails with the buffer, stream and last exception as they are |
| `Sockets.ReadAttemptsBackoffs` | src/main/kotlin/dicedb/core/service/TCPWire.kt:89-91 | the read loops sleep 5, 10, 20, … ms, once per backoff failure, and never after the final success |
| `Sockets.FirstAttemptReads` | src/main/kotlin/dicedb/core/service/TCPWire.kt:83-86 | when the stream already holds enough bytes, the first attempt fills the buffer with them and nothing is slept |
| `Sockets.CatchWriteError` | src/main/kotlin/dicedb/core/service/TCPWire.kt:155-177 | the `catch` block never reports success; it sleeps only while fewer than five backoffs were made and retries at once only while fewer than ten plain retries were made |
| `Sockets.WriteStep` | src/main/kotlin/dicedb/core/service/TCPWire.kt:149-179 | one iteration of the write loop either ends the loop with its verdict or hands the rest to the next iteration with the updated counters and delay |
| `Sockets.WriteLoopBounds` | src/main/kotlin/dicedb/core/service/TCPWire.kt:141-177 | the write loop makes at least one and at most 16 attempts, and at most five sleeps |
| `Sockets.WriteLoopBackoffs` | src/main/kotlin/dicedb/core/service/TCPWire.kt:161-168 | the write loop's sleeps are 5, 10, 20, … ms |
| `Sockets.WriteLoopAllTimeouts` | src/main/kotlin/dicedb/core/service/TCPWire.kt:161-165 | against a socket that only times out, the write gives up with "max backoff retries" on the sixth attempt, after sleeping 5, 10, 20, 40 and 80 ms |
| `Sockets.WriteLoopAllFailures` | src/main/kotlin/dicedb/core/service/TCPWire.kt:171-174 | against a socket that only fails with other errors, the write gives up with "max partial write retries" on the eleventh attempt, without sleeping |
| `Sockets.WriteLoopFlushedIff` | src/main/kotlin/dicedb/core/service/TCPWire.kt:149-181 | the write succeeds exactly when its last attempt is a successful write and flush and every attempt before it failed |
| `Transport.CloseIdempotent` | src/main/kotlin/dicedb/core/service/TCPWire.kt:62-70 | `close` leaves the wire CLOSED, closes the socket once if the wire was OPEN and never otherwise, and a second `close` changes nothing |
| `Transport.OperationsKeepLifecycle` | src/main/kotlin/dicedb/core/service/TCPWire.kt:33-60 | `send` and `receive` keep the lifecycle one-way; on a closed wire `send` returns "trying to use closed wire" and changes nothing, and `receive` neither reopens it nor closes the socket again |
| `Transport.SendErrorsClose` | src/main/kotlin/dicedb/core/service/TCPWire.kt:140-182 | every `send` error is TERMINATED and leaves the wire CLOSED |
| `Transport.ReceiveErrorsClose` | src/main/kotlin/dicedb/core/service/TCPWire.kt:46-138 | every `receive` error other than EMPTY, returned or thrown, leaves the wire CLOSED |
| `Transport.ReceiveConsumes` | src/main/kotlin/dicedb/core/service/TCPWire.kt:46-60 | `receive` never consumes more than the stream holds, and a returned payload always consumes some of it, so the watch loop makes progress |
| `Transport.ReceiveFrame` | src/main/kotlin/dicedb/core/service/TCPWire.kt:46-60 | a stream holding the frame of a payload of accepted size makes `receive` return that payload, with no error, no close and no sleep, and consume exactly the frame |
| `Transport.ReceiveRejectsSize` | src/main/kotlin/dicedb/core/service/TCPWire.kt:49-57 | a prefix that is not positive or exceeds `maxMsgSize` closes the wire and returns a null payload with CORRUPT_MESSAGE, after consuming only the prefix |
| `Transport.AttemptsAtEnd` | src/main/kotlin/dicedb/core/service/TCPWire.kt:83-95 | at end of stream every read attempt fails with the EOF exception |
| `Transport.ReceiveAtEnd` | src/main/kotlin/dicedb/core/service/TCPWire.kt:77-104 | a stream that ends before a full prefix makes `receive` throw EMPTY without closing the wire |
| `Transport.PrefixNeverNull` | src/main/kotlin/dicedb/core/service/TCPWire.kt:47 | `readPrefix` never returns null: the "failed to read prefix" branch of `receive` is unreachable |
| `Transport.PrefixGivesUp` | src/main/kotlin/dicedb/core/service/TCPWire.kt:97-114 | after five failed attempts `readPrefix` throws EMPTY on a final EOF and leaves the wire open; on any other final error it closes the wire and throws TERMINATED |
| `Transport.MessageGivesUp` | src/main/kotlin/dicedb/core/service/TCPWire.kt:134-137 | after five failed attempts `readMessage` marks the wire CLOSED without closing the socket and returns the buffer with TERMINATED |
| `Transport.ArrayCopy` | src/main/kotlin/dicedb/core/service/TCPWire.kt:41 | `System.arraycopy` overwrites exactly the target range of the array |
| `Transport.TCPWire.constructor` | src/main/kotlin/dicedb/core/service/TCPWire.kt:23-31 | a new wire is OPEN, has written nothing, slept nothing and closed no socket |
| `Transport.TCPWire.Close` | src/main/kotlin/dicedb/core/service/TCPWire.kt:62-70 | the compare-and-set closes the socket only on the OPEN to CLOSED transition |
| `Transport.TCPWire.Send` | src/main/kotlin/dicedb/core/service/TCPWire.kt:33-44 | `send` behaves as `SendState`: the closed check, then the frame written by `write` |
| `Transport.TCPWire.WritePrefix` | src/main/kotlin/dicedb/core/service/TCPWire.kt:72-75 | the buffer's first 4 bytes become the encoded size; the rest is unchanged |
| `Transport.TCPWire.Write` | src/main/kotlin/dicedb/core/service/TCPWire.kt:140-182 | `write` behaves as `WriteState`: the write loop's verdict, the bytes logged only on success, and the wire marked CLOSED on every give-up |
| `Transport.TCPWire.WriteAttempts` | src/main/kotlin/dicedb/core/service/TCPWire.kt:149-179 | the `while` loop with its two retry counters computes the verdict, the events left and the sleeps of `WriteLoop` |
| `Transport.TCPWire.Read` | src/main/kotlin/dicedb/core/service/TCPWire.kt:187 | `read(buffer, off, len)` copies what `ReadStep` delivers into the buffer at `off` |
| `Transport.TCPWire.ReadFully` | src/main/kotlin/dicedb/core/service/TCPWire.kt:184-191 | the `readFully` loop over the array computes the buffer, the rest of the stream and the exception of `ReadFullyFrom` |
| `Transport.TCPWire.HandleFatalReadError` | src/main/kotlin/dicedb/core/service/TCPWire.kt:101-114 | no exception does nothing; EOF throws EMPTY and leaves the wire as it is; any other exception closes the wire and throws TERMINATED |
| `Transport.TCPWire.RetryRead` | src/main/kotlin/dicedb/core/service/TCPWire.kt:83-95 | the `repeat(5)` loop over the array computes the outcome, buffer, stream, last exception and sleeps of `ReadAttempts` |
| `Transport.TCPWire.ReadPrefix` | src/main/kotlin/dicedb/core/service/TCPWire.kt:77-99 | `readPrefix` behaves as `PrefixState`: the decoded size, or the fatal-error handling of the last exception |
| `Transport.TCPWire.ReadMessage` | src/main/kotlin/dicedb/core/service/TCPWire.kt:116-138 | `readMessage` behaves as `MessageState`: the buffer, or the buffer with TERMINATED and the wire marked CLOSED |
| `Transport.TCPWire.Receive` | src/main/kotlin/dicedb/core/service/TCPWire.kt:46-60 | `receive` behaves as `ReceiveState`: the prefix, the size checks, then the message |
| `Proto.SlotFor` | src/main/kotlin/dicedb/client/Client.kt:53-93 | the slot read for a class is present iff the envelope carries it, and holds a payload of that class |
| `Commands.ParseLongStr` | src/main/kotlin/dicedb/core/domain/Command.kt:51-54 | `Long.toString()` of any `Long` parses back to it |
| `Commands.ParseIntStr` | src/main/kotlin/dicedb/core/domain/Command.kt:194-196 | `Int.toString()` of any `Int` parses back to it |
| `Commands.DistinctElements` | src/main/kotlin/dicedb/core/domain/Command.kt:193 | `flags.toSet()` has no repeated flag and holds exactly the flags given |
| `Commands.DistinctOrder` | src/main/kotlin/dicedb/core/domain/Command.kt:193 | the distinct flags come in first-occurrence order |
| `Commands.DistinctIdempotent` | src/main/kotlin/dicedb/core/domain/Command.kt:193 | removing duplicates twice is removing them once |
| `Commands.DistinctOfDistinct` | src/main/kotlin/dicedb/core/domain/Command.kt:193 | a flag list without repetitions is kept as it is |
| `Commands.PairArgsLength` | src/main/kotlin/dicedb/core/domain/Command.kt:194-197 | each score-member pair adds two arguments |
| `Commands.ZAddArgCount` | src/main/kotlin/dicedb/core/domain/Command.kt:184-199 | `ZADD` has 1 + distinct flags + 2·pairs arguments |
| `Commands.ParsePairsArgs` | src/main/kotlin/dicedb/core/domain/Command.kt:194-197 | the score, member arguments parse back to the pairs, in list order |
| `Commands.ParseAddFlagName` | src/main/kotlin/dicedb/core/domain/Command.kt:12-17 | each `AddFlag` name parses back to that flag |
| `Commands.ParseFlagsNames` | src/main/kotlin/dicedb/core/domain/Command.kt:193-197 | the flag names are read back up to the first score, which no flag name can be mistaken for |
| `Commands.ParseSetFlagName` | src/main/kotlin/dicedb/core/domain/Command.kt:19-22 | each `SetFlag` name parses back to that flag |
| `Commands.ParseExpireTypeName` | src/main/kotlin/dicedb/core/domain/Command.kt:24-29 | each `ExpireType` name parses back to that type and is not a `SetFlag` name |
| `Commands.ParseExpireArgs` | src/main/kotlin/dicedb/core/domain/Command.kt:163-166 | the expiry arguments parse back to the type and time when both were given, and to nothing otherwise |
| `Commands.SetOptionsParse` | src/main/kotlin/dicedb/core/domain/Command.kt:161-168 | for any flag, expiry and `keepTtl`, the options `SET` sends read back as the flag, the expiry only when both of its parts are given, and `keepTtl` |
| `Commands.SetOptionsRoundTrip` | src/main/kotlin/dicedb/core/domain/Command.kt:161-168 | the options of `SET` after key and value parse back to the flag, the expiry (when both parts are given) and `keepTtl` |
| `Commands.SetRoundTrip` | src/main/kotlin/dicedb/core/domain/Command.kt:150-170 | the encoding of `Set` parses back to the command, up to an expiry given in part |
| `Commands.GetExRoundTrip` | src/main/kotlin/dicedb/core/domain/Command.kt:90-101 | the encoding of `GetEx` parses back to the command, up to an expiry given in part |
| `Commands.ZAddArgsRoundTrip` | src/main/kotlin/dicedb/core/domain/Command.kt:189-199 | key, distinct flag names and pair arguments parse back to the `ZAdd` |
| `Commands.ZAddRoundTrip` | src/main/kotlin/dicedb/core/domain/Command.kt:184-200 | the encoding of `ZAdd` parses back to it, with its flags made distinct |
| `Commands.RangeRoundTrip` | src/main/kotlin/dicedb/core/domain/Command.kt:242-247 | key, start, stop and the optional "BYSCORE" parse back to the range and its mode |
| `Commands.CountRoundTrip` | src/main/kotlin/dicedb/core/domain/Command.kt:224 | the optional count argument parses back to the count |
| `Commands.RoundTripPart1` | src/main/kotlin/dicedb/core/domain/Command.kt:38-49 | `Get`, `Handshake` and `Decr` parse back from their encodings |
| `Commands.RoundTripPart2` | src/main/kotlin/dicedb/core/domain/Command.kt:51-62 | `DecrBy`, `Del` and `Echo` parse back from their encodings |
| `Commands.RoundTripPart3` | src/main/kotlin/dicedb/core/domain/Command.kt:64-76 | `Exists`, `Expire` and `ExpireAt` parse back from their encodings |
| `Commands.RoundTripPart4` | src/main/kotlin/dicedb/core/domain/Command.kt:78-88 | `ExpireTime`, `FlushDb` and `GetDel` parse back from their encodings |
| `Commands.RoundTripPart5` | src/main/kotlin/dicedb/core/domain/Command.kt:90-110 | `GetEx`, `GetSet` and `GetWatch` parse back from their encodings |
| `Commands.RoundTripPart6` | src/main/kotlin/dicedb/core/domain/Command.kt:112-122 | `HGet`, `HGetAll` and `HGetAllWatch` parse back from their encodings |
| `Commands.RoundTripPart7` | src/main/kotlin/dicedb/core/domain/Command.kt:124-134 | `HGetWatch`, `HSet` (without its key) and `Incr` parse back from their encodings |
| `Commands.RoundTripPart8` | src/main/kotlin/dicedb/core/domain/Command.kt:136-148 | `IncrBy`, `Keys` and `Ping`, with or without a message, parse back from their encodings |
| `Commands.RoundTripPart9` | src/main/kotlin/dicedb/core/domain/Command.kt:150-178 | `Set`, `Ttl` and `Type` parse back from their encodings |
| `Commands.RoundTripPart10` | src/main/kotlin/dicedb/core/domain/Command.kt:180-204 | `Unwatch`, `ZAdd` and `ZCard` parse back from their encodings |
| `Commands.RoundTripPart11` | src/main/kotlin/dicedb/core/domain/Command.kt:206-218 | `ZCardWatch`, `ZCount` and `ZCountWatch` parse back from their encodings |
| `Commands.RoundTripPart12` | src/main/kotlin/dicedb/core/domain/Command.kt:220-234 | `ZPopMax` and `ZPopMin` parse back from their encodings, without their key |
| `Commands.RoundTripPart13` | src/main/kotlin/dicedb/core/domain/Command.kt:236-261 | `ZRange` and `ZRangeWatch` parse back from their encodings, mode included |
| `Commands.RoundTripPart14` | src/main/kotlin/dicedb/core/domain/Command.kt:263-269 | `ZRank` and `ZRankWatch` parse back from their encodings |
| `Commands.RoundTripPart15` | src/main/kotlin/dicedb/core/domain/Command.kt:271-273 | `ZRem` parses back from `[key] ++ members` |
| `Commands.RoundTrip` | src/main/kotlin/dicedb/core/domain/Command.kt:6-274 | every command's encoding parses back to the command, except for what the encoding drops: the key of `HSet`, `ZPopMax` and `ZPopMin`, repeated `ZAdd` flags, and an expiry given in part |
| `Commands.CanonicalSameProto` | src/main/kotlin/dicedb/core/domain/Command.kt:36 | what the encoding drops does not change the request |
| `Commands.SameProtoIff` | src/main/kotlin/dicedb/core/domain/Command.kt:6-274 | two commands make the same request iff they agree on everything the encoding keeps |
| `Commands.PopMaxRequestKeyless` | src/main/kotlin/dicedb/core/domain/Command.kt:220-226 | `ZPOPMAX` carries only the optional count, so pops on different keys are the same request |
| `Commands.PopMinRequestKeyless` | src/main/kotlin/dicedb/core/domain/Command.kt:228-234 | `ZPOPMIN` carries only the optional count, so pops on different keys are the same request |
| `Commands.HSetRequestKeyless` | src/main/kotlin/dicedb/core/domain/Command.kt:128-130 | `HSET` carries the fields alone, so its key does not reach the request |
| `Commands.SetLayout` | src/main/kotlin/dicedb/core/domain/Command.kt:158-169 | `SET` sends key and value first, then the flag name, then type and time only when both are given, and `KEEPTTL` last exactly when asked for |
| `Retry.DefaultRetrier` | src/main/kotlin/dicedb/core/domain/Retrier.kt:16-24 | the defaults are 3 attempts, 500 ms and a predicate that retries everything |
| `Retry.RetriedStep` | src/main/kotlin/dicedb/core/domain/Retrier.kt:39-44 | a failure the predicate accepts, before the last attempt, costs one delay and passes the run on to the next attempt |
| `Retry.FinalStep` | src/main/kotlin/dicedb/core/domain/Retrier.kt:37-41 | any other outcome ends the run there: a value is returned, and a cancellation or an error is rethrown |
| `Retry.Turn` | src/main/kotlin/dicedb/core/domain/Retrier.kt:36-45 | one iteration of the `for` loop either ends the whole run with that attempt's outcome or continues it with one more delay |
| `Retry.Run` | src/main/kotlin/dicedb/core/domain/Retrier.kt:33-48 | the `for` loop computes the outcome, the number of calls and the delays of `RunSpec`, and never reaches the "Unreachable" error |
| `Retry.RunFromCalls` | src/main/kotlin/dicedb/core/domain/Retrier.kt:36-45 | from any attempt, the run calls the block 1 to the remaining times; every call but the last failed with a retried error; one delay separates consecutive calls; the last call decides the outcome |
| `Retry.RunCalls` | src/main/kotlin/dicedb/core/domain/Retrier.kt:33-47 | the block runs at most `maxAttempts` times, with exactly one delay between consecutive calls and none after the last, and an error ends the run only when it is rejected or the attempts are used up |
| `Retry.RequireFirst` | src/main/kotlin/dicedb/core/domain/Retrier.kt:34 | with `maxAttempts` ≤ 0 the `require` fails before the block is ever called |
| `Retry.FirstSuccessReturned` | src/main/kotlin/dicedb/core/domain/Retrier.kt:37-38 | the first success is returned, with no further call |
| `Retry.CancellationFirst` | src/main/kotlin/dicedb/core/domain/Retrier.kt:40 | a cancellation is rethrown at once, whatever the predicate says |
| `Retry.RejectedErrorThrown` | src/main/kotlin/dicedb/core/domain/Retrier.kt:41 | an error the predicate rejects is rethrown at the attempt where it occurred |
| `Retry.AlwaysFailing` | src/main/kotlin/dicedb/core/domain/Retrier.kt:36-41 | with an always-true predicate and an always-failing block, the block runs exactly `maxAttempts` times and the last error is thrown |
| `Codec.CodecFailureCloses` | src/main/kotlin/dicedb/core/service/ProtobufTCPWire.kt:14-35 | a command that cannot be encoded is reported as CORRUPT_MESSAGE with nothing written; a payload that cannot be decoded is reported as CORRUPT_MESSAGE on a closed wire |
| `Codec.CodecSendErrorsClose` | src/main/kotlin/dicedb/core/service/ProtobufTCPWire.kt:14-22 | every `send` error, from the wire or the codec, is not EMPTY and leaves the wire CLOSED |
| `Codec.CodecReceiveErrorsClose` | src/main/kotlin/dicedb/core/service/ProtobufTCPWire.kt:24-35 | every `receive` error other than EMPTY leaves the wire CLOSED, and a message always comes without an error |
| `Codec.ReceiveDecodesFrame` | src/main/kotlin/dicedb/core/service/ProtobufTCPWire.kt:24-30 | the frame of a decodable payload is received as its message, consuming exactly the frame and leaving the lifecycle alone |
| `Codec.ClosedWireRefusesSend` | src/main/kotlin/dicedb/core/service/ProtobufTCPWire.kt:14-22 | on a closed wire, `send` returns TERMINATED "trying to use closed wire" for every encoding, whatever its size, and CORRUPT_MESSAGE only when the encoder throws; the wire is left as it was |
| `Codec.ProtobufTCPWire.constructor` | src/main/kotlin/dicedb/core/service/ProtobufTCPWire.kt:11-12 | the protobuf wire owns a new open `TCPWire` over the socket |
| `Codec.ProtobufTCPWire.Send` | src/main/kotlin/dicedb/core/service/ProtobufTCPWire.kt:14-22 | `send` behaves as `CodecSendState`: encode, then the wire's closed check, then the framed send; an encoder exception, or an oversize encoding on an open wire, closes the wire with CORRUPT_MESSAGE |
| `Codec.ProtobufTCPWire.Receive` | src/main/kotlin/dicedb/core/service/ProtobufTCPWire.kt:24-35 | `receive` behaves as `CodecReceiveState`: receive, then decode |
| `Codec.ProtobufTCPWire.Unpack` | src/main/kotlin/dicedb/core/service/ProtobufTCPWire.kt:26-35 | an error or a null buffer is passed on; otherwise the buffer is decoded, and a decoding exception closes the wire |
| `Codec.ProtobufTCPWire.Close` | src/main/kotlin/dicedb/core/service/ProtobufTCPWire.kt:37 | closing the protobuf wire closes its `TCPWire` |
| `DiceClient.ClientRetrier` | src/main/kotlin/dicedb/client/Client.kt:28-33 | the client's retrier takes attempts and delay from the config and retries exactly the `WireError`s of kind TERMINATED |
| `DiceClient.DefaultClientRetrier` | src/main/kotlin/dicedb/client/ClientConfig.kt:6-10 | the default config is 32 MiB, 5000 ms and 3 attempts |
| `DiceClient.ClassifyOk` | src/main/kotlin/dicedb/client/Client.kt:47-96 | an attempt returns a payload iff the reply has no error, is not null, is not ERR and has the requested slot; that slot's payload, of the requested class, is what it returns |
| `DiceClient.ClassifyRetryable` | src/main/kotlin/dicedb/client/Client.kt:28-51 | an attempt fails with a retried error iff the wire or codec reported a TERMINATED error; "Command failed" and a null slot are never retried |
| `DiceClient.SendErrorSkipsReceive` | src/main/kotlin/dicedb/client/Client.kt:46 | a `send` error is thrown as the attempt's failure, and nothing is read from the socket |
| `DiceClient.ZCountReadsZCardSlot` | src/main/kotlin/dicedb/core/domain/Command.kt:210-213 | `ZCount` declares `ZCARDRes`, so a reply that carries only the zcount slot fails as a mismatch |
| `DiceClient.HGetAllWatchReadsHGetWatchSlot` | src/main/kotlin/dicedb/core/domain/Command.kt:120-122 | `HGetAllWatch` declares `HGETWATCHRes`, so a reply that carries only the hgetall-watch slot fails as a mismatch |
| `DiceClient.ClosedAttemptFails` | src/main/kotlin/dicedb/client/Client.kt:46 | on a closed main wire an attempt fails with "trying to use closed wire" whenever the command encodes, whatever its size, or with CORRUPT_MESSAGE when the encoder throws, and changes nothing |
| `DiceClient.ClosedRunFails` | src/main/kotlin/dicedb/client/Client.kt:43-97 | `fire` on a closed main wire retries the closed-wire error until every attempt is used, whatever the encoding's size, and stops after one attempt only when the encoder throws; the wire is unchanged |
| `DiceClient.RetriedAttemptCloses` | src/main/kotlin/dicedb/client/Client.kt:28-51 | every failure the retrier retries has left the main wire CLOSED |
| `DiceClient.NoRecoveryAfterRetry` | src/main/kotlin/dicedb/client/Client.kt:43-97 | once `fire` retries it cannot succeed: it uses every attempt and throws "trying to use closed wire" on a closed wire |
| `DiceClient.FireReturnsRequestedClass` | src/main/kotlin/dicedb/client/Client.kt:53-96 | a payload `fire` returns comes from its first attempt and is of the requested class |
| `DiceClient.FireReturnsDeclaredClass` | src/main/kotlin/dicedb/client/Client.kt:43-97 | `fire(c)` returns only payloads of the class `c` declares |
| `DiceClient.WatchLoopStep` | src/main/kotlin/dicedb/client/Client.kt:103-111 | one receive of the watch loop: a thrown error ends the flow with that error; an error or null closes the wire and ends the flow; a message is emitted before the rest of the loop |
| `DiceClient.WatchTurn` | src/main/kotlin/dicedb/client/Client.kt:103-111 | the same step, stated after the messages already emitted, as the loop in `Collect` needs it |
| `DiceClient.WatchLoopCloses` | src/main/kotlin/dicedb/client/Client.kt:103-113 | however the loop ends, the watch wire ends CLOSED |
| `DiceClient.WatchCloses` | src/main/kotlin/dicedb/client/Client.kt:100-113 | however the flow ends, the watch wire ends CLOSED |
| `DiceClient.WatchSendFails` | src/main/kotlin/dicedb/client/Client.kt:102 | a `send` error on the watch wire is thrown before anything is read or emitted |
| `DiceClient.WatchLoopEmitsFrame` | src/main/kotlin/dicedb/client/Client.kt:104-110 | the frame of a decodable payload makes the loop emit its message first and go on right after the frame |
| `DiceClient.WatchLoopEmitsFrames` | src/main/kotlin/dicedb/client/Client.kt:103-111 | a stream of frames of decodable payloads, then end of stream, is emitted in order, and the flow then ends with EMPTY from the EOF |
| `DiceClient.Client.constructor` | src/main/kotlin/dicedb/client/Client.kt:20-41 | a new client opens its two wires and fires the handshake with its id on the main wire |
| `DiceClient.Client.Exchange` | src/main/kotlin/dicedb/client/Client.kt:46-96 | one attempt's send, receive and classification on the main wire behaves as `FireAttempt` |
| `DiceClient.Client.Fire` | src/main/kotlin/dicedb/client/Client.kt:43-97 | `fire` behaves as `FireSpec`: its outcome, the main wire's state, and the retry delays waited |
| `DiceClient.Client.Attempts` | src/main/kotlin/dicedb/core/domain/Retrier.kt:36-47 | the retry loop over the main wire behaves as `RunFrom` with the client's block |
| `DiceClient.Client.WatchFlow` | src/main/kotlin/dicedb/client/Client.kt:100-113 | `watchFlow` behaves as `WatchSpec`: the messages emitted, the error thrown and the watch wire's state |
| `DiceClient.Client.Collect` | src/main/kotlin/dicedb/client/Client.kt:103-111 | the `while (true)` receive loop behaves as `WatchLoop` |
| `DiceClient.Client.Close` | src/main/kotlin/dicedb/client/Client.kt:115-118 | `close` closes the main wire and then the watch wire |

## Left out

- Real sockets and time are not part of this model. The socket is an oracle of read and write events. `Thread.sleep` and the retrier's `delay` are recorded as the delays they would wait.
- Concurrency is not modelled: the read and write mutexes, the client's mutex, the `AtomicReference` status and `runBlocking` all run single-threaded, one call at a time.
- The `Flow` of `watchFlow` is collected eagerly, as one call returning the messages emitted. Its laziness and a collector that stops early are not modelled. The `onCompletion` close is modelled as a final close, which is a no-op on a wire that is already closed.
- `println` warnings are left out, both in `close` and in `watchFlow`.
- The protobuf serializer is not part of this model. It is a pair of function parameters, with `None` standing for a serialization exception, whose cause is not kept. On an open wire, an encoding too long to frame is treated as a codec failure, because the frame buffer's size would overflow; a closed wire refuses it first, as it refuses every send.
- Exception causes are reduced to what the code tells apart: the `IOException` class and its message. A `WireError` keeps its kind and, as its cause, the `IOException` or a message.
- The client's retrier is modelled as `Retrier(config.maxAttempts, config.retryDelay, TERMINATED predicate)` run through `Retrier.run`. The client calls `runWithRetry` with `maxRetries` and `retryOn`, and reads `config.maxMsgSize`; these are the names the config and retrier actually declare as `maxAttempts`, `run`, `shouldRetry` and `maxMessageSize`.
- The "Unknown response type" branch of `fire` is left out: the response classes form a closed enumeration, so every class has a slot. The `as? R` cast cannot fail for a slot of the requested class; a null slot is the "Mismatched response type" failure.
- `lastRetryableErr` in `write` is assigned but never read, so it is left out.
- `Response` and `Result` are plain data. The envelope's slots are a map from class to payload, constrained to be well-typed.
- The test suites are not part of this model. They run against a live server.
- `watchWire` is a `var` in the code but is never reassigned, so it is a constant field here.
- `DiceClient.Client.constructor`: the host and port become the two sockets' event oracles. Opening a connection is not modelled, so it cannot fail. A handshake that throws does not escape the constructor, as it does in `init`: its outcome is kept in `initOutcome` and the client is still built, so a caller must check `initOutcome.Returned?` before using it. The sockets that a failed `init` would leave open are not modelled.
- `Transport.TCPWire.Write`: a write attempt is one oracle event that either writes and flushes the whole frame or fails. `output` logs each frame once, when its write succeeds. Bytes that a failed attempt pushed out before its exception are not logged. Neither are the duplicates that the retry, which rewrites the whole buffer from offset 0, can then put on the socket.
