/**
 * The messages exchanged with the server: the `Command` message a request is
 * encoded into, the typed response payloads, and the `Result` envelope that
 * carries one of them.
 */
module Proto {
  import opened Base

  /** `ProtoCommand(cmd, args)`: an operation name and its ordered string arguments. */
  datatype ProtoCommand = ProtoCommand(cmd: string, args: seq<string>)

  /** The status of a `Result`. */
  datatype Status = OK | ERR

  /** `ZElement(score, member, rank)`. */
  datatype ZElement = ZElement(score: Option<Int64>, member: string, rank: Int64)

  /** `HElement(key, value)`. */
  datatype HElement = HElement(key: string, value: string)

  /** The subclasses of `Response`: the types a caller can ask `fire` for. */
  datatype ResponseKind =
    | TYPE | PING | ECHO | HANDSHAKE | EXISTS | GET | SET | DEL | KEYS | GETDEL
    | GETEX | GETSET | INCR | DECR | INCRBY | DECRBY | FLUSHDB | EXPIRE | EXPIREAT | EXPIRETIME
    | TTL | GETWATCH | UNWATCH | HGET | HSET | HGETALL | HGETWATCH | HGETALLWATCH | ZADD | ZCOUNT
    | ZRANGE | ZPOPMAX | ZREM | ZPOPMIN | ZRANK | ZCARD | ZRANGEWATCH | ZCOUNTWATCH | ZCARDWATCH | ZRANKWATCH

  /** A response payload, one constructor per `Response` subclass, with its fields. */
  datatype Response =
    | TYPERes(typeName: string)
    | PINGRes(message: string)
    | ECHORes(message: string)
    | HANDSHAKERes
    | EXISTSRes(count: Int64)
    | GETRes(value: string)
    | SETRes
    | DELRes(count: Int64)
    | KEYSRes(keys: seq<string>)
    | GETDELRes(maybeValue: Option<string>)
    | GETEXRes(maybeValue: Option<string>)
    | GETSETRes(value: string)
    | INCRRes(number: Int64)
    | DECRRes(number: Int64)
    | INCRBYRes(number: Int64)
    | DECRBYRes(number: Int64)
    | FLUSHDBRes
    | EXPIRERes(isChanged: bool)
    | EXPIREATRes(isChanged: bool)
    | EXPIRETIMERes(unixSec: Int64)
    | TTLRes(seconds: Int64)
    | GETWATCHRes
    | UNWATCHRes
    | HGETRes(value: string)
    | HSETRes(count: Int64)
    | HGETALLRes(hElements: seq<HElement>)
    | HGETWATCHRes
    | HGETALLWATCHRes
    | ZADDRes(count: Int64)
    | ZCOUNTRes(count: Int64)
    | ZRANGERes(zElements: seq<ZElement>)
    | ZPOPMAXRes(zElements: seq<ZElement>)
    | ZREMRes(count: Int64)
    | ZPOPMINRes(zElements: seq<ZElement>)
    | ZRANKRes(element: ZElement)
    | ZCARDRes(count: Int64)
    | ZRANGEWATCHRes
    | ZCOUNTWATCHRes
    | ZCARDWATCHRes
    | ZRANKWATCHRes
  {
    /** The class of the payload. */
    function Kind(): ResponseKind {
      match this
      case TYPERes(_) => TYPE
      case PINGRes(_) => PING
      case ECHORes(_) => ECHO
      case HANDSHAKERes => HANDSHAKE
      case EXISTSRes(_) => EXISTS
      case GETRes(_) => GET
      case SETRes => SET
      case DELRes(_) => DEL
      case KEYSRes(_) => KEYS
      case GETDELRes(_) => GETDEL
      case GETEXRes(_) => GETEX
      case GETSETRes(_) => GETSET
      case INCRRes(_) => INCR
      case DECRRes(_) => DECR
      case INCRBYRes(_) => INCRBY
      case DECRBYRes(_) => DECRBY
      case FLUSHDBRes => FLUSHDB
      case EXPIRERes(_) => EXPIRE
      case EXPIREATRes(_) => EXPIREAT
      case EXPIRETIMERes(_) => EXPIRETIME
      case TTLRes(_) => TTL
      case GETWATCHRes => GETWATCH
      case UNWATCHRes => UNWATCH
      case HGETRes(_) => HGET
      case HSETRes(_) => HSET
      case HGETALLRes(_) => HGETALL
      case HGETWATCHRes => HGETWATCH
      case HGETALLWATCHRes => HGETALLWATCH
      case ZADDRes(_) => ZADD
      case ZCOUNTRes(_) => ZCOUNT
      case ZRANGERes(_) => ZRANGE
      case ZPOPMAXRes(_) => ZPOPMAX
      case ZREMRes(_) => ZREM
      case ZPOPMINRes(_) => ZPOPMIN
      case ZRANKRes(_) => ZRANK
      case ZCARDRes(_) => ZCARD
      case ZRANGEWATCHRes => ZRANGEWATCH
      case ZCOUNTWATCHRes => ZCOUNTWATCH
      case ZCARDWATCHRes => ZCARDWATCH
      case ZRANKWATCHRes => ZRANKWATCH
    }
  }

  /**
   * `Result`: a nullable status, the server's message, an optional
   * fingerprint and one nullable slot per response class; `slots` holds the
   * slots that are not null, keyed by their class.
   */
  datatype Result = Result(status: Option<Status>, message: string, fingerprint64: Option<nat>,
                           slots: map<ResponseKind, Response>)

  /** Each slot holds a payload of its own class, as the field types of `Result` require. */
  predicate WellTyped(r: Result) {
    forall k :: k in r.slots ==> r.slots[k].Kind() == k
  }

  /** The envelopes a decoder can produce. */
  type Envelope = r: Result | WellTyped(r) witness Result(None, "", None, map[])

  /**
   * The slot `fire` reads for the requested class: the `when (R::class)`
   * table maps each class to the slot of the same name.
   */
  function SlotFor(r: Envelope, k: ResponseKind): (s: Option<Response>)
    ensures s.Some? <==> k in r.slots
    ensures s.Some? ==> s.value.Kind() == k
  {
    if k in r.slots then Some(r.slots[k]) else None
  }
}
