/**
 * `Command`: the operations a client can issue, each encoded by `toProto()`
 * into an operation name and ordered string arguments, and each declaring the
 * response class `fire` unwraps its reply into.
 */
module Commands {
  import opened Base
  import opened Proto
  import Decimal

  /** `Command.Channel`: which connection a handshake opens. */
  datatype Channel = Command | Watch {
    /** The enum's `name`. */
    function Name(): string {
      match this
      case Command => "Command"
      case Watch => "Watch"
    }
  }

  /** `Command.AddFlag`. */
  datatype AddFlag = NX | XX | CH | INCR {
    function Name(): string {
      match this
      case NX => "NX"
      case XX => "XX"
      case CH => "CH"
      case INCR => "INCR"
    }
  }

  /** `Command.SetFlag`. */
  datatype SetFlag = NX | XX {
    function Name(): string {
      match this
      case NX => "NX"
      case XX => "XX"
    }
  }

  /** `Command.ExpireType`. */
  datatype ExpireType = EX | PX | EXAT | PXAT {
    function Name(): string {
      match this
      case EX => "EX"
      case PX => "PX"
      case EXAT => "EXAT"
      case PXAT => "PXAT"
    }
  }

  /** `Command.ZRangeMode`, with the keyword each mode stands for. */
  datatype ZRangeMode = ByRank | ByScore {
    function Value(): string {
      match this
      case ByRank => "BYRANK"
      case ByScore => "BYSCORE"
    }
  }

  /** The `Command` subclasses, with their fields in declaration order. */
  datatype Command =
    | Get(key: string)
    | Handshake(clientId: string, channel: Channel)
    | Decr(key: string)
    | DecrBy(key: string, decrement: Int64)
    | Del(keys: seq<string>)
    | Echo(message: string)
    | Exists(keys: seq<string>)
    | Expire(key: string, seconds: Int64)
    | ExpireAt(key: string, timestamp: Int64)
    | ExpireTime(key: string)
    | FlushDb
    | GetDel(key: string)
    | GetEx(key: string, expireType: Option<ExpireType>, time: Option<Int64>)
    | GetSet(key: string, value: string)
    | GetWatch(key: string)
    | HGet(key: string, field: string)
    | HGetAll(key: string)
    | HGetAllWatch(key: string)
    | HGetWatch(key: string, field: string)
    | HSet(key: string, fields: seq<string>)
    | Incr(key: string)
    | IncrBy(key: string, increment: Int64)
    | Keys(pattern: string)
    | Ping(pingMessage: Option<string>)
    | Set(key: string, value: string, flag: Option<SetFlag>, expireType: Option<ExpireType>,
          expireTime: Option<Int64>, keepTtl: bool)
    | Ttl(key: string)
    | Type(key: string)
    | Unwatch
    | ZAdd(key: string, scoreMembers: seq<(Int32, string)>, flags: seq<AddFlag>)
    | ZCard(key: string)
    | ZCardWatch(key: string)
    | ZCount(key: string, min: string, max: string)
    | ZCountWatch(key: string, min: string, max: string)
    | ZPopMax(key: string, count: Option<Int32>)
    | ZPopMin(key: string, count: Option<Int32>)
    | ZRange(key: string, start: Int32, stop: Int32, mode: ZRangeMode)
    | ZRangeWatch(key: string, start: Int32, stop: Int32, mode: ZRangeMode)
    | ZRank(key: string, member: string)
    | ZRankWatch(key: string, member: string)
    | ZRem(key: string, members: seq<string>)

  /** `Handshake(clientId)`: the channel defaults to `Command`. */
  function DefaultHandshake(clientId: string): Command {
    Handshake(clientId, Channel.Command)
  }

  /** The response class each command declares as its type argument `R`. */
  function ResponseKindOf(c: Command): ResponseKind {
    match c
    case Get(_) => GET
    case Handshake(_, _) => HANDSHAKE
    case Decr(_) => DECR
    case DecrBy(_, _) => DECRBY
    case Del(_) => DEL
    case Echo(_) => ECHO
    case Exists(_) => EXISTS
    case Expire(_, _) => EXPIRE
    case ExpireAt(_, _) => EXPIREAT
    case ExpireTime(_) => EXPIRETIME
    case FlushDb => FLUSHDB
    case GetDel(_) => GETDEL
    case GetEx(_, _, _) => GETEX
    case GetSet(_, _) => GETSET
    case GetWatch(_) => GETWATCH
    case HGet(_, _) => HGET
    case HGetAll(_) => HGETALL
    case HGetAllWatch(_) => HGETWATCH
    case HGetWatch(_, _) => HGETWATCH
    case HSet(_, _) => HSET
    case Incr(_) => ResponseKind.INCR
    case IncrBy(_, _) => INCRBY
    case Keys(_) => KEYS
    case Ping(_) => PING
    case Set(_, _, _, _, _, _) => SET
    case Ttl(_) => TTL
    case Type(_) => TYPE
    case Unwatch => UNWATCH
    case ZAdd(_, _, _) => ZADD
    case ZCard(_) => ZCARD
    case ZCardWatch(_) => ZCARDWATCH
    case ZCount(_, _, _) => ZCARD
    case ZCountWatch(_, _, _) => ZCOUNTWATCH
    case ZPopMax(_, _) => ZPOPMAX
    case ZPopMin(_, _) => ZPOPMIN
    case ZRange(_, _, _, _) => ZRANGE
    case ZRangeWatch(_, _, _, _) => ZRANGEWATCH
    case ZRank(_, _) => ZRANK
    case ZRankWatch(_, _) => ZRANKWATCH
    case ZRem(_, _) => ZREM
  }

  /** `Int.toString()` and `Long.toString()`. */
  function Str(i: int): string {
    Decimal.IntToString(i)
  }

  /** The expiry arguments: the type's name and the time, only when both are given. */
  function ExpireArgs(expireType: Option<ExpireType>, time: Option<Int64>): seq<string> {
    if expireType.Some? && time.Some? then [expireType.value.Name(), Str(time.value)] else []
  }

  /** `flags.toSet()`: the flags without repeats, in order of first occurrence. */
  function Distinct(flags: seq<AddFlag>): (d: seq<AddFlag>)
    decreases |flags|
  {
    if flags == [] then []
    else
      var init := Distinct(flags[..|flags| - 1]);
      if flags[|flags| - 1] in init then init else init + [flags[|flags| - 1]]
  }

  /** The name of each flag, in order. */
  function FlagNames(flags: seq<AddFlag>): (names: seq<string>)
    ensures |names| == |flags| && forall i :: 0 <= i < |flags| ==> names[i] == flags[i].Name()
    decreases |flags|
  {
    if flags == [] then [] else [flags[0].Name()] + FlagNames(flags[1..])
  }

  /** Score then member, for each pair in order. */
  function PairArgs(pairs: seq<(Int32, string)>): seq<string>
    decreases |pairs|
  {
    if pairs == [] then [] else [Str(pairs[0].0), pairs[0].1] + PairArgs(pairs[1..])
  }

  function RangeArgs(key: string, start: Int32, stop: Int32, mode: ZRangeMode): seq<string> {
    [key, Str(start), Str(stop)] + (if mode == ByScore then [mode.Value()] else [])
  }

  function CountArg(count: Option<Int32>): seq<string> {
    if count.Some? then [Str(count.value)] else []
  }

  /** `toProto()` of every command. */
  function ToProto(c: Command): ProtoCommand {
    match c
    case Get(key) => ProtoCommand("GET", [key])
    case Handshake(clientId, channel) => ProtoCommand("HANDSHAKE", [clientId, channel.Name()])
    case Decr(key) => ProtoCommand("DECR", [key])
    case DecrBy(key, decrement) => ProtoCommand("DECRBY", [key, Str(decrement)])
    case Del(keys) => ProtoCommand("DEL", keys)
    case Echo(message) => ProtoCommand("ECHO", [message])
    case Exists(keys) => ProtoCommand("EXISTS", keys)
    case Expire(key, seconds) => ProtoCommand("EXPIRE", [key, Str(seconds)])
    case ExpireAt(key, timestamp) => ProtoCommand("EXPIREAT", [key, Str(timestamp)])
    case ExpireTime(key) => ProtoCommand("EXPIRETIME", [key])
    case FlushDb => ProtoCommand("FLUSHDB", [])
    case GetDel(key) => ProtoCommand("GETDEL", [key])
    case GetEx(key, expireType, time) => ProtoCommand("GETEX", [key] + ExpireArgs(expireType, time))
    case GetSet(key, value) => ProtoCommand("GETSET", [key, value])
    case GetWatch(key) => ProtoCommand("GET.WATCH", [key])
    case HGet(key, field) => ProtoCommand("HGET", [key, field])
    case HGetAll(key) => ProtoCommand("HGETALL", [key])
    case HGetAllWatch(key) => ProtoCommand("HGETALL.WATCH", [key])
    case HGetWatch(key, field) => ProtoCommand("HGET.WATCH", [key, field])
    case HSet(_, fields) => ProtoCommand("HSET", fields)
    case Incr(key) => ProtoCommand("INCR", [key])
    case IncrBy(key, increment) => ProtoCommand("INCRBY", [key, Str(increment)])
    case Keys(pattern) => ProtoCommand("KEYS", [pattern])
    case Ping(message) => ProtoCommand("PING", if message.Some? then [message.value] else [])
    case Set(key, value, flag, expireType, expireTime, keepTtl) =>
      ProtoCommand("SET", [key, value] + (if flag.Some? then [flag.value.Name()] else [])
                          + ExpireArgs(expireType, expireTime) + (if keepTtl then ["KEEPTTL"] else []))
    case Ttl(key) => ProtoCommand("TTL", [key])
    case Type(key) => ProtoCommand("TYPE", [key])
    case Unwatch => ProtoCommand("UNWATCH", [])
    case ZAdd(key, scoreMembers, flags) => ProtoCommand("ZADD", [key] + FlagNames(Distinct(flags)) + PairArgs(scoreMembers))
    case ZCard(key) => ProtoCommand("ZCARD", [key])
    case ZCardWatch(key) => ProtoCommand("ZCARD.WATCH", [key])
    case ZCount(key, min, max) => ProtoCommand("ZCOUNT", [key, min, max])
    case ZCountWatch(key, min, max) => ProtoCommand("ZCOUNT.WATCH", [key, min, max])
    case ZPopMax(_, count) => ProtoCommand("ZPOPMAX", CountArg(count))
    case ZPopMin(_, count) => ProtoCommand("ZPOPMIN", CountArg(count))
    case ZRange(key, start, stop, mode) => ProtoCommand("ZRANGE", RangeArgs(key, start, stop, mode))
    case ZRangeWatch(key, start, stop, mode) => ProtoCommand("ZRANGE.WATCH", RangeArgs(key, start, stop, mode))
    case ZRank(key, member) => ProtoCommand("ZRANK", [key, member])
    case ZRankWatch(key, member) => ProtoCommand("ZRANK.WATCH", [key, member])
    case ZRem(key, members) => ProtoCommand("ZREM", [key] + members)
  }

  /**
   * The command with what `toProto()` does not transmit reset: the key of
   * `HSet`, `ZPopMax` and `ZPopMin`, an expiry type or time given without the
   * other, and repeated `ZAdd` flags.
   */
  function Canonical(c: Command): Command {
    match c
    case GetEx(key, expireType, time) =>
      if expireType.Some? && time.Some? then c else GetEx(key, None, None)
    case Set(key, value, flag, expireType, expireTime, keepTtl) =>
      if expireType.Some? && expireTime.Some? then c else Set(key, value, flag, None, None, keepTtl)
    case HSet(_, fields) => HSet("", fields)
    case ZPopMax(_, count) => ZPopMax("", count)
    case ZPopMin(_, count) => ZPopMin("", count)
    case ZAdd(key, scoreMembers, flags) => ZAdd(key, scoreMembers, Distinct(flags))
    case _ => c
  }

  // ---------------------------------------------------------------------------
  // Decoding: the server's side of the layout, used to show it loses nothing
  // beyond what `Canonical` resets.

  function ParseLong(s: string): Option<Int64> {
    match Decimal.ParseInt(s)
    case Some(i) => if -0x8000_0000_0000_0000 <= i < 0x8000_0000_0000_0000 then Some(i as Int64) else None
    case None => None
  }

  function ParseInt(s: string): Option<Int32> {
    match Decimal.ParseInt(s)
    case Some(i) => if -0x8000_0000 <= i < 0x8000_0000 then Some(i as Int32) else None
    case None => None
  }

  lemma ParseLongStr(i: Int64)
    ensures ParseLong(Str(i)) == Some(i)
  {
    Decimal.ParseIntToString(i);
  }

  lemma ParseIntStr(i: Int32)
    ensures ParseInt(Str(i)) == Some(i)
  {
    Decimal.ParseIntToString(i);
  }

  function ParseChannel(s: string): Option<Channel> {
    if s == "Command" then Some(Channel.Command) else if s == "Watch" then Some(Watch) else None
  }

  function ParseSetFlag(s: string): Option<SetFlag> {
    if s == "NX" then Some(SetFlag.NX) else if s == "XX" then Some(SetFlag.XX) else None
  }

  function ParseAddFlag(s: string): Option<AddFlag> {
    if s == "NX" then Some(AddFlag.NX) else if s == "XX" then Some(AddFlag.XX)
    else if s == "CH" then Some(CH) else if s == "INCR" then Some(AddFlag.INCR) else None
  }

  function ParseExpireType(s: string): Option<ExpireType> {
    if s == "EX" then Some(EX) else if s == "PX" then Some(PX)
    else if s == "EXAT" then Some(EXAT) else if s == "PXAT" then Some(PXAT) else None
  }

  /** An expiry pair at the head of `a`, and what follows it. */
  function ParseExpire(a: seq<string>): (Option<ExpireType>, Option<Int64>, seq<string>) {
    if |a| >= 2 && ParseExpireType(a[0]).Some? && ParseLong(a[1]).Some? then
      (ParseExpireType(a[0]), ParseLong(a[1]), a[2..])
    else (None, None, a)
  }

  /** The options `SET` takes after key and value: flag, expiry, `KEEPTTL`, in that order. */
  function ParseSetOptions(key: string, value: string, a: seq<string>): Option<Command> {
    var (flag, a1) := if |a| >= 1 && ParseSetFlag(a[0]).Some? then (ParseSetFlag(a[0]), a[1..]) else (None, a);
    var (expireType, expireTime, a2) := ParseExpire(a1);
    if a2 == [] then Some(Set(key, value, flag, expireType, expireTime, false))
    else if a2 == ["KEEPTTL"] then Some(Set(key, value, flag, expireType, expireTime, true))
    else None
  }

  /** The `ZADD` flags at the head of `a`, and what follows them. */
  function ParseFlags(a: seq<string>): (seq<AddFlag>, seq<string>)
    decreases |a|
  {
    if a != [] && ParseAddFlag(a[0]).Some? then
      var (flags, rest) := ParseFlags(a[1..]);
      ([ParseAddFlag(a[0]).value] + flags, rest)
    else ([], a)
  }

  /** Score/member pairs filling all of `a`. */
  function ParsePairs(a: seq<string>): Option<seq<(Int32, string)>>
    decreases |a|
  {
    if a == [] then Some([])
    else if |a| >= 2 && ParseInt(a[0]).Some? then
      match ParsePairs(a[2..])
      case Some(pairs) => Some([(ParseInt(a[0]).value, a[1])] + pairs)
      case None => None
    else None
  }

  /** `ZADD` arguments: the key, the flags, then the pairs. */
  function ParseZAdd(a: seq<string>): Option<Command> {
    if |a| >= 1 then
      var (flags, rest) := ParseFlags(a[1..]);
      match ParsePairs(rest)
      case Some(pairs) => Some(ZAdd(a[0], pairs, flags))
      case None => None
    else None
  }

  function ParseRange(a: seq<string>): Option<(string, Int32, Int32, ZRangeMode)> {
    if (|a| == 3 || (|a| == 4 && a[3] == "BYSCORE")) && ParseInt(a[1]).Some? && ParseInt(a[2]).Some? then
      Some((a[0], ParseInt(a[1]).value, ParseInt(a[2]).value, if |a| == 4 then ByScore else ByRank))
    else None
  }

  function ParseCount(a: seq<string>): Option<Option<Int32>> {
    if a == [] then Some(None) else if |a| == 1 && ParseInt(a[0]).Some? then Some(ParseInt(a[0])) else None
  }

  /** The command a `ProtoCommand` stands for, if it is one `toProto()` can produce. */
  function FromProto(p: ProtoCommand): Option<Command> {
    if p.cmd == [] then None
    else if p.cmd[0] == 'Z' then FromSortedSetProto(p.cmd, p.args)
    else if p.cmd[0] == 'H' then FromHashProto(p.cmd, p.args)
    else if p.cmd[0] == 'G' || p.cmd[0] == 'E' then FromGetExpireProto(p.cmd, p.args)
    else FromOtherProto(p.cmd, p.args)
  }

  /** The sorted-set commands, whose names begin with `Z`. */
  function FromSortedSetProto(cmd: string, a: seq<string>): Option<Command> {
    match cmd
    case "ZADD" => ParseZAdd(a)
    case "ZCARD" => if |a| == 1 then Some(ZCard(a[0])) else None
    case "ZCARD.WATCH" => if |a| == 1 then Some(ZCardWatch(a[0])) else None
    case "ZCOUNT" => if |a| == 3 then Some(ZCount(a[0], a[1], a[2])) else None
    case "ZCOUNT.WATCH" => if |a| == 3 then Some(ZCountWatch(a[0], a[1], a[2])) else None
    case "ZPOPMAX" => if ParseCount(a).Some? then Some(ZPopMax("", ParseCount(a).value)) else None
    case "ZPOPMIN" => if ParseCount(a).Some? then Some(ZPopMin("", ParseCount(a).value)) else None
    case "ZRANGE" =>
      (match ParseRange(a)
       case Some((key, start, stop, mode)) => Some(ZRange(key, start, stop, mode))
       case None => None)
    case "ZRANGE.WATCH" =>
      (match ParseRange(a)
       case Some((key, start, stop, mode)) => Some(ZRangeWatch(key, start, stop, mode))
       case None => None)
    case "ZRANK" => if |a| == 2 then Some(ZRank(a[0], a[1])) else None
    case "ZRANK.WATCH" => if |a| == 2 then Some(ZRankWatch(a[0], a[1])) else None
    case "ZREM" => if |a| >= 1 then Some(ZRem(a[0], a[1..])) else None
    case _ => None
  }

  /** The hash commands and the handshake, whose names begin with `H`. */
  function FromHashProto(cmd: string, a: seq<string>): Option<Command> {
    match cmd
    case "HANDSHAKE" =>
      if |a| == 2 && ParseChannel(a[1]).Some? then Some(Handshake(a[0], ParseChannel(a[1]).value)) else None
    case "HGET" => if |a| == 2 then Some(HGet(a[0], a[1])) else None
    case "HGETALL" => if |a| == 1 then Some(HGetAll(a[0])) else None
    case "HGETALL.WATCH" => if |a| == 1 then Some(HGetAllWatch(a[0])) else None
    case "HGET.WATCH" => if |a| == 2 then Some(HGetWatch(a[0], a[1])) else None
    case "HSET" => Some(HSet("", a))
    case _ => None
  }

  /** The commands whose names begin with `G` or `E`. */
  function FromGetExpireProto(cmd: string, a: seq<string>): Option<Command> {
    match cmd
    case "GET" => if |a| == 1 then Some(Get(a[0])) else None
    case "ECHO" => if |a| == 1 then Some(Echo(a[0])) else None
    case "EXISTS" => Some(Exists(a))
    case "EXPIRE" => if |a| == 2 && ParseLong(a[1]).Some? then Some(Expire(a[0], ParseLong(a[1]).value)) else None
    case "EXPIREAT" => if |a| == 2 && ParseLong(a[1]).Some? then Some(ExpireAt(a[0], ParseLong(a[1]).value)) else None
    case "EXPIRETIME" => if |a| == 1 then Some(ExpireTime(a[0])) else None
    case "GETDEL" => if |a| == 1 then Some(GetDel(a[0])) else None
    case "GETEX" =>
      if |a| >= 1 && ParseExpire(a[1..]).2 == [] then
        Some(GetEx(a[0], ParseExpire(a[1..]).0, ParseExpire(a[1..]).1))
      else None
    case "GETSET" => if |a| == 2 then Some(GetSet(a[0], a[1])) else None
    case "GET.WATCH" => if |a| == 1 then Some(GetWatch(a[0])) else None
    case _ => None
  }

  /** The remaining commands. */
  function FromOtherProto(cmd: string, a: seq<string>): Option<Command> {
    match cmd
    case "DECR" => if |a| == 1 then Some(Decr(a[0])) else None
    case "DECRBY" => if |a| == 2 && ParseLong(a[1]).Some? then Some(DecrBy(a[0], ParseLong(a[1]).value)) else None
    case "DEL" => Some(Del(a))
    case "FLUSHDB" => if a == [] then Some(FlushDb) else None
    case "INCR" => if |a| == 1 then Some(Incr(a[0])) else None
    case "INCRBY" => if |a| == 2 && ParseLong(a[1]).Some? then Some(IncrBy(a[0], ParseLong(a[1]).value)) else None
    case "KEYS" => if |a| == 1 then Some(Keys(a[0])) else None
    case "PING" => if a == [] then Some(Ping(None)) else if |a| == 1 then Some(Ping(Some(a[0]))) else None
    case "SET" => if |a| >= 2 then ParseSetOptions(a[0], a[1], a[2..]) else None
    case "TTL" => if |a| == 1 then Some(Ttl(a[0])) else None
    case "TYPE" => if |a| == 1 then Some(Type(a[0])) else None
    case "UNWATCH" => if a == [] then Some(Unwatch) else None
    case _ => None
  }

  // ---------------------------------------------------------------------------
  // Properties of the layout.

  /** `flags.toSet()` keeps each flag once: no repeats, nothing added, nothing lost. */
  lemma {:induction false} DistinctElements(flags: seq<AddFlag>)
    ensures forall i, j :: 0 <= i < j < |Distinct(flags)| ==> Distinct(flags)[i] != Distinct(flags)[j]
    ensures forall f :: f in Distinct(flags) <==> f in flags
    decreases |flags|
  {
    if flags != [] {
      var init := flags[..|flags| - 1];
      DistinctElements(init);
      assert flags == init + [flags[|flags| - 1]];
    }
  }

  /** The flags come out in the order of their first occurrence. */
  lemma {:induction false} DistinctOrder(flags: seq<AddFlag>, i: nat, j: nat)
    requires i < j < |Distinct(flags)|
    ensures exists p :: 0 <= p < |flags| && flags[p] == Distinct(flags)[i] && Distinct(flags)[j] !in flags[..p + 1]
    decreases |flags|
  {
    var init := flags[..|flags| - 1];
    var last := flags[|flags| - 1];
    DistinctElements(init);
    DistinctElements(flags);
    var d := Distinct(flags);
    if j < |Distinct(init)| {
      DistinctOrder(init, i, j);
      var p :| 0 <= p < |init| && init[p] == Distinct(init)[i] && Distinct(init)[j] !in init[..p + 1];
      assert init[..p + 1] == flags[..p + 1];
    } else {
      // d[j] is the last flag, seen for the first time at the end
      assert d[j] == last && last !in init;
      assert d[i] in init;
      var p :| 0 <= p < |init| && init[p] == d[i];
      assert flags[..p + 1] == init[..p + 1];
      assert forall x :: x in flags[..p + 1] ==> x in init;
    }
  }

  /** Removing repeats twice removes nothing more. */
  lemma {:induction false} DistinctIdempotent(flags: seq<AddFlag>)
    ensures Distinct(Distinct(flags)) == Distinct(flags)
  {
    DistinctElements(flags);
    DistinctOfDistinct(Distinct(flags));
  }

  /** A sequence without repeats is its own `Distinct`. */
  lemma {:induction false} DistinctOfDistinct(flags: seq<AddFlag>)
    requires forall i, j :: 0 <= i < j < |flags| ==> flags[i] != flags[j]
    ensures Distinct(flags) == flags
    decreases |flags|
  {
    if flags != [] {
      var init := flags[..|flags| - 1];
      DistinctOfDistinct(init);
      assert flags[|flags| - 1] !in init;
    }
  }

  lemma {:induction false} PairArgsLength(pairs: seq<(Int32, string)>)
    ensures |PairArgs(pairs)| == 2 * |pairs|
    decreases |pairs|
  {
    if pairs != [] {
      PairArgsLength(pairs[1..]);
    }
  }

  /** `ZADD` sends the key, each distinct flag once, and two arguments per pair. */
  lemma ZAddArgCount(key: string, scoreMembers: seq<(Int32, string)>, flags: seq<AddFlag>)
    ensures |ToProto(ZAdd(key, scoreMembers, flags)).args| == 1 + |Distinct(flags)| + 2 * |scoreMembers|
  {
    PairArgsLength(scoreMembers);
  }

  /** The `ZADD` pairs read back from their arguments. */
  lemma {:induction false} ParsePairsArgs(pairs: seq<(Int32, string)>)
    ensures ParsePairs(PairArgs(pairs)) == Some(pairs)
    decreases |pairs|
  {
    if pairs != [] {
      var a := PairArgs(pairs);
      ParseIntStr(pairs[0].0);
      assert a[0] == Str(pairs[0].0) && a[1] == pairs[0].1;
      assert a[2..] == PairArgs(pairs[1..]);
      ParsePairsArgs(pairs[1..]);
      assert ParsePairs(a) == Some([(pairs[0].0, pairs[0].1)] + pairs[1..]);
      assert [(pairs[0].0, pairs[0].1)] + pairs[1..] == pairs;
    }
  }

  /** No decimal number is a flag name. */
  lemma StrNotFlag(i: int)
    ensures ParseAddFlag(Str(i)).None?
  {
    var s := Str(i);
    assert Decimal.IsDigit(s[0]) || s[0] == '-';
  }

  lemma ParseAddFlagName(f: AddFlag)
    ensures ParseAddFlag(f.Name()) == Some(f)
  {
  }

  /** The flags read back from their names, stopping where the pairs begin. */
  lemma {:induction false} ParseFlagsNames(flags: seq<AddFlag>, pairs: seq<(Int32, string)>)
    ensures ParseFlags(FlagNames(flags) + PairArgs(pairs)) == (flags, PairArgs(pairs))
    decreases |flags|
  {
    var a := FlagNames(flags) + PairArgs(pairs);
    if flags == [] {
      assert a == PairArgs(pairs);
      if pairs != [] {
        StrNotFlag(pairs[0].0);
        assert a[0] == Str(pairs[0].0);
      }
    } else {
      assert a[0] == flags[0].Name();
      ParseAddFlagName(flags[0]);
      assert a[1..] == FlagNames(flags[1..]) + PairArgs(pairs);
      ParseFlagsNames(flags[1..], pairs);
      assert [flags[0]] + flags[1..] == flags;
    }
  }

  lemma ParseSetFlagName(f: SetFlag)
    ensures ParseSetFlag(f.Name()) == Some(f)
  {
  }

  lemma ParseExpireTypeName(t: ExpireType)
    ensures ParseExpireType(t.Name()) == Some(t) && ParseSetFlag(t.Name()).None?
  {
  }

  lemma ParseExpireArgs(expireType: Option<ExpireType>, time: Option<Int64>, rest: seq<string>)
    requires rest == [] || rest == ["KEEPTTL"]
    ensures var (t, x, r) := ParseExpire(ExpireArgs(expireType, time) + rest);
      && r == rest
      && (t, x) == (if expireType.Some? && time.Some? then (expireType, time) else (None, None))
  {
    var a := ExpireArgs(expireType, time) + rest;
    if expireType.Some? && time.Some? {
      ParseLongStr(time.value);
      ParseExpireTypeName(expireType.value);
      assert a[0] == expireType.value.Name() && a[1] == Str(time.value);
      assert a[2..] == rest;
    } else {
      assert a == rest;
      assert ParseExpireType("KEEPTTL").None?;
    }
  }

  /** The options `SET` sends after key and value read back as the flag, the expiry when both parts are given, and `keepTtl`. */
  lemma SetOptionsParse(key: string, value: string, flag: Option<SetFlag>, expireType: Option<ExpireType>,
                        expireTime: Option<Int64>, keepTtl: bool)
    ensures var keep: seq<string> := if keepTtl then ["KEEPTTL"] else [];
      var o := (if flag.Some? then [flag.value.Name()] else []) + (ExpireArgs(expireType, expireTime) + keep);
      var full := expireType.Some? && expireTime.Some?;
      ParseSetOptions(key, value, o)
        == Some(Set(key, value, flag, if full then expireType else None, if full then expireTime else None, keepTtl))
  {
    var keep: seq<string> := if keepTtl then ["KEEPTTL"] else [];
    var expire := ExpireArgs(expireType, expireTime);
    var o := (if flag.Some? then [flag.value.Name()] else []) + (expire + keep);
    ParseExpireArgs(expireType, expireTime, keep);
    if flag.Some? {
      ParseSetFlagName(flag.value);
      assert o[0] == flag.value.Name() && o[1..] == expire + keep;
    } else if expire != [] {
      ParseExpireTypeName(expireType.value);
      assert o == expire + keep && o[0] == expireType.value.Name();
    } else {
      assert o == keep;
      assert ParseSetFlag("KEEPTTL").None?;
    }
  }

  /** The options after key and value read back as the canonical command's. */
  lemma SetOptionsRoundTrip(c: Command)
    requires c.Set?
    ensures ParseSetOptions(c.key, c.value, ToProto(c).args[2..]) == Some(Canonical(c))
  {
    var keep: seq<string> := if c.keepTtl then ["KEEPTTL"] else [];
    var flagArg: seq<string> := if c.flag.Some? then [c.flag.value.Name()] else [];
    var expire := ExpireArgs(c.expireType, c.expireTime);
    var a := ToProto(c).args;
    assert a == [c.key, c.value] + flagArg + expire + keep;
    assert a == [c.key, c.value] + (flagArg + (expire + keep));
    assert a[2..] == flagArg + (expire + keep);
    SetOptionsParse(c.key, c.value, c.flag, c.expireType, c.expireTime, c.keepTtl);
  }

  lemma SetRoundTrip(c: Command)
    requires c.Set?
    ensures FromProto(ToProto(c)) == Some(Canonical(c))
  {
    SetOptionsRoundTrip(c);
  }

  lemma GetExRoundTrip(c: Command)
    requires c.GetEx?
    ensures FromProto(ToProto(c)) == Some(Canonical(c))
  {
    var a := ToProto(c).args;
    assert a[1..] == ExpireArgs(c.expireType, c.time) + [];
    ParseExpireArgs(c.expireType, c.time, []);
  }

  lemma ZAddArgsRoundTrip(key: string, scoreMembers: seq<(Int32, string)>, flags: seq<AddFlag>)
    ensures ParseZAdd([key] + FlagNames(flags) + PairArgs(scoreMembers)) == Some(ZAdd(key, scoreMembers, flags))
  {
    var tail := FlagNames(flags) + PairArgs(scoreMembers);
    var a := [key] + tail;
    assert [key] + FlagNames(flags) + PairArgs(scoreMembers) == a;
    assert a[0] == key && a[1..] == tail;
    ParseFlagsNames(flags, scoreMembers);
    ParsePairsArgs(scoreMembers);
    assert ParseFlags(a[1..]) == (flags, PairArgs(scoreMembers));
  }

  lemma ZAddRoundTrip(c: Command)
    requires c.ZAdd?
    ensures FromProto(ToProto(c)) == Some(Canonical(c))
  {
    ZAddArgsRoundTrip(c.key, c.scoreMembers, Distinct(c.flags));
  }

  lemma RangeRoundTrip(key: string, start: Int32, stop: Int32, mode: ZRangeMode)
    ensures ParseRange(RangeArgs(key, start, stop, mode)) == Some((key, start, stop, mode))
  {
    ParseIntStr(start);
    ParseIntStr(stop);
  }

  lemma CountRoundTrip(count: Option<Int32>)
    ensures ParseCount(CountArg(count)) == Some(count)
  {
    if count.Some? {
      ParseIntStr(count.value);
    }
  }

  // The round trip, a few commands at a time so that each proof stays small.

  lemma RoundTripPart1(c: Command)
    requires c.Get? || c.Handshake? || c.Decr?
    ensures FromProto(ToProto(c)) == Some(Canonical(c))
  {
  }

  lemma RoundTripPart2(c: Command)
    requires c.DecrBy? || c.Del? || c.Echo?
    ensures FromProto(ToProto(c)) == Some(Canonical(c))
  {
    match c
    case DecrBy(_, n) => ParseLongStr(n);
    case _ =>
  }

  lemma RoundTripPart3(c: Command)
    requires c.Exists? || c.Expire? || c.ExpireAt?
    ensures FromProto(ToProto(c)) == Some(Canonical(c))
  {
    match c
    case Expire(_, n) => ParseLongStr(n);
    case ExpireAt(_, n) => ParseLongStr(n);
    case _ =>
  }

  lemma RoundTripPart4(c: Command)
    requires c.ExpireTime? || c.FlushDb? || c.GetDel?
    ensures FromProto(ToProto(c)) == Some(Canonical(c))
  {
  }

  lemma RoundTripPart5(c: Command)
    requires c.GetEx? || c.GetSet? || c.GetWatch?
    ensures FromProto(ToProto(c)) == Some(Canonical(c))
  {
    match c
    case GetEx(_, _, _) => GetExRoundTrip(c);
    case _ =>
  }

  lemma RoundTripPart6(c: Command)
    requires c.HGet? || c.HGetAll? || c.HGetAllWatch?
    ensures FromProto(ToProto(c)) == Some(Canonical(c))
  {
  }

  lemma RoundTripPart7(c: Command)
    requires c.HGetWatch? || c.HSet? || c.Incr?
    ensures FromProto(ToProto(c)) == Some(Canonical(c))
  {
  }

  lemma RoundTripPart8(c: Command)
    requires c.IncrBy? || c.Keys? || c.Ping?
    ensures FromProto(ToProto(c)) == Some(Canonical(c))
  {
    match c
    case IncrBy(_, n) => ParseLongStr(n);
    case _ =>
  }

  lemma RoundTripPart9(c: Command)
    requires c.Set? || c.Ttl? || c.Type?
    ensures FromProto(ToProto(c)) == Some(Canonical(c))
  {
    match c
    case Set(_, _, _, _, _, _) => SetRoundTrip(c);
    case _ =>
  }

  lemma RoundTripPart10(c: Command)
    requires c.Unwatch? || c.ZAdd? || c.ZCard?
    ensures FromProto(ToProto(c)) == Some(Canonical(c))
  {
    match c
    case ZAdd(_, _, _) => ZAddRoundTrip(c);
    case _ =>
  }

  lemma RoundTripPart11(c: Command)
    requires c.ZCardWatch? || c.ZCount? || c.ZCountWatch?
    ensures FromProto(ToProto(c)) == Some(Canonical(c))
  {
  }

  lemma RoundTripPart12(c: Command)
    requires c.ZPopMax? || c.ZPopMin?
    ensures FromProto(ToProto(c)) == Some(Canonical(c))
  {
    match c
    case ZPopMax(_, count) => CountRoundTrip(count);
    case ZPopMin(_, count) => CountRoundTrip(count);
  }

  lemma RoundTripPart13(c: Command)
    requires c.ZRange? || c.ZRangeWatch?
    ensures FromProto(ToProto(c)) == Some(Canonical(c))
  {
    match c
    case ZRange(key, start, stop, mode) => RangeRoundTrip(key, start, stop, mode);
    case ZRangeWatch(key, start, stop, mode) => RangeRoundTrip(key, start, stop, mode);
  }

  lemma RoundTripPart14(c: Command)
    requires c.ZRank? || c.ZRankWatch?
    ensures FromProto(ToProto(c)) == Some(Canonical(c))
  {
  }

  lemma RoundTripPart15(c: Command)
    requires c.ZRem?
    ensures FromProto(ToProto(c)) == Some(Canonical(c))
  {
    assert ([c.key] + c.members)[1..] == c.members;
  }

  /**
   * Round trip: decoding what `toProto()` sends gives back the command, up to
   * what `Canonical` resets.
   */
  lemma RoundTrip(c: Command)
    ensures FromProto(ToProto(c)) == Some(Canonical(c))
  {
    if c.Get? || c.Handshake? || c.Decr? {
      RoundTripPart1(c);
    } else if c.DecrBy? || c.Del? || c.Echo? {
      RoundTripPart2(c);
    } else if c.Exists? || c.Expire? || c.ExpireAt? {
      RoundTripPart3(c);
    } else if c.ExpireTime? || c.FlushDb? || c.GetDel? {
      RoundTripPart4(c);
    } else if c.GetEx? || c.GetSet? || c.GetWatch? {
      RoundTripPart5(c);
    } else if c.HGet? || c.HGetAll? || c.HGetAllWatch? {
      RoundTripPart6(c);
    } else if c.HGetWatch? || c.HSet? || c.Incr? {
      RoundTripPart7(c);
    } else if c.IncrBy? || c.Keys? || c.Ping? {
      RoundTripPart8(c);
    } else if c.Set? || c.Ttl? || c.Type? {
      RoundTripPart9(c);
    } else if c.Unwatch? || c.ZAdd? || c.ZCard? {
      RoundTripPart10(c);
    } else if c.ZCardWatch? || c.ZCount? || c.ZCountWatch? {
      RoundTripPart11(c);
    } else if c.ZPopMax? || c.ZPopMin? {
      RoundTripPart12(c);
    } else if c.ZRange? || c.ZRangeWatch? {
      RoundTripPart13(c);
    } else if c.ZRank? || c.ZRankWatch? {
      RoundTripPart14(c);
    } else {
      RoundTripPart15(c);
    }
  }

  /** What `Canonical` resets is exactly what the encoding does not carry. */
  lemma CanonicalSameProto(c: Command)
    ensures ToProto(Canonical(c)) == ToProto(c)
  {
    if c.ZAdd? {
      DistinctIdempotent(c.flags);
    }
  }

  /**
   * Two commands are sent the same way exactly when they agree on everything
   * `Canonical` keeps: no two different requests share an encoding.
   */
  lemma SameProtoIff(c1: Command, c2: Command)
    ensures ToProto(c1) == ToProto(c2) <==> Canonical(c1) == Canonical(c2)
  {
    CanonicalSameProto(c1);
    CanonicalSameProto(c2);
    RoundTrip(c1);
    RoundTrip(c2);
  }

  /** `ZPOPMAX` does not carry its key: the request holds the optional count alone. */
  lemma PopMaxRequestKeyless(key1: string, key2: string, count: Option<Int32>)
    ensures ToProto(ZPopMax(key1, count)) == ToProto(ZPopMax(key2, count)) == ProtoCommand("ZPOPMAX", CountArg(count))
  {
  }

  /** `ZPOPMIN` does not carry its key: the request holds the optional count alone. */
  lemma PopMinRequestKeyless(key1: string, key2: string, count: Option<Int32>)
    ensures ToProto(ZPopMin(key1, count)) == ToProto(ZPopMin(key2, count)) == ProtoCommand("ZPOPMIN", CountArg(count))
  {
  }

  /** `HSET` does not carry its key: the request holds the fields alone. */
  lemma HSetRequestKeyless(key1: string, key2: string, fields: seq<string>)
    ensures ToProto(HSet(key1, fields)) == ToProto(HSet(key2, fields)) == ProtoCommand("HSET", fields)
  {
  }

  /** `SET` puts key and value first and `KEEPTTL`, when asked for, last. */
  lemma SetLayout(c: Command)
    requires c.Set?
    ensures var a := ToProto(c).args;
      && |a| == 2 + (if c.flag.Some? then 1 else 0)
                  + (if c.expireType.Some? && c.expireTime.Some? then 2 else 0) + (if c.keepTtl then 1 else 0)
      && a[0] == c.key && a[1] == c.value
      && (c.flag.Some? ==> a[2] == c.flag.value.Name())
      && (c.keepTtl <==> |a| > 2 && a[|a| - 1] == "KEEPTTL")
  {
    var a := ToProto(c).args;
    if !c.keepTtl && |a| > 2 {
      var expire := ExpireArgs(c.expireType, c.expireTime);
      if expire != [] {
        ParseLongStr(c.expireTime.value);
        assert a[|a| - 1] == Str(c.expireTime.value);
        assert Decimal.IsDigit(a[|a| - 1][0]) || a[|a| - 1][0] == '-';
      }
    }
  }
}
