/**
 The relay's wire format (workers/relay-cloudflare/src/index.ts): variable-length integers
 and length-prefixed arrays in the manner of Postcard, and the frames built from them.
 */
module RelayCodec {
  import opened Base
  import Uuid
  import PlatformText

  const MAX_SAFE_INTEGER: nat := 0x1F_FFFF_FFFF_FFFF

  const RELAY_DISC_CTRL: Byte := 0x01
  const RELAY_DISC_DATA: Byte := 0x02
  const CTRL_SERVER_REGISTER := 0
  const CTRL_SERVER_REGISTER_OK := 1
  const CTRL_SERVER_REGISTER_ERR := 2
  const CTRL_SERVER_HEARTBEAT := 3
  const CTRL_CLIENT_CONNECT := 4
  const CTRL_PAIR_INBOUND := 5
  const CTRL_PAIR_OPEN := 6
  const CTRL_PAIR_CLOSE := 7

  /** A text encoder and decoder; `PLATFORM` below is the platform's. */
  datatype TextCodec<!T> = TextCodec(encode: T -> seq<Byte>, decode: seq<Byte> -> T)

  datatype CloseReason<T> =
    | NormalClose
    | ServerGone
    | ClientGone
    | Stuck
    | RelayShutdown
    | Rejected(message: T)

  datatype Message<T> =
    | ServerRegister(serverId: string)
    | ServerRegisterOk
    | ServerRegisterErr(reason: T)
    | ServerHeartbeat
    | ClientConnect(serverId: string)
    | PairInbound(pairId: string)
    | PairOpen(pairId: string)
    | PairClose(pairId: string, why: CloseReason<T>)
    | DataForward(pairId: string, bytes: seq<Byte>)

  // ----- Encoding

  function VarintBytes(value: nat): (r: seq<Byte>)
    ensures r != []
  {
    if value < 0x80 then [value] else [value % 0x80 + 0x80] + VarintBytes(value / 0x80)
  }

  lemma VarintStep(value: nat)
    ensures VarintBytes(value) == if value / 0x80 > 0 then [value % 0x80 + 0x80] + VarintBytes(value / 0x80) else [value % 0x80]
  {
  }

  /** The digit the loop emits, behind those already emitted. */
  lemma VarintPush(bytes: seq<Byte>, remaining: nat)
    ensures var rest := remaining / 0x80;
            var next := if rest > 0 then remaining % 0x80 + 0x80 else remaining % 0x80;
            bytes + VarintBytes(remaining) == if rest > 0 then bytes + [next] + VarintBytes(rest) else bytes + [next]
  {
    VarintStep(remaining);
    hide VarintBytes;
  }

  /** Fails beyond the safe integers. */
  method EncodeVarint(value: nat) returns (r: Option<seq<Byte>>)
    ensures r == if value <= MAX_SAFE_INTEGER then Some(VarintBytes(value)) else None
  {
    if value > MAX_SAFE_INTEGER {
      return None;
    }
    hide VarintBytes;
    var bytes: seq<Byte> := [];
    var remaining := value;
    var more := true;
    ghost var whole := VarintBytes(value);
    assert bytes + whole == whole;
    while more
      invariant !more ==> remaining == 0 && bytes == whole
      invariant more ==> bytes + VarintBytes(remaining) == whole
      decreases more, remaining
    {
      VarintPush(bytes, remaining);
      var next: Byte := remaining % 0x80;
      remaining := remaining / 0x80;
      if remaining > 0 {
        next := next + 0x80;
      }
      bytes, more := bytes + [next], remaining > 0;
    }
    return Some(bytes);
  }

  function ByteArray(bytes: seq<Byte>): seq<Byte> {
    VarintBytes(|bytes|) + bytes
  }

  function UuidBytes(uuid: string): seq<Byte>
    requires Uuid.IsCanonical(uuid)
  {
    ByteArray(Uuid.ToBytes(uuid))
  }

  function ReasonBytes<T>(t: TextCodec<T>, reason: CloseReason<T>): seq<Byte> {
    match reason
    case NormalClose => VarintBytes(0)
    case ServerGone => VarintBytes(1)
    case ClientGone => VarintBytes(2)
    case Stuck => VarintBytes(3)
    case RelayShutdown => VarintBytes(4)
    case Rejected(message) => VarintBytes(5) + ByteArray(t.encode(message))
  }

  /** The identifiers of the messages the relay sends are canonical. */
  predicate Sendable<T>(m: Message<T>) {
    (m.PairInbound? || m.PairOpen? || m.PairClose? || m.DataForward?) ==> Uuid.IsCanonical(m.pairId)
  }

  /** The relay never sends registrations, heartbeats or connects; encoding one is an error. */
  function EncodeRelay<T>(t: TextCodec<T>, m: Message<T>): Option<seq<Byte>>
    requires Sendable(m)
  {
    match m
    case ServerRegisterOk => Some([RELAY_DISC_CTRL] + VarintBytes(CTRL_SERVER_REGISTER_OK))
    case ServerRegisterErr(reason) =>
      Some([RELAY_DISC_CTRL] + VarintBytes(CTRL_SERVER_REGISTER_ERR) + ByteArray(t.encode(reason)))
    case PairInbound(pairId) => Some([RELAY_DISC_CTRL] + VarintBytes(CTRL_PAIR_INBOUND) + UuidBytes(pairId))
    case PairOpen(pairId) => Some([RELAY_DISC_CTRL] + VarintBytes(CTRL_PAIR_OPEN) + UuidBytes(pairId))
    case PairClose(pairId, why) =>
      Some([RELAY_DISC_CTRL] + VarintBytes(CTRL_PAIR_CLOSE) + UuidBytes(pairId) + ReasonBytes(t, why))
    case DataForward(pairId, bytes) =>
      Some([RELAY_DISC_DATA] + VarintBytes(0) + UuidBytes(pairId) + ByteArray(bytes))
    case ServerRegister(_) => None
    case ServerHeartbeat => None
    case ClientConnect(_) => None
  }

  // ----- Decoding: what a read at an offset yields, and where it ends

  datatype Read<+V> = Got(value: V, next: nat) | Bad
  {
    predicate IsFailure() {
      Bad?
    }

    function PropagateFailure<U>(): Read<U>
      requires Bad?
    {
      Bad
    }

    function Extract(): (V, nat)
      requires Got?
    {
      (value, next)
    }
  }

  function Power2(n: nat): nat {
    if n == 0 then 1 else 2 * Power2(n - 1)
  }

  /** `digit * 2 ** shift`. */
  function Scaled(digit: nat, shift: nat): nat {
    digit * Power2(shift)
  }

  function GetByte(bytes: seq<Byte>, at: nat): Read<Byte> {
    if at < |bytes| then Got(bytes[at], at + 1) else Bad
  }

  function GetBytes(bytes: seq<Byte>, at: nat, length: nat): Read<seq<Byte>> {
    if at + length <= |bytes| then Got(bytes[at..at + length], at + length) else Bad
  }

  function GetVarintFrom(bytes: seq<Byte>, at: nat, value: nat, shift: nat): Read<nat>
    decreases |bytes| - at
  {
    if at >= |bytes| then Bad
    else
      var sum := value + Scaled(bytes[at] % 0x80, shift);
      if bytes[at] < 0x80 then Got(sum, at + 1)
      else if shift + 7 > 49 then Bad
      else GetVarintFrom(bytes, at + 1, sum, shift + 7)
  }

  function GetVarint(bytes: seq<Byte>, at: nat): Read<nat> {
    GetVarintFrom(bytes, at, 0, 0)
  }

  function GetByteArray(bytes: seq<Byte>, at: nat): Read<seq<Byte>> {
    var (length, next) :- GetVarint(bytes, at);
    GetBytes(bytes, next, length)
  }

  function GetUuid(bytes: seq<Byte>, at: nat): Read<string> {
    var (raw, next) :- GetByteArray(bytes, at);
    if |raw| == 16 then Got(Uuid.FromBytes(raw), next) else Bad
  }

  function GetText<T>(t: TextCodec<T>, bytes: seq<Byte>, at: nat): Read<T> {
    var (raw, next) :- GetByteArray(bytes, at);
    Got(t.decode(raw), next)
  }

  function GetReason<T>(t: TextCodec<T>, bytes: seq<Byte>, at: nat): Read<CloseReason<T>> {
    var (tag, next) :- GetVarint(bytes, at);
    if tag == 0 then Got(NormalClose, next)
    else if tag == 1 then Got(ServerGone, next)
    else if tag == 2 then Got(ClientGone, next)
    else if tag == 3 then Got(Stuck, next)
    else if tag == 4 then Got(RelayShutdown, next)
    else
      var (message, end) :- GetText(t, bytes, next);
      Got(Rejected(message), end)
  }

  function GetControl<T>(t: TextCodec<T>, bytes: seq<Byte>, at: nat): Read<Message<T>> {
    var (kind, next) :- GetVarint(bytes, at);
    if kind == CTRL_SERVER_REGISTER then
      var (serverId, a) :- GetUuid(bytes, next);
      var (_, b) :- GetByteArray(bytes, a);
      var (_, c) :- GetByteArray(bytes, b);
      Got(ServerRegister(serverId), c)
    else if kind == CTRL_SERVER_REGISTER_OK then Got(ServerRegisterOk, next)
    else if kind == CTRL_SERVER_REGISTER_ERR then
      var (reason, a) :- GetText(t, bytes, next);
      Got(ServerRegisterErr(reason), a)
    else if kind == CTRL_SERVER_HEARTBEAT then Got(ServerHeartbeat, next)
    else if kind == CTRL_CLIENT_CONNECT then
      var (serverId, a) :- GetUuid(bytes, next);
      Got(ClientConnect(serverId), a)
    else if kind == CTRL_PAIR_INBOUND then
      var (pairId, a) :- GetUuid(bytes, next);
      Got(PairInbound(pairId), a)
    else if kind == CTRL_PAIR_OPEN then
      var (pairId, a) :- GetUuid(bytes, next);
      Got(PairOpen(pairId), a)
    else if kind == CTRL_PAIR_CLOSE then
      var (pairId, a) :- GetUuid(bytes, next);
      var (reason, b) :- GetReason(t, bytes, a);
      Got(PairClose(pairId, reason), b)
    else Bad
  }

  function GetData<T>(bytes: seq<Byte>, at: nat): Read<Message<T>> {
    var (kind, next) :- GetVarint(bytes, at);
    if kind != 0 then Bad
    else
      var (pairId, a) :- GetUuid(bytes, next);
      var (payload, b) :- GetByteArray(bytes, a);
      Got(DataForward(pairId, payload), b)
  }

  /** A whole frame. Bytes after the message are not looked at. */
  function GetMessage<T>(t: TextCodec<T>, bytes: seq<Byte>): Read<Message<T>> {
    var (disc, next) :- GetByte(bytes, 0);
    if disc == RELAY_DISC_CTRL then GetControl(t, bytes, next)
    else if disc == RELAY_DISC_DATA then GetData(bytes, next)
    else Bad
  }

  // ----- The cursor of the source

  /** A read as a method reports it: the value, with the cursor moved; or nothing, for an exception. */
  ghost predicate Reads<V>(r: Option<V>, offset: nat, spec: Read<V>) {
    match spec
    case Got(v, next) => r == Some(v) && offset == next
    case Bad => r.None?
  }

  class Cursor {
    const bytes: seq<Byte>
    var offset: nat

    constructor (bytes: seq<Byte>)
      ensures this.bytes == bytes && offset == 0
    {
      this.bytes := bytes;
      offset := 0;
    }

    method ReadByte() returns (r: Option<Byte>)
      modifies this
      ensures Reads(r, offset, GetByte(bytes, old(offset)))
    {
      if offset >= |bytes| {
        return None;
      }
      r := Some(bytes[offset]);
      offset := offset + 1;
    }

    method ReadBytes(length: nat) returns (r: Option<seq<Byte>>)
      modifies this
      ensures Reads(r, offset, GetBytes(bytes, old(offset), length))
    {
      if offset + length > |bytes| {
        return None;
      }
      r := Some(bytes[offset..offset + length]);
      offset := offset + length;
    }

    method ReadVarint() returns (r: Option<nat>)
      modifies this
      ensures Reads(r, offset, GetVarint(bytes, old(offset)))
    {
      var value: nat := 0;
      var shift: nat := 0;
      while true
        invariant GetVarint(bytes, old(offset)) == GetVarintFrom(bytes, offset, value, shift)
        decreases |bytes| - offset
      {
        var byte := ReadByte();
        if byte.None? {
          return None;
        }
        value := value + Scaled(byte.value % 0x80, shift);
        if byte.value < 0x80 {
          return Some(value);
        }
        shift := shift + 7;
        if shift > 49 {
          return None;
        }
      }
    }

    method ReadByteArray() returns (r: Option<seq<Byte>>)
      modifies this
      ensures Reads(r, offset, GetByteArray(bytes, old(offset)))
    {
      var length := ReadVarint();
      if length.None? {
        return None;
      }
      r := ReadBytes(length.value);
    }

    method ReadUuid() returns (r: Option<string>)
      modifies this
      ensures Reads(r, offset, GetUuid(bytes, old(offset)))
    {
      var raw := ReadByteArray();
      if raw.None? || |raw.value| != 16 {
        return None;
      }
      r := Some(Uuid.FromBytes(raw.value));
    }

    method ReadText<T>(t: TextCodec<T>) returns (r: Option<T>)
      modifies this
      ensures Reads(r, offset, GetText(t, bytes, old(offset)))
    {
      var raw := ReadByteArray();
      if raw.None? {
        return None;
      }
      r := Some(t.decode(raw.value));
    }
  }

  method DecodeReason<T>(t: TextCodec<T>, cursor: Cursor) returns (r: Option<CloseReason<T>>)
    modifies cursor
    ensures Reads(r, cursor.offset, GetReason(t, cursor.bytes, old(cursor.offset)))
  {
    var tag := cursor.ReadVarint();
    if tag.None? {
      return None;
    }
    if tag.value == 0 {
      return Some(NormalClose);
    } else if tag.value == 1 {
      return Some(ServerGone);
    } else if tag.value == 2 {
      return Some(ClientGone);
    } else if tag.value == 3 {
      return Some(Stuck);
    } else if tag.value == 4 {
      return Some(RelayShutdown);
    }
    var message := cursor.ReadText(t);
    if message.None? {
      return None;
    }
    return Some(Rejected(message.value));
  }

  method DecodeControl<T>(t: TextCodec<T>, cursor: Cursor) returns (r: Option<Message<T>>)
    modifies cursor
    ensures Reads(r, cursor.offset, GetControl(t, cursor.bytes, old(cursor.offset)))
  {
    hide GetUuid, GetText, GetByteArray, GetReason, GetVarint;
    var kind := cursor.ReadVarint();
    if kind.None? {
      return None;
    }
    if kind.value == CTRL_SERVER_REGISTER {
      var serverId := cursor.ReadUuid();
      if serverId.None? {
        return None;
      }
      var first := cursor.ReadByteArray();
      if first.None? {
        return None;
      }
      var second := cursor.ReadByteArray();
      if second.None? {
        return None;
      }
      return Some(ServerRegister(serverId.value));
    } else if kind.value == CTRL_SERVER_REGISTER_OK {
      return Some(ServerRegisterOk);
    } else if kind.value == CTRL_SERVER_REGISTER_ERR {
      var reason := cursor.ReadText(t);
      return if reason.None? then None else Some(ServerRegisterErr(reason.value));
    } else if kind.value == CTRL_SERVER_HEARTBEAT {
      return Some(ServerHeartbeat);
    } else if kind.value == CTRL_CLIENT_CONNECT {
      var serverId := cursor.ReadUuid();
      return if serverId.None? then None else Some(ClientConnect(serverId.value));
    } else if kind.value == CTRL_PAIR_INBOUND {
      var pairId := cursor.ReadUuid();
      return if pairId.None? then None else Some(PairInbound(pairId.value));
    } else if kind.value == CTRL_PAIR_OPEN {
      var pairId := cursor.ReadUuid();
      return if pairId.None? then None else Some(PairOpen(pairId.value));
    } else if kind.value == CTRL_PAIR_CLOSE {
      var pairId := cursor.ReadUuid();
      if pairId.None? {
        return None;
      }
      var reason := DecodeReason(t, cursor);
      return if reason.None? then None else Some(PairClose(pairId.value, reason.value));
    }
    return None;
  }

  method DecodeRelay<T>(t: TextCodec<T>, bytes: seq<Byte>) returns (r: Option<Message<T>>)
    ensures r == Decoded(t, bytes)
  {
    hide GetUuid, GetByteArray, GetControl, GetVarint;
    var cursor := new Cursor(bytes);
    var disc := cursor.ReadByte();
    if disc.None? {
      return None;
    }
    if disc.value == RELAY_DISC_CTRL {
      r := DecodeControl(t, cursor);
    } else if disc.value == RELAY_DISC_DATA {
      var kind := cursor.ReadVarint();
      if kind.None? || kind.value != 0 {
        return None;
      }
      var pairId := cursor.ReadUuid();
      if pairId.None? {
        return None;
      }
      var payload := cursor.ReadByteArray();
      return if payload.None? then None else Some(DataForward(pairId.value, payload.value));
    } else {
      return None;
    }
  }

  /** What a frame decodes to. */
  function Decoded<T>(t: TextCodec<T>, bytes: seq<Byte>): Option<Message<T>> {
    match GetMessage(t, bytes)
    case Got(m, _) => Some(m)
    case Bad => None
  }

  // ----- Round trips

  lemma {:induction false} Power2Add(a: nat, b: nat)
    ensures Power2(a + b) == Power2(a) * Power2(b)
  {
    if a > 0 {
      Power2Add(a - 1, b);
    }
  }

  lemma Power2Of7(n: nat)
    ensures Power2(n + 7) == 128 * Power2(n)
  {
    Power2Add(7, n);
    assert Power2(7) == 128;
  }

  lemma SplitProduct(v: nat, p: nat)
    ensures v % 128 * p + v / 128 * (128 * p) == v * p
  {
    assert v == v / 128 * 128 + v % 128;
  }

  /** A number is read back at any offset; the shift limit is never hit below 2^56. */
  lemma {:induction false} VarintReadBack(bytes: seq<Byte>, at: nat, v: nat, value: nat, shift: nat)
    requires at + |VarintBytes(v)| <= |bytes|
    requires bytes[at..at + |VarintBytes(v)|] == VarintBytes(v)
    requires shift <= 49 && shift % 7 == 0 && v < Power2(56 - shift)
    ensures GetVarintFrom(bytes, at, value, shift) == Got(value + Scaled(v, shift), at + |VarintBytes(v)|)
    decreases v
  {
    VarintHead(bytes, at, v);
    VarintRead(bytes, at, value, shift);
    hide VarintBytes, GetVarintFrom, Power2, Scaled;
    if v >= 0x80 {
      RoomForMore(v, shift);
      VarintReadBack(bytes, at + 1, v / 0x80, value + Scaled(v % 0x80, shift), shift + 7);
      SumOfDigits(v, shift);
    }
  }

  lemma VarintHead(bytes: seq<Byte>, at: nat, v: nat)
    requires at + |VarintBytes(v)| <= |bytes|
    requires bytes[at..at + |VarintBytes(v)|] == VarintBytes(v)
    ensures if v < 0x80 then bytes[at] == v && |VarintBytes(v)| == 1 else
              var rest := VarintBytes(v / 0x80);
              && bytes[at] >= 0x80 && bytes[at] % 0x80 == v % 0x80
              && |VarintBytes(v)| == 1 + |rest|
              && bytes[at + 1..at + 1 + |rest|] == rest
  {
    var enc := VarintBytes(v);
    VarintStep(v);
    assert bytes[at] == enc[0] by { assert bytes[at..at + |enc|][0] == bytes[at]; }
    if v >= 0x80 {
      assert bytes[at..at + |enc|][1..] == enc[1..] == VarintBytes(v / 0x80);
    }
  }

  lemma SumOfDigits(v: nat, shift: nat)
    ensures Scaled(v % 0x80, shift) + Scaled(v / 0x80, shift + 7) == Scaled(v, shift)
  {
    Power2Of7(shift);
    SplitProduct(v, Power2(shift));
  }

  lemma VarintRead(bytes: seq<Byte>, at: nat, value: nat, shift: nat)
    requires at < |bytes|
    ensures var sum := value + Scaled(bytes[at] % 0x80, shift);
            GetVarintFrom(bytes, at, value, shift)
            == if bytes[at] < 0x80 then Got(sum, at + 1)
               else if shift + 7 > 49 then Bad
               else GetVarintFrom(bytes, at + 1, sum, shift + 7)
  {
  }

  lemma RoomForMore(v: nat, shift: nat)
    requires v >= 0x80 && shift <= 49 && shift % 7 == 0 && v < Power2(56 - shift)
    ensures shift + 7 <= 49 && v / 0x80 < Power2(56 - (shift + 7))
  {
    assert shift != 49 by { assert Power2(7) == 128; }
    Power2Of7(56 - shift - 7);
  }

  /** Every safe integer survives the varint form. */
  lemma VarintRoundTrip(before: seq<Byte>, v: nat, after: seq<Byte>)
    requires v <= MAX_SAFE_INTEGER
    ensures GetVarint(before + VarintBytes(v) + after, |before|) == Got(v, |before| + |VarintBytes(v)|)
  {
    Power2Is56();
    assert (before + VarintBytes(v) + after)[|before|..|before| + |VarintBytes(v)|] == VarintBytes(v);
    VarintReadBack(before + VarintBytes(v) + after, |before|, v, 0, 0);
    assert Power2(0) == 1;
  }

  lemma Power2Is56()
    ensures Power2(56) > MAX_SAFE_INTEGER
  {
    assert Power2(7) == 128;
    Power2Add(7, 7);
    Power2Add(14, 14);
    Power2Add(28, 28);
  }

  lemma ByteArrayRoundTrip(before: seq<Byte>, b: seq<Byte>, after: seq<Byte>)
    requires |b| <= MAX_SAFE_INTEGER
    ensures GetByteArray(before + ByteArray(b) + after, |before|) == Got(b, |before| + |ByteArray(b)|)
  {
    var whole := before + ByteArray(b) + after;
    var head := VarintBytes(|b|);
    assert whole == before + head + (b + after);
    VarintRoundTrip(before, |b|, b + after);
    assert whole[|before| + |head|..|before| + |head| + |b|] == b;
  }

  lemma UuidRoundTrip(before: seq<Byte>, uuid: string, after: seq<Byte>)
    requires Uuid.IsCanonical(uuid)
    ensures GetUuid(before + UuidBytes(uuid) + after, |before|) == Got(uuid, |before| + |UuidBytes(uuid)|)
  {
    ByteArrayRoundTrip(before, Uuid.ToBytes(uuid), after);
    Uuid.TextRoundTrip(uuid);
  }

  /** Do the texts in a message survive the platform's encoder and decoder? */
  predicate TextsSurvive<T(==)>(t: TextCodec<T>, m: Message<T>) {
    && (m.ServerRegisterErr? ==> t.decode(t.encode(m.reason)) == m.reason)
    && (m.PairClose? && m.why.Rejected? ==> t.decode(t.encode(m.why.message)) == m.why.message)
  }

  /** Array lengths are JavaScript numbers. */
  predicate LengthsAreSafe<T>(t: TextCodec<T>, m: Message<T>) {
    && (m.ServerRegisterErr? ==> |t.encode(m.reason)| <= MAX_SAFE_INTEGER)
    && (m.PairClose? && m.why.Rejected? ==> |t.encode(m.why.message)| <= MAX_SAFE_INTEGER)
    && (m.DataForward? ==> |m.bytes| <= MAX_SAFE_INTEGER)
  }

  /** What a message comes back as: itself, with its texts decoded from their encodings. */
  function Returned<T>(t: TextCodec<T>, m: Message<T>): Message<T> {
    match m
    case ServerRegisterErr(reason) => ServerRegisterErr(t.decode(t.encode(reason)))
    case PairClose(pairId, Rejected(message)) => PairClose(pairId, Rejected(t.decode(t.encode(message))))
    case _ => m
  }

  lemma ReasonRoundTrip<T>(t: TextCodec<T>, before: seq<Byte>, pairId: string, why: CloseReason<T>)
    requires why.Rejected? ==> |t.encode(why.message)| <= MAX_SAFE_INTEGER
    ensures GetReason(t, before + ReasonBytes(t, why), |before|)
            == Got(Returned(t, PairClose(pairId, why)).why, |before + ReasonBytes(t, why)|)
  {
    if why.Rejected? {
      RejectedRoundTrip(t, before, why.message);
    } else {
      var tag := match why
        case NormalClose => 0
        case ServerGone => 1
        case ClientGone => 2
        case Stuck => 3
        case RelayShutdown => 4
        case Rejected(_) => 5;
      assert ReasonBytes(t, why) == VarintBytes(tag);
      VarintRoundTrip(before, tag, []);
      hide VarintBytes, GetVarint, ReasonBytes;
      assert before + ReasonBytes(t, why) + [] == before + ReasonBytes(t, why);
    }
  }

  lemma RejectedRoundTrip<T>(t: TextCodec<T>, before: seq<Byte>, message: T)
    requires |t.encode(message)| <= MAX_SAFE_INTEGER
    ensures var bytes := before + ReasonBytes(t, Rejected(message));
            GetReason(t, bytes, |before|) == Got(Rejected(t.decode(t.encode(message))), |bytes|)
  {
    var head, rest := before + VarintBytes(5), ByteArray(t.encode(message));
    VarintRoundTrip(before, 5, rest);
    ByteArrayRoundTrip(head, t.encode(message), []);
    hide VarintBytes, ByteArray, GetVarint, GetByteArray;
    assert before + (VarintBytes(5) + rest) == head + rest && head + rest + [] == head + rest;
  }

  /**
   Every message the relay can send is decoded back from its frame, using up the whole frame;
   it comes back unchanged exactly when the platform's text decoder undoes its encoder on the
   texts it carries.
   */
  lemma RelayRoundTrip<T>(t: TextCodec<T>, m: Message<T>)
    requires Sendable(m) && EncodeRelay(t, m).Some? && LengthsAreSafe(t, m)
    ensures var frame := EncodeRelay(t, m).value;
            && GetMessage(t, frame) == Got(Returned(t, m), |frame|)
            && (Decoded(t, frame) == Some(m) <==> TextsSurvive(t, m))
  {
    hide VarintBytes, GetVarint, GetByteArray, GetUuid, GetReason, ByteArray, UuidBytes, ReasonBytes;
    var frame := EncodeRelay(t, m).value;
    var disc: seq<Byte> := [if m.DataForward? then RELAY_DISC_DATA else RELAY_DISC_CTRL];
    var kind := match m
      case ServerRegisterOk => 1
      case ServerRegisterErr(_) => 2
      case PairInbound(_) => 5
      case PairOpen(_) => 6
      case PairClose(_, _) => 7
      case _ => 0;
    var head := disc + VarintBytes(kind);
    match m
    case ServerRegisterOk =>
      VarintRoundTrip(disc, kind, []);
      assert head + [] == frame;
    case ServerRegisterErr(reason) =>
      VarintRoundTrip(disc, kind, ByteArray(t.encode(reason)));
      ByteArrayRoundTrip(head, t.encode(reason), []);
      assert frame + [] == frame;
    case PairInbound(pairId) => UuidFrame(disc, kind, pairId, frame);
    case PairOpen(pairId) => UuidFrame(disc, kind, pairId, frame);
    case PairClose(pairId, why) =>
      var tail := ReasonBytes(t, why);
      UuidThen(disc, kind, pairId, tail, frame);
      ReasonRoundTrip(t, head + UuidBytes(pairId), pairId, why);
    case DataForward(pairId, bytes) =>
      UuidThen(disc, kind, pairId, ByteArray(bytes), frame);
      ByteArrayRoundTrip(head + UuidBytes(pairId), bytes, []);
      assert frame + [] == frame;
  }

  lemma UuidThen(disc: seq<Byte>, kind: nat, pairId: string, tail: seq<Byte>, frame: seq<Byte>)
    requires |disc| == 1 && kind < 8 && Uuid.IsCanonical(pairId)
    requires frame == disc + VarintBytes(kind) + UuidBytes(pairId) + tail
    ensures var head := disc + VarintBytes(kind);
            && GetVarint(frame, 1) == Got(kind, |head|)
            && GetUuid(frame, |head|) == Got(pairId, |head + UuidBytes(pairId)|)
  {
    hide VarintBytes, UuidBytes, GetVarint, GetUuid;
    VarintRoundTrip(disc, kind, UuidBytes(pairId) + tail);
    assert disc + VarintBytes(kind) + (UuidBytes(pairId) + tail) == frame;
    UuidRoundTrip(disc + VarintBytes(kind), pairId, tail);
  }

  lemma UuidFrame(disc: seq<Byte>, kind: nat, pairId: string, frame: seq<Byte>)
    requires |disc| == 1 && kind < 8 && Uuid.IsCanonical(pairId)
    requires frame == disc + VarintBytes(kind) + UuidBytes(pairId)
    ensures var head := disc + VarintBytes(kind);
            && GetVarint(frame, 1) == Got(kind, |head|)
            && GetUuid(frame, |head|) == Got(pairId, |frame|)
  {
    assert frame + [] == frame;
    UuidThen(disc, kind, pairId, [], frame);
  }

  // ----- With the platform's text encoder and decoder

  const PLATFORM: TextCodec<PlatformText.Text> := TextCodec(t => PlatformText.Encode(t), bytes => PlatformText.Decode(bytes))

  /** The text a message carries, if it carries any. */
  function Carried<T>(m: Message<T>): Option<T> {
    match m
    case ServerRegisterErr(reason) => Some(reason)
    case PairClose(_, Rejected(message)) => Some(message)
    case _ => None
  }

  /**
   On the platform every message the relay can send comes back unchanged if and only if the text
   it carries is well-formed and does not begin with U+FEFF.
   */
  lemma PlatformRoundTrip(m: Message<PlatformText.Text>)
    requires Sendable(m) && EncodeRelay(PLATFORM, m).Some? && LengthsAreSafe(PLATFORM, m)
    ensures Decoded(PLATFORM, EncodeRelay(PLATFORM, m).value) == Some(m)
            <==> (Carried(m).Some? ==> PlatformText.WellFormed(Carried(m).value) && !PlatformText.StartsWithMark(Carried(m).value))
  {
    RelayRoundTrip(PLATFORM, m);
    if Carried(m).Some? {
      PlatformText.TextRoundTrip(Carried(m).value);
    }
    hide Decoded, EncodeRelay, PlatformText.WellFormed, PlatformText.Encode, PlatformText.Decode;
  }

  /**
   So of the messages decoded from a frame, whose texts are always well-formed, only those change
   on the way on whose text begins with U+FEFF.
   */
  lemma RelayedRoundTrip(bytes: seq<Byte>, m: Message<PlatformText.Text>)
    requires Decoded(PLATFORM, bytes) == Some(m)
    requires Sendable(m) && EncodeRelay(PLATFORM, m).Some? && LengthsAreSafe(PLATFORM, m)
    ensures Decoded(PLATFORM, EncodeRelay(PLATFORM, m).value) == Some(m)
            <==> (Carried(m).Some? ==> !PlatformText.StartsWithMark(Carried(m).value))
  {
    PlatformRoundTrip(m);
    if Carried(m).Some? {
      var text := DecodedText(bytes, m);
      PlatformText.DecodedIsWellFormed(text);
    }
    hide Decoded, EncodeRelay, PlatformText.WellFormed, PlatformText.Encode, PlatformText.Decode;
  }

  /** A text in a decoded message was decoded from bytes of the frame. */
  lemma DecodedText(bytes: seq<Byte>, m: Message<PlatformText.Text>) returns (text: seq<Byte>)
    requires Decoded(PLATFORM, bytes) == Some(m) && Carried(m).Some?
    ensures Carried(m).value == PlatformText.Decode(text)
  {
    hide GetVarint, GetByteArray, GetUuid, PlatformText.Decode;
    text :| Carried(m).value == PlatformText.Decode(text);
  }

  const MARKED: PlatformText.Text := [0xFEFF, 0x6e, 0x6f]

  /** A rejection with the text U+FEFF `no` goes out with the mark and is read without it. */
  lemma MarkIsDropped(pairId: string)
    requires Uuid.IsCanonical(pairId)
    ensures var m := PairClose(pairId, Rejected(MARKED));
            && Sendable(m) && EncodeRelay(PLATFORM, m).Some?
            && Decoded(PLATFORM, EncodeRelay(PLATFORM, m).value) == Some(PairClose(pairId, Rejected([0x6e, 0x6f])))
  {
    var m := PairClose(pairId, Rejected(MARKED));
    assert PlatformText.Encode(MARKED) == [0xEF, 0xBB, 0xBF, 0x6e, 0x6f] by { MarkedBytes(); }
    RelayRoundTrip(PLATFORM, m);
    PlatformText.DecodeEncode(MARKED);
    assert PlatformText.Units(PlatformText.Scalars([0x6e, 0x6f])) == [0x6e, 0x6f] by {
      PlatformText.RepairKeepsWellFormed([0x6e, 0x6f]);
      PlainIsWellFormed();
    }
    assert MARKED[1..] == [0x6e, 0x6f];
    hide Decoded, EncodeRelay, PlatformText.Encode, PlatformText.Decode, PlatformText.Units, PlatformText.Scalars;
  }

  lemma PlainIsWellFormed()
    ensures PlatformText.WellFormed([0x6e, 0x6f])
  {
    assert [0x6e, 0x6f][1..] == [0x6f] && [0x6f][1..] == [];
  }

  lemma MarkedBytes()
    ensures PlatformText.Encode(MARKED) == [0xEF, 0xBB, 0xBF, 0x6e, 0x6f]
  {
    PlatformText.MarkInBytes(MARKED);
    assert MARKED[1..] == [0x6e, 0x6f] && [0x6e, 0x6f][1..] == [0x6f] && [0x6f][1..] == [];
    assert PlatformText.Scalars([0x6e, 0x6f]) == [0x6e, 0x6f] by {
      assert PlatformText.Scalars([0x6f]) == [0x6f];
    }
    assert PlatformText.EncodeScalars([0x6e, 0x6f]) == [0x6e, 0x6f] by {
      assert PlatformText.EncodeScalars([0x6f]) == [0x6f];
    }
  }

  /** Such a text can reach the worker: in a frame that carries the mark twice. */
  lemma MarkCanArrive(pairId: string) returns (frame: seq<Byte>)
    requires Uuid.IsCanonical(pairId)
    ensures Decoded(PLATFORM, frame) == Some(PairClose(pairId, Rejected(MARKED)))
  {
    var twice: PlatformText.Text := [0xFEFF] + MARKED;
    var m := PairClose(pairId, Rejected(twice));
    TwiceMarked();
    hide PlatformText.Encode, PlatformText.Decode;
    RelayRoundTrip(PLATFORM, m);
    hide Decoded;
    frame := EncodeRelay(PLATFORM, m).value;
  }

  lemma TwiceMarked()
    ensures PlatformText.Decode(PlatformText.Encode([0xFEFF] + MARKED)) == MARKED
    ensures |PlatformText.Encode([0xFEFF] + MARKED)| == 8
  {
    var twice: PlatformText.Text := [0xFEFF] + MARKED;
    assert twice[1..] == MARKED;
    MarkedBytes();
    PlatformText.MarkInBytes(twice);
    PlatformText.DecodeEncode(twice);
    MarkedIsWellFormed();
    hide PlatformText.Encode, PlatformText.Decode, PlatformText.Units, PlatformText.Scalars, PlatformText.WellFormed;
    PlatformText.RepairKeepsWellFormed(MARKED);
  }

  lemma MarkedIsWellFormed()
    ensures PlatformText.WellFormed(MARKED)
  {
    assert MARKED[1..] == [0x6e, 0x6f];
    PlainIsWellFormed();
  }

  // ----- The frames, byte by byte

  /** Numbers below 128 take one byte; the others their last seven bits first, marked as not the last. */
  lemma VarintForm(v: nat)
    ensures v < 128 ==> VarintBytes(v) == [v]
    ensures v >= 128 ==> VarintBytes(v) == [128 + v % 128] + VarintBytes(v / 128)
    ensures VarintBytes(300) == [0xac, 0x02] && VarintBytes(16384) == [0x80, 0x80, 0x01]
  {
    VarintStep(v);
    VarintStep(300);
    VarintStep(2);
    VarintStep(16384);
    VarintStep(128);
    VarintStep(1);
    hide VarintBytes;
    assert VarintBytes(16384) == [0x80] + ([0x80] + [0x01]);
  }

  lemma SmallVarint(v: nat)
    requires v < 128
    ensures VarintBytes(v) == [v]
  {
  }

  /** The form of each frame the relay sends: discriminator, kind, the sixteen bytes of the pair, and the rest. */
  lemma SentFrames<T>(t: TextCodec<T>, m: Message<T>)
    requires Sendable(m) && EncodeRelay(t, m).Some?
    ensures var frame := EncodeRelay(t, m).value;
            match m
            case ServerRegisterOk => frame == [0x01, 0x01]
            case ServerRegisterErr(reason) => frame == [0x01, 0x02] + (VarintBytes(|t.encode(reason)|) + t.encode(reason))
            case PairInbound(p) => frame == [0x01, 0x05, 0x10] + Uuid.ToBytes(p)
            case PairOpen(p) => frame == [0x01, 0x06, 0x10] + Uuid.ToBytes(p)
            case PairClose(p, why) => frame == [0x01, 0x07, 0x10] + Uuid.ToBytes(p) + ReasonForm(t, why)
            case DataForward(p, bytes) => frame == [0x02, 0x00, 0x10] + Uuid.ToBytes(p) + (VarintBytes(|bytes|) + bytes)
            case _ => false
  {
    SmallVarint(0);
    SmallVarint(1);
    SmallVarint(2);
    SmallVarint(5);
    SmallVarint(6);
    SmallVarint(7);
    SmallVarint(16);
    match m
    case PairInbound(p) => PairHead(0x01, 5, p);
    case PairOpen(p) => PairHead(0x01, 6, p);
    case PairClose(p, why) =>
      PairHead(0x01, 7, p);
      ReasonForms(t, why);
    case DataForward(p, bytes) => PairHead(0x02, 0, p);
    case _ =>
    hide VarintBytes, Uuid.ToBytes, ReasonBytes, ReasonForm;
  }

  lemma PairHead(disc: Byte, kind: nat, p: string)
    requires kind < 128 && Uuid.IsCanonical(p)
    ensures [disc] + VarintBytes(kind) + UuidBytes(p) == [disc, kind, 0x10] + Uuid.ToBytes(p)
  {
    SmallVarint(kind);
    SmallVarint(16);
    hide Uuid.ToBytes, VarintBytes;
    assert [disc] + [kind] + ([0x10] + Uuid.ToBytes(p)) == [disc, kind, 0x10] + Uuid.ToBytes(p);
  }

  /** The reasons by their numbers; a rejection carries its text. */
  function ReasonForm<T>(t: TextCodec<T>, why: CloseReason<T>): seq<Byte> {
    match why
    case NormalClose => [0x00]
    case ServerGone => [0x01]
    case ClientGone => [0x02]
    case Stuck => [0x03]
    case RelayShutdown => [0x04]
    case Rejected(message) => [0x05] + (VarintBytes(|t.encode(message)|) + t.encode(message))
  }

  lemma ReasonForms<T>(t: TextCodec<T>, why: CloseReason<T>)
    ensures ReasonBytes(t, why) == ReasonForm(t, why)
  {
    SmallVarint(0);
    SmallVarint(1);
    SmallVarint(2);
    SmallVarint(3);
    SmallVarint(4);
    SmallVarint(5);
    hide VarintBytes;
  }

  /** What the relay only receives: a registration with its two further arrays, a heartbeat, a client's request. */
  lemma ReceivedFrames<T>(t: TextCodec<T>, serverId: string, a: seq<Byte>, b: seq<Byte>)
    requires Uuid.IsCanonical(serverId) && |a| <= MAX_SAFE_INTEGER && |b| <= MAX_SAFE_INTEGER
    ensures Decoded(t, [0x01, 0x00, 0x10] + Uuid.ToBytes(serverId) + ByteArray(a) + ByteArray(b)) == Some(ServerRegister(serverId))
    ensures Decoded(t, [0x01, 0x03]) == Some(ServerHeartbeat)
    ensures Decoded(t, [0x01, 0x04, 0x10] + Uuid.ToBytes(serverId)) == Some(ClientConnect(serverId))
  {
    RegisterIsRead(t, serverId, a, b);
    ConnectIsRead(t, serverId);
    HeartbeatIsRead(t);
  }

  lemma HeartbeatIsRead<T>(t: TextCodec<T>)
    ensures Decoded(t, [0x01, 0x03]) == Some(ServerHeartbeat)
  {
    SmallVarint(3);
    VarintRoundTrip([0x01], 3, []);
    hide VarintBytes, GetVarint;
    assert [0x01] + [0x03] + [] == [0x01, 0x03];
  }

  lemma ConnectIsRead<T>(t: TextCodec<T>, serverId: string)
    requires Uuid.IsCanonical(serverId)
    ensures Decoded(t, [0x01, 0x04, 0x10] + Uuid.ToBytes(serverId)) == Some(ClientConnect(serverId))
  {
    PairHead(0x01, 4, serverId);
    var frame: seq<Byte> := [0x01] + VarintBytes(4) + UuidBytes(serverId);
    UuidFrame([0x01], 4, serverId, frame);
    hide VarintBytes, UuidBytes, GetVarint, GetUuid;
  }

  lemma RegisterIsRead<T>(t: TextCodec<T>, serverId: string, a: seq<Byte>, b: seq<Byte>)
    requires Uuid.IsCanonical(serverId) && |a| <= MAX_SAFE_INTEGER && |b| <= MAX_SAFE_INTEGER
    ensures Decoded(t, [0x01, 0x00, 0x10] + Uuid.ToBytes(serverId) + ByteArray(a) + ByteArray(b)) == Some(ServerRegister(serverId))
  {
    PairHead(0x01, 0, serverId);
    RegisterParts([0x01] + VarintBytes(0), UuidBytes(serverId), serverId, a, b);
    UuidThen([0x01], 0, serverId, ByteArray(a) + ByteArray(b),
             [0x01] + VarintBytes(0) + UuidBytes(serverId) + (ByteArray(a) + ByteArray(b)));
    hide VarintBytes, UuidBytes, GetVarint, GetUuid, ByteArray, GetByteArray, Uuid.ToBytes;
    var front := [0x01] + VarintBytes(0) + UuidBytes(serverId);
    assert front + (ByteArray(a) + ByteArray(b)) == front + ByteArray(a) + ByteArray(b);
  }

  lemma RegisterParts(head: seq<Byte>, uuid: seq<Byte>, serverId: string, a: seq<Byte>, b: seq<Byte>)
    requires |a| <= MAX_SAFE_INTEGER && |b| <= MAX_SAFE_INTEGER
    ensures var frame := head + uuid + ByteArray(a) + ByteArray(b);
            && GetByteArray(frame, |head + uuid|) == Got(a, |head + uuid| + |ByteArray(a)|)
            && GetByteArray(frame, |head + uuid| + |ByteArray(a)|) == Got(b, |frame|)
  {
    hide ByteArray, GetByteArray;
    var front := head + uuid;
    ByteArrayRoundTrip(front, a, ByteArray(b));
    ByteArrayRoundTrip(front + ByteArray(a), b, []);
    assert front + ByteArray(a) + ByteArray(b) + [] == front + ByteArray(a) + ByteArray(b);
  }
}
