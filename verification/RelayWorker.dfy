/**
 The relay's durable object (workers/relay-cloudflare/src/index.ts): one event at a time, it
 registers servers, pairs clients with them and forwards their payloads. `Next` is what each
 event does; the class below it is the handler code, proved to do that.
 */
module RelayWorker {
  import opened Base
  import opened RelayCodec
  import opened RateWindow

  datatype Limits = Limits(
    maxServers: nat, maxPairs: nat, maxBytesPerSec: nat, maxQueuedBytes: nat, idleSeconds: nat)

  /** What the runtime keeps with a socket. Progress times of sockets are never read back. */
  datatype Attachment =
    | ServerSocket(registered: bool, serverId: Option<string>)
    | ClientSocket(target: string, pairId: Option<string>)

  datatype Socket = Socket(id: nat, att: Attachment)

  datatype Pair = Pair(serverId: string, lastProgressAt: int, queuedBytes: nat, window: Window)

  type Relayed = Message<string>

  /** What a handler does to the outside. */
  datatype Effect =
    | Send(dest: nat, message: Relayed)
    | Payload(dest: nat, pairId: string, bytes: seq<Byte>)
    | Pong(dest: nat)
    | Shut(dest: nat)

  /** `out`, `began`, `bumps` and `clock` only record what has happened. */
  datatype Relay = Relay(
    sockets: seq<Socket>,
    pairs: map<string, Pair>,
    out: seq<Effect>,
    began: map<string, int>,
    bumps: map<string, seq<Bump>>,
    clock: int)

  datatype Event =
    | Connect(id: nat, att: Attachment)
    | Text(id: nat, isPing: bool)
    | Binary(id: nat, bytes: seq<Byte>, now: int, fresh_: string)
    | Closed(id: nat)
    | Gone(id: nat)
    | Sweep(pairId: string, now: int)

  // ----- Looking things up among the sockets

  predicate IsRegistered(s: Socket) {
    s.att.ServerSocket? && s.att.registered
  }

  predicate IsServer(s: Socket, serverId: string) {
    IsRegistered(s) && s.att.serverId == Some(serverId)
  }

  predicate IsClientOf(s: Socket, pairId: string) {
    s.att.ClientSocket? && s.att.pairId == Some(pairId)
  }

  function RegisteredCount(sockets: seq<Socket>): nat {
    if sockets == [] then 0
    else RegisteredCount(sockets[..|sockets| - 1]) + (if IsRegistered(sockets[|sockets| - 1]) then 1 else 0)
  }

  function FindServer(sockets: seq<Socket>, serverId: string): Option<nat>
    decreases |sockets|
  {
    if sockets == [] then None
    else if IsServer(sockets[0], serverId) then Some(sockets[0].id)
    else FindServer(sockets[1..], serverId)
  }

  function ClientsFor(sockets: seq<Socket>, pairId: string): seq<nat> {
    if sockets == [] then []
    else
      ClientsFor(sockets[..|sockets| - 1], pairId)
      + (if IsClientOf(sockets[|sockets| - 1], pairId) then [sockets[|sockets| - 1].id] else [])
  }

  function IndexOf(sockets: seq<Socket>, id: nat): (r: Option<nat>)
    ensures r.Some? ==> r.value < |sockets| && sockets[r.value].id == id
    decreases |sockets|
  {
    if sockets == [] then None
    else if sockets[|sockets| - 1].id == id then Some(|sockets| - 1)
    else IndexOf(sockets[..|sockets| - 1], id)
  }

  // ----- Effects of the helpers

  ghost function Emit(s: Relay, effects: seq<Effect>): Relay {
    s.(out := s.out + effects)
  }

  ghost function Attach(s: Relay, i: nat, att: Attachment): Relay
    requires i < |s.sockets|
  {
    s.(sockets := s.sockets[i := s.sockets[i].(att := att)])
  }

  function ToServer(server: Option<nat>, m: Relayed): seq<Effect> {
    if server.Some? then [Send(server.value, m)] else []
  }

  function Closings(ids: seq<nat>, pairId: string, why: CloseReason<string>): seq<Effect> {
    if ids == [] then []
    else Closings(ids[..|ids| - 1], pairId, why) + [Send(ids[|ids| - 1], PairClose(pairId, why)), Shut(ids[|ids| - 1])]
  }

  function Payloads(ids: seq<nat>, pairId: string, bytes: seq<Byte>): seq<Effect> {
    seq(|ids|, i requires 0 <= i < |ids| => Payload(ids[i], pairId, bytes))
  }

  /** `closePair`: the pair leaves the map; its clients, then its server, are told. */
  ghost function DoClosePair(s: Relay, pairId: string, why: CloseReason<string>): Relay {
    var told := Closings(ClientsFor(s.sockets, pairId), pairId, why);
    var server := if pairId in s.pairs then FindServer(s.sockets, s.pairs[pairId].serverId) else None;
    Emit(s.(pairs := s.pairs - {pairId}), told + ToServer(server, PairClose(pairId, why)))
  }

  /** `bumpRate`: the pair after an attempt, and whether it was let through. */
  function Bumped(l: Limits, pair: Pair, b: Bump): (Pair, bool) {
    var ok := Accepts(l.maxBytesPerSec, pair.window, b);
    (pair.(window := After(l.maxBytesPerSec, pair.window, b), lastProgressAt := if ok then b.at else pair.lastProgressAt), ok)
  }

  ghost function DoBump(l: Limits, s: Relay, pairId: string, b: Bump): Relay
    requires pairId in s.pairs
  {
    s.(pairs := s.pairs[pairId := Bumped(l, s.pairs[pairId], b).0],
       bumps := s.bumps[pairId := (if pairId in s.bumps then s.bumps[pairId] else []) + [b]])
  }

  // ----- Refusals

  datatype Refusal =
    | ServerIdMismatch
    | TooManyServers
    | DuplicateServer
    | NoServer
    | TooManyPairs
    | RateExceeded
    | QueueExceeded

  /** The text a refusal is sent with. */
  function Why(r: Refusal): string {
    match r
    case ServerIdMismatch => "server id URL/query mismatch"
    case TooManyServers => "max_servers exceeded"
    case DuplicateServer => "duplicate server registration"
    case NoServer => "target server not registered"
    case TooManyPairs => "max_pairs exceeded"
    case RateExceeded => "max_bytes_per_sec exceeded"
    case QueueExceeded => "max_queued_bytes exceeded"
  }

  // ----- The handlers

  ghost function Register(l: Limits, s: Relay, i: nat, m: Relayed): Relay
    requires i < |s.sockets| && s.sockets[i].att.ServerSocket?
  {
    var id, expected := s.sockets[i].id, s.sockets[i].att.serverId;
    if !m.ServerRegister? then Emit(s, [Shut(id)])
    else if expected.Some? && expected.value != m.serverId then
      Emit(s, [Send(id, ServerRegisterErr(Why(ServerIdMismatch))), Shut(id)])
    else if RegisteredCount(s.sockets) >= l.maxServers then
      Emit(s, [Send(id, ServerRegisterErr(Why(TooManyServers))), Shut(id)])
    else if FindServer(s.sockets, m.serverId).Some? then
      Emit(s, [Send(id, ServerRegisterErr(Why(DuplicateServer))), Shut(id)])
    else
      Emit(Attach(s, i, ServerSocket(true, Some(m.serverId))), [Send(id, ServerRegisterOk)])
  }

  ghost function FromServer(l: Limits, s: Relay, i: nat, m: Relayed, now: int): Relay
    requires i < |s.sockets|
  {
    var id := s.sockets[i].id;
    match m
    case ServerHeartbeat => s
    case PairClose(pairId, why) => DoClosePair(s, pairId, why)
    case DataForward(pairId, bytes) =>
      if pairId !in s.pairs then Emit(s, [Send(id, PairClose(pairId, ClientGone))])
      else
        var b := Bump(now, |bytes|);
        var after := DoBump(l, s, pairId, b);
        if !Accepts(l.maxBytesPerSec, s.pairs[pairId].window, b) then DoClosePair(after, pairId, Rejected(Why(RateExceeded)))
        else Emit(after, Payloads(ClientsFor(s.sockets, pairId), pairId, bytes))
    case _ => Emit(s, [Shut(id)])
  }

  ghost function Pairing(l: Limits, s: Relay, i: nat, m: Relayed, now: int, fresh_: string): Relay
    requires i < |s.sockets| && s.sockets[i].att.ClientSocket?
  {
    var id, target := s.sockets[i].id, s.sockets[i].att.target;
    if !m.ClientConnect? then Emit(s, [Shut(id)])
    else if m.serverId != target then Emit(s, [Shut(id)])
    else if FindServer(s.sockets, target).None? then
      Emit(s, [Send(id, PairClose(fresh_, Rejected(Why(NoServer)))), Shut(id)])
    else if |s.pairs| >= l.maxPairs then
      Emit(s, [Send(id, PairClose(fresh_, Rejected(Why(TooManyPairs)))), Shut(id)])
    else
      Emit(Attach(s, i, ClientSocket(target, Some(fresh_)))
             .(pairs := s.pairs[fresh_ := Pair(target, now, 0, Window(now, 0))],
               began := s.began[fresh_ := now], bumps := s.bumps[fresh_ := []]),
           [Send(FindServer(s.sockets, target).value, PairInbound(fresh_)), Send(id, PairOpen(fresh_))])
  }

  /** A client's payload: counted, queued, sent to the server and taken off the queue. */
  ghost function PassOn(l: Limits, s: Relay, pairId: string, bytes: seq<Byte>, now: int, server: nat): Relay
    requires pairId in s.pairs
  {
    var b := Bump(now, |bytes|);
    var after := DoBump(l, s, pairId, b);
    var queued := s.pairs[pairId].queuedBytes + |bytes|;
    if !Accepts(l.maxBytesPerSec, s.pairs[pairId].window, b) then DoClosePair(after, pairId, Rejected(Why(RateExceeded)))
    else if queued > l.maxQueuedBytes then
      DoClosePair(after.(pairs := after.pairs[pairId := after.pairs[pairId].(queuedBytes := queued)]), pairId,
                  Rejected(Why(QueueExceeded)))
    else
      Emit(after.(pairs := after.pairs[pairId := after.pairs[pairId].(queuedBytes := SatSub(queued, |bytes|))]),
           [Send(server, DataForward(pairId, bytes))])
  }

  /** A client's bytes, once it is paired. */
  ghost function FromClient(l: Limits, s: Relay, i: nat, m: Option<Relayed>, bytes: seq<Byte>, now: int): Relay
    requires i < |s.sockets| && s.sockets[i].att.ClientSocket? && s.sockets[i].att.pairId.Some?
  {
    var id, target, pairId := s.sockets[i].id, s.sockets[i].att.target, s.sockets[i].att.pairId.value;
    if pairId !in s.pairs then Emit(s, [Shut(id)])
    else if m.Some? && m.value.PairClose? then DoClosePair(s, m.value.pairId, m.value.why)
    else
      match FindServer(s.sockets, target)
      case None => DoClosePair(s, pairId, ServerGone)
      case Some(server) => PassOn(l, s, pairId, bytes, now, server)
  }

  /** A binary message. Where the source lets a decoding error escape, nothing happens. */
  ghost function OnBinary(l: Limits, t: TextCodec<string>, s: Relay, i: nat, bytes: seq<Byte>, now: int, fresh_: string): Relay
    requires i < |s.sockets|
  {
    var m := Decoded(t, bytes);
    match s.sockets[i].att
    case ServerSocket(registered, _) =>
      if m.None? then s else if !registered then Register(l, s, i, m.value) else FromServer(l, s, i, m.value, now)
    case ClientSocket(_, pairId) =>
      if pairId.Some? then FromClient(l, s, i, m, bytes, now)
      else if m.None? then s
      else Pairing(l, s, i, m.value, now, fresh_)
  }

  ghost function OnText(s: Relay, i: nat, isPing: bool): Relay
    requires i < |s.sockets|
  {
    if IsRegistered(s.sockets[i]) && isPing then Emit(s, [Pong(s.sockets[i].id)]) else Emit(s, [Shut(s.sockets[i].id)])
  }

  /** The clients of a server that went away are told and closed; their pairs stay until they close. */
  function Orphaned(sockets: seq<Socket>, serverId: string): seq<Effect> {
    if sockets == [] then []
    else
      var last := sockets[|sockets| - 1];
      Orphaned(sockets[..|sockets| - 1], serverId)
      + (if last.att.ClientSocket? && last.att.target == serverId then
           (if last.att.pairId.Some? then [Send(last.id, PairClose(last.att.pairId.value, ServerGone))] else [])
           + [Shut(last.id)]
         else [])
  }

  ghost function OnClose(s: Relay, i: nat): Relay
    requires i < |s.sockets|
  {
    match s.sockets[i].att
    case ServerSocket(registered, serverId) =>
      if registered && serverId.Some? then Emit(s, Orphaned(s.sockets, serverId.value)) else s
    case ClientSocket(target, pairId) =>
      if pairId.None? then s
      else
        Emit(s, ToServer(FindServer(s.sockets, target), PairClose(pairId.value, ClientGone)))
          .(pairs := s.pairs - {pairId.value})
  }

  predicate IsIdle(l: Limits, pair: Pair, now: int) {
    now - pair.lastProgressAt > l.idleSeconds * 1000
  }

  ghost function OnSweep(l: Limits, s: Relay, pairId: string, now: int): Relay {
    if pairId in s.pairs && IsIdle(l, s.pairs[pairId], now) then DoClosePair(s, pairId, Stuck) else s
  }

  ghost function Next(l: Limits, t: TextCodec<string>, s: Relay, e: Event): Relay {
    match e
    case Connect(id, att) => s.(sockets := s.sockets + [Socket(id, att)])
    case Text(id, isPing) =>
      (match IndexOf(s.sockets, id) case None => s case Some(i) => OnText(s, i, isPing))
    case Binary(id, bytes, now, fresh_) =>
      var s := s.(clock := now);
      (match IndexOf(s.sockets, id) case None => s case Some(i) => OnBinary(l, t, s, i, bytes, now, fresh_))
    case Closed(id) =>
      (match IndexOf(s.sockets, id) case None => s case Some(i) => OnClose(s, i))
    case Gone(id) =>
      (match IndexOf(s.sockets, id) case None => s case Some(i) => s.(sockets := s.sockets[..i] + s.sockets[i + 1..]))
    case Sweep(pairId, now) => OnSweep(l, s.(clock := now), pairId, now)
  }

  // ----- The code

  class RelaySession {
    const limits: Limits
    const text: TextCodec<string>
    var sockets: seq<Socket>
    var pairs: map<string, Pair>
    ghost var out: seq<Effect>
    ghost var began: map<string, int>
    ghost var bumps: map<string, seq<Bump>>
    ghost var clock: int

    constructor (limits: Limits, text: TextCodec<string>, ghost clock: int)
      ensures this.limits == limits && this.text == text
      ensures State() == Relay([], map[], [], map[], map[], clock)
    {
      this.limits, this.text := limits, text;
      sockets, pairs := [], map[];
      out, began, bumps, this.clock := [], map[], map[], clock;
    }

    ghost function State(): Relay
      reads this
    {
      Relay(sockets, pairs, out, began, bumps, clock)
    }

    method RegisteredServerCount() returns (n: nat)
      ensures n == RegisteredCount(sockets)
    {
      n := 0;
      for i := 0 to |sockets|
        invariant n == RegisteredCount(sockets[..i])
      {
        assert sockets[..i + 1][..i] == sockets[..i];
        if IsRegistered(sockets[i]) {
          n := n + 1;
        }
      }
      assert sockets[..|sockets|] == sockets;
    }

    method FindRegisteredServer(serverId: string) returns (r: Option<nat>)
      ensures r == FindServer(sockets, serverId)
    {
      assert sockets[0..] == sockets;
      for i := 0 to |sockets|
        invariant FindServer(sockets, serverId) == FindServer(sockets[i..], serverId)
      {
        assert sockets[i..][1..] == sockets[i + 1..];
        if IsServer(sockets[i], serverId) {
          return Some(sockets[i].id);
        }
      }
      return None;
    }

    method ClientsForPair(pairId: string) returns (ids: seq<nat>)
      ensures ids == ClientsFor(sockets, pairId)
    {
      ids := [];
      for i := 0 to |sockets|
        invariant ids == ClientsFor(sockets[..i], pairId)
      {
        assert sockets[..i + 1][..i] == sockets[..i];
        if IsClientOf(sockets[i], pairId) {
          ids := ids + [sockets[i].id];
        }
      }
      assert sockets[..|sockets|] == sockets;
    }

    /** Sends, payloads and closes may fail; nothing depends on whether they do. */
    method Perform(ghost effects: seq<Effect>)
      modifies this`out
      ensures State() == Emit(old(State()), effects)
    {
      out := out + effects;
    }

    method ClosePair(pairId: string, why: CloseReason<string>)
      modifies this`pairs, this`out
      ensures State() == DoClosePair(old(State()), pairId, why)
    {
      hide ClientsFor, FindServer;
      var pair := if pairId in pairs then Some(pairs[pairId]) else None;
      pairs := pairs - {pairId};
      var ids := ClientsForPair(pairId);
      for i := 0 to |ids|
        invariant pairs == old(pairs) - {pairId}
        invariant out == old(out) + Closings(ids[..i], pairId, why)
      {
        assert ids[..i + 1][..i] == ids[..i];
        Perform([Send(ids[i], PairClose(pairId, why)), Shut(ids[i])]);
      }
      assert ids[..|ids|] == ids;
      var server := None;
      if pair.Some? {
        server := FindRegisteredServer(pair.value.serverId);
      }
      Perform(ToServer(server, PairClose(pairId, why)));
    }

    method BumpRate(pairId: string, bytes: nat, now: int) returns (ok: bool)
      requires pairId in pairs
      modifies this`pairs, this`bumps
      ensures State() == DoBump(limits, old(State()), pairId, Bump(now, bytes))
      ensures ok == Accepts(limits.maxBytesPerSec, old(pairs[pairId].window), Bump(now, bytes))
    {
      var pair := pairs[pairId];
      var window := pair.window;
      if now - window.startedAt >= 1000 {
        window := Window(now, 0);
      }
      ok := window.bytes + bytes <= limits.maxBytesPerSec;
      if ok {
        pair := pair.(window := window.(bytes := window.bytes + bytes), lastProgressAt := now);
      } else {
        pair := pair.(window := window);
      }
      pairs := pairs[pairId := pair];
      bumps := bumps[pairId := (if pairId in bumps then bumps[pairId] else []) + [Bump(now, bytes)]];
    }

    method RegisterServer(i: nat, m: Relayed)
      requires i < |sockets| && sockets[i].att.ServerSocket? && !sockets[i].att.registered
      modifies this`sockets, this`out
      ensures State() == Register(limits, old(State()), i, m)
    {
      var id, expected := sockets[i].id, sockets[i].att.serverId;
      if !m.ServerRegister? {
        Perform([Shut(id)]);
        return;
      }
      if expected.Some? && expected.value != m.serverId {
        Perform([Send(id, ServerRegisterErr(Why(ServerIdMismatch))), Shut(id)]);
        return;
      }
      var count := RegisteredServerCount();
      if count >= limits.maxServers {
        Perform([Send(id, ServerRegisterErr(Why(TooManyServers))), Shut(id)]);
        return;
      }
      var existing := FindRegisteredServer(m.serverId);
      if existing.Some? {
        Perform([Send(id, ServerRegisterErr(Why(DuplicateServer))), Shut(id)]);
        return;
      }
      sockets := sockets[i := sockets[i].(att := ServerSocket(true, Some(m.serverId)))];
      Perform([Send(id, ServerRegisterOk)]);
    }

    method HandleServer(i: nat, m: Relayed, now: int)
      requires i < |sockets|
      modifies this`pairs, this`bumps, this`out
      ensures State() == FromServer(limits, old(State()), i, m, now)
    {
      var id := sockets[i].id;
      match m {
        case ServerHeartbeat =>
        case PairClose(pairId, why) =>
          ClosePair(pairId, why);
        case DataForward(pairId, bytes) =>
          if pairId !in pairs {
            Perform([Send(id, PairClose(pairId, ClientGone))]);
            return;
          }
          var ok := BumpRate(pairId, |bytes|, now);
          if !ok {
            ClosePair(pairId, Rejected(Why(RateExceeded)));
            return;
          }
          var ids := ClientsForPair(pairId);
          for k := 0 to |ids|
            invariant State() == Emit(DoBump(limits, old(State()), pairId, Bump(now, |bytes|)), Payloads(ids, pairId, bytes)[..k])
          {
            Perform([Payload(ids[k], pairId, bytes)]);
            assert Payloads(ids, pairId, bytes)[..k + 1] == Payloads(ids, pairId, bytes)[..k] + [Payload(ids[k], pairId, bytes)];
          }
          assert Payloads(ids, pairId, bytes)[..|ids|] == Payloads(ids, pairId, bytes);
        case _ =>
          Perform([Shut(id)]);
      }
    }

    method PairClient(i: nat, m: Relayed, now: int, fresh_: string)
      requires i < |sockets| && sockets[i].att.ClientSocket? && sockets[i].att.pairId.None?
      modifies this
      ensures State() == Pairing(limits, old(State()), i, m, now, fresh_)
    {
      var id, target := sockets[i].id, sockets[i].att.target;
      if !m.ClientConnect? || m.serverId != target {
        Perform([Shut(id)]);
        return;
      }
      var server := FindRegisteredServer(target);
      if server.None? {
        Perform([Send(id, PairClose(fresh_, Rejected(Why(NoServer)))), Shut(id)]);
        return;
      }
      if |pairs| >= limits.maxPairs {
        Perform([Send(id, PairClose(fresh_, Rejected(Why(TooManyPairs)))), Shut(id)]);
        return;
      }
      pairs := pairs[fresh_ := Pair(target, now, 0, Window(now, 0))];
      began, bumps := began[fresh_ := now], bumps[fresh_ := []];
      sockets := sockets[i := sockets[i].(att := ClientSocket(target, Some(fresh_)))];
      Perform([Send(server.value, PairInbound(fresh_)), Send(id, PairOpen(fresh_))]);
    }

    method HandleClient(i: nat, m: Option<Relayed>, bytes: seq<Byte>, now: int)
      requires i < |sockets| && sockets[i].att.ClientSocket? && sockets[i].att.pairId.Some?
      modifies this`pairs, this`bumps, this`out
      ensures State() == FromClient(limits, old(State()), i, m, bytes, now)
    {
      hide DoClosePair, PassOn;
      var id, target, pairId := sockets[i].id, sockets[i].att.target, sockets[i].att.pairId.value;
      if pairId !in pairs {
        Perform([Shut(id)]);
        return;
      }
      if m.Some? && m.value.PairClose? {
        ClosePair(m.value.pairId, m.value.why);
        return;
      }
      var server := FindRegisteredServer(target);
      if server.None? {
        ClosePair(pairId, ServerGone);
        return;
      }
      ForwardToServer(pairId, bytes, now, server.value);
    }

    method ForwardToServer(pairId: string, bytes: seq<Byte>, now: int, server: nat)
      requires pairId in pairs
      modifies this`pairs, this`bumps, this`out
      ensures State() == PassOn(limits, old(State()), pairId, bytes, now, server)
    {
      hide DoClosePair, Accepts, After;
      var ok := BumpRate(pairId, |bytes|, now);
      if !ok {
        ClosePair(pairId, Rejected(Why(RateExceeded)));
        return;
      }
      var pair := pairs[pairId];
      pairs := pairs[pairId := pair.(queuedBytes := pair.queuedBytes + |bytes|)];
      if pairs[pairId].queuedBytes > limits.maxQueuedBytes {
        ClosePair(pairId, Rejected(Why(QueueExceeded)));
        return;
      }
      Perform([Send(server, DataForward(pairId, bytes))]);
      var queued := pairs[pairId].queuedBytes;
      pairs := pairs[pairId := pairs[pairId].(queuedBytes := SatSub(queued, |bytes|))];
      assert pairs == DoBump(limits, old(State()), pairId, Bump(now, |bytes|)).pairs[pairId := pairs[pairId]];
    }

    method WebSocketMessage(id: nat, bytes: seq<Byte>, now: int, fresh_: string)
      modifies this
      ensures State() == Next(limits, text, old(State()), Binary(id, bytes, now, fresh_))
    {
      hide Register, FromServer, Pairing, FromClient;
      clock := now;
      var i := FindIndex(id);
      if i.Some? {
        var decoded := DecodeRelay(text, bytes);
        match sockets[i.value].att {
          case ServerSocket(registered, _) =>
            if decoded.Some? {
              if registered {
                HandleServer(i.value, decoded.value, now);
              } else {
                RegisterServer(i.value, decoded.value);
              }
            }
          case ClientSocket(_, pairId) =>
            if pairId.Some? {
              HandleClient(i.value, decoded, bytes, now);
            } else if decoded.Some? {
              PairClient(i.value, decoded.value, now, fresh_);
            }
        }
      }
    }

    method FindIndex(id: nat) returns (r: Option<nat>)
      ensures r == IndexOf(sockets, id)
    {
      var i := |sockets|;
      assert sockets[..i] == sockets;
      while i > 0
        invariant 0 <= i <= |sockets|
        invariant IndexOf(sockets, id) == IndexOf(sockets[..i], id)
      {
        assert sockets[..i][..i - 1] == sockets[..i - 1];
        i := i - 1;
        if sockets[i].id == id {
          return Some(i);
        }
      }
      return None;
    }

    method WebSocketClose(id: nat)
      modifies this`pairs, this`out
      ensures State() == Next(limits, text, old(State()), Closed(id))
    {
      var i := FindIndex(id);
      if i.None? {
        return;
      }
      match sockets[i.value].att {
        case ServerSocket(registered, serverId) =>
          if registered && serverId.Some? {
            CloseOrphans(serverId.value);
          }
        case ClientSocket(target, pairId) =>
          if pairId.Some? {
            var server := FindRegisteredServer(target);
            Perform(ToServer(server, PairClose(pairId.value, ClientGone)));
            pairs := pairs - {pairId.value};
          }
      }
    }

    method CloseOrphans(serverId: string)
      modifies this`out
      ensures State() == Emit(old(State()), Orphaned(sockets, serverId))
    {
      for k := 0 to |sockets|
        invariant State() == Emit(old(State()), Orphaned(sockets[..k], serverId))
      {
        assert sockets[..k + 1][..k] == sockets[..k];
        var s := sockets[k];
        if s.att.ClientSocket? && s.att.target == serverId {
          if s.att.pairId.Some? {
            Perform([Send(s.id, PairClose(s.att.pairId.value, ServerGone))]);
          }
          Perform([Shut(s.id)]);
        }
      }
      assert sockets[..|sockets|] == sockets;
    }

    /** A text message: a registered server's ping is answered, anything else closes the socket. */
    method WebSocketText(id: nat, message: string)
      modifies this`out
      ensures State() == Next(limits, text, old(State()), Text(id, message == "ping"))
    {
      var i := FindIndex(id);
      if i.None? {
        return;
      }
      var att := sockets[i.value].att;
      if att.ServerSocket? && att.registered && message == "ping" {
        Perform([Pong(sockets[i.value].id)]);
        return;
      }
      Perform([Shut(sockets[i.value].id)]);
    }

    /** A sweep closes every pair without recent progress, in whatever order the map gives them. */
    method SweepIdlePairs(now: int) returns (ghost order: seq<string>)
      modifies this`pairs, this`out, this`clock
      ensures (forall p :: p in order <==> p in old(pairs)) && forall i, j :: 0 <= i < j < |order| ==> order[i] != order[j]
      ensures State() == Swept(limits, old(State()), order, now)
      ensures pairs == map p | p in old(pairs) && !IsIdle(limits, old(pairs)[p], now) :: old(pairs)[p]
    {
      hide DoClosePair, IsIdle, Swept;
      SweptNothing(limits, State(), now);
      var left := pairs.Keys;
      order := [];
      clock := now;
      while left != {}
        invariant left <= pairs.Keys
        invariant forall p :: p in old(pairs) <==> p in order || p in left
        invariant forall i :: 0 <= i < |order| ==> order[i] !in left
        invariant forall i, j :: 0 <= i < j < |order| ==> order[i] != order[j]
        invariant State() == Swept(limits, old(State()), order, now)
        invariant forall p :: p in pairs ==> p in old(pairs) && pairs[p] == old(pairs)[p]
        invariant forall p :: p in old(pairs) && p !in pairs ==> IsIdle(limits, old(pairs)[p], now)
        invariant forall p :: p in pairs && p !in left ==> !IsIdle(limits, pairs[p], now)
        decreases left
      {
        var p :| p in left;
        SweptSnoc(limits, old(State()), order, now, p);
        order := order + [p];
        left := left - {p};
        if IsIdle(limits, pairs[p], now) {
          ClosedPairs(State(), p, Stuck);
          ClosePair(p, Stuck);
        }
      }
    }
  }

  /** The sweep of some pairs, one after the other. */
  ghost function Swept(l: Limits, s: Relay, order: seq<string>, now: int): Relay {
    if order == [] then s.(clock := now) else OnSweep(l, Swept(l, s, order[..|order| - 1], now), order[|order| - 1], now)
  }

  lemma SweptNothing(l: Limits, s: Relay, now: int)
    ensures Swept(l, s, [], now) == s.(clock := now)
  {
  }

  lemma SweptSnoc(l: Limits, s: Relay, order: seq<string>, now: int, p: string)
    ensures Swept(l, s, order + [p], now) == OnSweep(l, Swept(l, s, order, now), p, now)
  {
    assert (order + [p])[..|order|] == order;
  }

  lemma ClosedPairs(s: Relay, p: string, why: CloseReason<string>)
    ensures DoClosePair(s, p, why).pairs == s.pairs - {p} && DoClosePair(s, p, why).sockets == s.sockets
  {
  }
}
