/**
 What the relay gets done (workers/relay-cloudflare/src/index.ts): payloads arrive, registrations
 and pairings succeed, and everyone concerned is told when a pair ends.
 */
module RelayLaws {
  import opened Base
  import opened RelayCodec
  import opened RateWindow
  import opened RelayWorker
  import opened RelaySafety

  // ----- Sockets by what they are

  lemma {:induction false} SocketIndex(sockets: seq<Socket>, i: nat)
    requires DistinctIds(sockets) && i < |sockets|
    ensures IndexOf(sockets, sockets[i].id) == Some(i)
    decreases |sockets|
  {
    var n := |sockets| - 1;
    if i < n {
      assert sockets[i].id != sockets[n].id;
      SocketIndex(sockets[..n], i);
    }
  }

  /** The one registered socket of a server id. */
  lemma {:induction false} ServerIsFound(sockets: seq<Socket>, i: nat, serverId: string)
    requires i < |sockets| && IsServer(sockets[i], serverId)
    requires forall k :: 0 <= k < |sockets| && IsServer(sockets[k], serverId) ==> k == i
    ensures FindServer(sockets, serverId) == Some(sockets[i].id)
    decreases |sockets|
  {
    if i > 0 {
      assert !IsServer(sockets[0], serverId);
      forall k | 0 <= k < |sockets[1..]| && IsServer(sockets[1..][k], serverId)
        ensures k == i - 1
      {
        assert IsServer(sockets[k + 1], serverId);
      }
      ServerIsFound(sockets[1..], i - 1, serverId);
    }
  }

  lemma {:induction false} NoServerIsFound(sockets: seq<Socket>, serverId: string)
    requires forall k :: 0 <= k < |sockets| ==> !IsServer(sockets[k], serverId)
    ensures FindServer(sockets, serverId) == None
    decreases |sockets|
  {
    if sockets != [] {
      forall k | 0 <= k < |sockets[1..]|
        ensures !IsServer(sockets[1..][k], serverId)
      {
        assert !IsServer(sockets[k + 1], serverId);
      }
      NoServerIsFound(sockets[1..], serverId);
    }
  }

  lemma RegisteredIsFound(l: Limits, s: Relay, i: nat, serverId: string)
    requires RelaySafety.Inv(l, s) && i < |s.sockets| && IsServer(s.sockets[i], serverId)
    ensures FindServer(s.sockets, serverId) == Some(s.sockets[i].id)
  {
    hide DistinctIds, ClientsOk, PairsOk, WindowsOk;
    forall k | 0 <= k < |s.sockets| && IsServer(s.sockets[k], serverId)
      ensures k == i
    {
    }
    ServerIsFound(s.sockets, i, serverId);
  }

  /** The one client socket of a pair. */
  lemma {:induction false} ClientIsFound(sockets: seq<Socket>, i: nat, pairId: string)
    requires i < |sockets| && IsClientOf(sockets[i], pairId)
    requires forall k :: 0 <= k < |sockets| && IsClientOf(sockets[k], pairId) ==> k == i
    ensures ClientsFor(sockets, pairId) == [sockets[i].id]
    decreases |sockets|
  {
    var n := |sockets| - 1;
    if i < n {
      assert !IsClientOf(sockets[n], pairId);
      ClientIsFound(sockets[..n], i, pairId);
    } else {
      NoClientIsFound(sockets[..n], pairId);
    }
  }

  lemma {:induction false} NoClientIsFound(sockets: seq<Socket>, pairId: string)
    requires forall k :: 0 <= k < |sockets| ==> !IsClientOf(sockets[k], pairId)
    ensures ClientsFor(sockets, pairId) == []
    decreases |sockets|
  {
    if sockets != [] {
      NoClientIsFound(sockets[..|sockets| - 1], pairId);
    }
  }

  lemma PairedIsFound(s: Relay, i: nat, pairId: string)
    requires ClientsOk(s) && i < |s.sockets| && IsClientOf(s.sockets[i], pairId)
    ensures ClientsFor(s.sockets, pairId) == [s.sockets[i].id]
  {
    forall k | 0 <= k < |s.sockets| && IsClientOf(s.sockets[k], pairId)
      ensures k == i
    {
      assert Paired(s.sockets[k]) && Paired(s.sockets[i]);
    }
    ClientIsFound(s.sockets, i, pairId);
  }

  lemma BinaryGoesTo(l: Limits, t: TextCodec<string>, s: Relay, i: nat, bytes: seq<Byte>, now: int, fresh_: string)
    requires RelaySafety.Inv(l, s) && i < |s.sockets| && s.clock <= now
    ensures Next(l, t, s, Binary(s.sockets[i].id, bytes, now, fresh_))
            == OnBinary(l, t, s.(clock := now), i, bytes, now, fresh_)
    ensures RelaySafety.Inv(l, s.(clock := now))
  {
    SocketIndex(s.sockets, i);
    LaterClock(l, s, now);
    hide OnBinary, RelaySafety.Inv;
  }

  // ----- Payloads arrive

  /** The pair's window has room for so many bytes now. */
  predicate HasRoom(l: Limits, pair: Pair, now: int, n: nat) {
    if now >= pair.window.startedAt + WINDOW_MS then n <= l.maxBytesPerSec
    else pair.window.bytes + n <= l.maxBytesPerSec
  }

  lemma RoomIsAccepted(l: Limits, pair: Pair, now: int, n: nat)
    ensures Accepts(l.maxBytesPerSec, pair.window, Bump(now, n)) <==> HasRoom(l, pair, now, n)
  {
  }

  /**
   A paired client's bytes, if they are no `PairClose`, the pair is live, its server is registered
   and window and queue have room: exactly one message goes out, to that server, on that pair, with
   exactly these bytes.
   */
  lemma ClientPayloadArrives(l: Limits, t: TextCodec<string>, s: Relay, i: nat, j: nat, bytes: seq<Byte>, now: int, fresh_: string)
    requires RelaySafety.Inv(l, s) && s.clock <= now && i < |s.sockets| && j < |s.sockets|
    requires Paired(s.sockets[i]) && s.sockets[i].att.pairId.value in s.pairs
    requires IsServer(s.sockets[j], s.sockets[i].att.target)
    requires Decoded(t, bytes).Some? ==> !Decoded(t, bytes).value.PairClose?
    requires HasRoom(l, s.pairs[s.sockets[i].att.pairId.value], now, |bytes|) && |bytes| <= l.maxQueuedBytes
    ensures var p := s.sockets[i].att.pairId.value;
            var s' := Next(l, t, s, Binary(s.sockets[i].id, bytes, now, fresh_));
            && s'.out == s.out + [Send(s.sockets[j].id, DataForward(p, bytes))]
            && s'.sockets == s.sockets && s'.pairs.Keys == s.pairs.Keys && p in s'.pairs && s'.pairs[p].queuedBytes == 0
  {
    var p := s.sockets[i].att.pairId.value;
    var later := s.(clock := now);
    BinaryGoesTo(l, t, s, i, bytes, now, fresh_);
    RegisteredIsFound(l, s, j, s.sockets[i].att.target);
    RoomIsAccepted(l, s.pairs[p], now, |bytes|);
    QueuesAreEmpty(l, s);
    hide RelaySafety.Inv, Decoded, FindServer, Accepts, Next, HasRoom, After;
  }

  lemma QueuesAreEmpty(l: Limits, s: Relay)
    requires RelaySafety.Inv(l, s)
    ensures forall p :: p in s.pairs ==> s.pairs[p].queuedBytes == 0
  {
    hide DistinctIds, ServersOk, ClientsOk, WindowsOk;
  }

  /** A server's payload for a live pair, if the window has room, goes to the pair's client, and nothing else goes out. */
  lemma ServerPayloadArrives(l: Limits, t: TextCodec<string>, s: Relay, i: nat, j: nat, frame: seq<Byte>,
                             p: string, bytes: seq<Byte>, now: int, fresh_: string)
    requires RelaySafety.Inv(l, s) && s.clock <= now && i < |s.sockets| && j < |s.sockets|
    requires IsRegistered(s.sockets[i]) && Decoded(t, frame) == Some(DataForward(p, bytes)) && p in s.pairs
    requires IsClientOf(s.sockets[j], p) && HasRoom(l, s.pairs[p], now, |bytes|)
    ensures var s' := Next(l, t, s, Binary(s.sockets[i].id, frame, now, fresh_));
            && s'.out == s.out + [Payload(s.sockets[j].id, p, bytes)]
            && s'.sockets == s.sockets && s'.pairs.Keys == s.pairs.Keys
  {
    BinaryGoesTo(l, t, s, i, frame, now, fresh_);
    ClientsOfInv(l, s);
    PairedIsFound(s, j, p);
    RoomIsAccepted(l, s.pairs[p], now, |bytes|);
    hide RelaySafety.Inv, Decoded, ClientsFor, Accepts, Next, HasRoom, After;
    assert Payloads([s.sockets[j].id], p, bytes) == [Payload(s.sockets[j].id, p, bytes)];
  }

  lemma ClientsOfInv(l: Limits, s: Relay)
    requires RelaySafety.Inv(l, s)
    ensures ClientsOk(s)
  {
  }

  /** A server's payload for a pair that is not live: the server is told its client is gone, and nothing is passed on. */
  lemma UnknownPairIsAnswered(l: Limits, t: TextCodec<string>, s: Relay, i: nat, frame: seq<Byte>,
                              p: string, bytes: seq<Byte>, now: int, fresh_: string)
    requires RelaySafety.Inv(l, s) && s.clock <= now && i < |s.sockets|
    requires IsRegistered(s.sockets[i]) && Decoded(t, frame) == Some(DataForward(p, bytes)) && p !in s.pairs
    ensures var s' := Next(l, t, s, Binary(s.sockets[i].id, frame, now, fresh_));
            && s'.out == s.out + [Send(s.sockets[i].id, PairClose(p, ClientGone))]
            && s'.sockets == s.sockets && s'.pairs == s.pairs
  {
    BinaryGoesTo(l, t, s, i, frame, now, fresh_);
    hide RelaySafety.Inv, Decoded, Next;
  }

  /** With no room in the window the pair is closed: client and server are told so, and nothing is passed on. */
  lemma NoRoomClosesPair(l: Limits, t: TextCodec<string>, s: Relay, i: nat, j: nat, bytes: seq<Byte>, now: int, fresh_: string)
    requires RelaySafety.Inv(l, s) && s.clock <= now && i < |s.sockets| && j < |s.sockets|
    requires Paired(s.sockets[i]) && s.sockets[i].att.pairId.value in s.pairs
    requires IsServer(s.sockets[j], s.sockets[i].att.target)
    requires Decoded(t, bytes).Some? ==> !Decoded(t, bytes).value.PairClose?
    requires !HasRoom(l, s.pairs[s.sockets[i].att.pairId.value], now, |bytes|)
             || |bytes| > l.maxQueuedBytes
    ensures var p := s.sockets[i].att.pairId.value;
            var reason := if !HasRoom(l, s.pairs[p], now, |bytes|) then RateExceeded else QueueExceeded;
            var s' := Next(l, t, s, Binary(s.sockets[i].id, bytes, now, fresh_));
            && s'.pairs.Keys == s.pairs.Keys - {p}
            && s'.out == s.out + [Send(s.sockets[i].id, PairClose(p, Rejected(Why(reason)))), Shut(s.sockets[i].id),
                                  Send(s.sockets[j].id, PairClose(p, Rejected(Why(reason))))]
  {
    var p := s.sockets[i].att.pairId.value;
    BytesArePassedOn(l, t, s, i, j, bytes, now, fresh_);
    ClientsOfInv(l, s);
    PairedIsFound(s, i, p);
    assert s.pairs[p].serverId == s.sockets[i].att.target;
    RegisteredIsFound(l, s, j, s.sockets[i].att.target);
    QueuesAreEmpty(l, s);
    hide RelaySafety.Inv, ClientsOk, Decoded, PassOn, Next;
    PassOnWithoutRoom(l, s.(clock := now), i, j, p, bytes, now);
  }

  /** A paired client's bytes, if they are no `PairClose`, reach the one place where payloads are counted and sent. */
  lemma BytesArePassedOn(l: Limits, t: TextCodec<string>, s: Relay, i: nat, j: nat, bytes: seq<Byte>, now: int, fresh_: string)
    requires RelaySafety.Inv(l, s) && s.clock <= now && i < |s.sockets| && j < |s.sockets|
    requires Paired(s.sockets[i]) && s.sockets[i].att.pairId.value in s.pairs
    requires IsServer(s.sockets[j], s.sockets[i].att.target)
    requires Decoded(t, bytes).Some? ==> !Decoded(t, bytes).value.PairClose?
    ensures Next(l, t, s, Binary(s.sockets[i].id, bytes, now, fresh_))
            == PassOn(l, s.(clock := now), s.sockets[i].att.pairId.value, bytes, now, s.sockets[j].id)
  {
    BinaryGoesTo(l, t, s, i, bytes, now, fresh_);
    RegisteredIsFound(l, s, j, s.sockets[i].att.target);
    hide RelaySafety.Inv, Decoded, FindServer, Next, PassOn;
  }

  lemma PassOnWithoutRoom(l: Limits, s: Relay, i: nat, j: nat, p: string, bytes: seq<Byte>, now: int)
    requires i < |s.sockets| && j < |s.sockets| && p in s.pairs && s.pairs[p].queuedBytes == 0
    requires ClientsFor(s.sockets, p) == [s.sockets[i].id]
    requires FindServer(s.sockets, s.pairs[p].serverId) == Some(s.sockets[j].id)
    requires !HasRoom(l, s.pairs[p], now, |bytes|) || |bytes| > l.maxQueuedBytes
    ensures var why: CloseReason<string> := Rejected(Why(if !HasRoom(l, s.pairs[p], now, |bytes|) then RateExceeded else QueueExceeded));
            var s' := PassOn(l, s, p, bytes, now, s.sockets[j].id);
            && s'.pairs.Keys == s.pairs.Keys - {p}
            && s'.out == s.out + [Send(s.sockets[i].id, PairClose(p, why)), Shut(s.sockets[i].id), Send(s.sockets[j].id, PairClose(p, why))]
  {
    RoomIsAccepted(l, s.pairs[p], now, |bytes|);
    OneClosing(s.sockets[i].id, p, Rejected(Why(RateExceeded)));
    OneClosing(s.sockets[i].id, p, Rejected(Why(QueueExceeded)));
    hide FindServer, ClientsFor, Closings, Accepts, HasRoom, After, Why;
  }

  lemma OneClosing(id: nat, p: string, why: CloseReason<string>)
    ensures Closings([id], p, why) == [Send(id, PairClose(p, why)), Shut(id)]
    ensures Closings([], p, why) == []
  {
    assert [id][..0] == [];
    assert Closings([], p, why) == [];
  }

  // ----- Registering and pairing

  /**
   A server that registers under an id nobody holds, the one of its address if it has one, while
   there is room, is registered and told so; every other first message shuts its socket.
   */
  lemma RegistrationSucceedsIff(l: Limits, t: TextCodec<string>, s: Relay, i: nat, frame: seq<Byte>, now: int, fresh_: string)
    requires RelaySafety.Inv(l, s) && s.clock <= now && i < |s.sockets|
    requires s.sockets[i].att.ServerSocket? && !s.sockets[i].att.registered && Decoded(t, frame).Some?
    ensures var m := Decoded(t, frame).value;
            var id := s.sockets[i].id;
            var s' := Next(l, t, s, Binary(id, frame, now, fresh_));
            if m.ServerRegister?
               && (s.sockets[i].att.serverId.Some? ==> s.sockets[i].att.serverId.value == m.serverId)
               && RegisteredCount(s.sockets) < l.maxServers
               && (forall k :: 0 <= k < |s.sockets| ==> !IsServer(s.sockets[k], m.serverId))
            then s'.sockets == s.sockets[i := Socket(id, ServerSocket(true, Some(m.serverId)))]
                 && s'.out == s.out + [Send(id, ServerRegisterOk)] && s'.pairs == s.pairs
            else s'.sockets == s.sockets && s'.pairs == s.pairs
                 && |s'.out| > |s.out| && s'.out[|s'.out| - 1] == Shut(id)
                 && forall k :: |s.out| <= k < |s'.out| - 1 ==> s'.out[k].Send? && s'.out[k].dest == id && s'.out[k].message.ServerRegisterErr?
  {
    BinaryGoesTo(l, t, s, i, frame, now, fresh_);
    var m := Decoded(t, frame).value;
    if m.ServerRegister? {
      FoundIffThere(l, s, m.serverId);
    }
    hide RelaySafety.Inv, Decoded, FindServer, RegisteredCount, Next, Why, IsServer, Register;
    RegisterOutcome(l, s.(clock := now), i, m);
  }

  lemma RegisterOutcome(l: Limits, s: Relay, i: nat, m: Relayed)
    requires i < |s.sockets| && s.sockets[i].att.ServerSocket?
    ensures var id := s.sockets[i].id;
            var s' := Register(l, s, i, m);
            if m.ServerRegister?
               && (s.sockets[i].att.serverId.Some? ==> s.sockets[i].att.serverId.value == m.serverId)
               && RegisteredCount(s.sockets) < l.maxServers && FindServer(s.sockets, m.serverId).None?
            then s'.sockets == s.sockets[i := Socket(id, ServerSocket(true, Some(m.serverId)))]
                 && s'.out == s.out + [Send(id, ServerRegisterOk)] && s'.pairs == s.pairs
            else s'.sockets == s.sockets && s'.pairs == s.pairs
                 && |s'.out| > |s.out| && s'.out[|s'.out| - 1] == Shut(id)
                 && forall k :: |s.out| <= k < |s'.out| - 1 ==> s'.out[k].Send? && s'.out[k].dest == id && s'.out[k].message.ServerRegisterErr?
  {
    hide FindServer, RegisteredCount, Why;
  }

  lemma FoundIffThere(l: Limits, s: Relay, serverId: string)
    requires RelaySafety.Inv(l, s)
    ensures FindServer(s.sockets, serverId).None? <==> forall k :: 0 <= k < |s.sockets| ==> !IsServer(s.sockets[k], serverId)
  {
    if forall k :: 0 <= k < |s.sockets| ==> !IsServer(s.sockets[k], serverId) {
      NoServerIsFound(s.sockets, serverId);
    } else {
      var k :| 0 <= k < |s.sockets| && IsServer(s.sockets[k], serverId);
      RegisteredIsFound(l, s, k, serverId);
    }
  }

  /**
   A client that asks for the server of its address, which is registered, while there is room for a
   pair, is paired: the fresh pair is live with an empty window, and server and client are told its id.
   */
  lemma PairingSucceeds(l: Limits, t: TextCodec<string>, s: Relay, i: nat, j: nat, frame: seq<Byte>, now: int, fresh_: string)
    requires RelaySafety.Inv(l, s) && s.clock <= now && i < |s.sockets| && j < |s.sockets| && fresh_ !in s.began
    requires s.sockets[i].att.ClientSocket? && s.sockets[i].att.pairId.None?
    requires Decoded(t, frame) == Some(ClientConnect(s.sockets[i].att.target))
    requires IsServer(s.sockets[j], s.sockets[i].att.target) && |s.pairs| < l.maxPairs
    ensures var id, target := s.sockets[i].id, s.sockets[i].att.target;
            var s' := Next(l, t, s, Binary(id, frame, now, fresh_));
            && s'.sockets == s.sockets[i := Socket(id, ClientSocket(target, Some(fresh_)))]
            && s'.pairs == s.pairs[fresh_ := Pair(target, now, 0, Window(now, 0))]
            && s'.out == s.out + [Send(s.sockets[j].id, PairInbound(fresh_)), Send(id, PairOpen(fresh_))]
  {
    BinaryGoesTo(l, t, s, i, frame, now, fresh_);
    RegisteredIsFound(l, s, j, s.sockets[i].att.target);
    hide RelaySafety.Inv, Decoded, FindServer, Next;
  }

  /** Otherwise no pair comes about, and the socket is shut. */
  lemma PairingFails(l: Limits, t: TextCodec<string>, s: Relay, i: nat, frame: seq<Byte>, now: int, fresh_: string)
    requires RelaySafety.Inv(l, s) && s.clock <= now && i < |s.sockets|
    requires s.sockets[i].att.ClientSocket? && s.sockets[i].att.pairId.None? && Decoded(t, frame).Some?
    requires || Decoded(t, frame) != Some(ClientConnect(s.sockets[i].att.target))
             || (forall k :: 0 <= k < |s.sockets| ==> !IsServer(s.sockets[k], s.sockets[i].att.target))
             || |s.pairs| >= l.maxPairs
    ensures var id := s.sockets[i].id;
            var s' := Next(l, t, s, Binary(id, frame, now, fresh_));
            && s'.sockets == s.sockets && s'.pairs == s.pairs
            && |s'.out| > |s.out| && s'.out[|s'.out| - 1] == Shut(id)
            && forall k :: |s.out| <= k < |s'.out| - 1 ==> s'.out[k].Send? && s'.out[k].dest == id && s'.out[k].message.PairClose?
  {
    BinaryGoesTo(l, t, s, i, frame, now, fresh_);
    FoundIffThere(l, s, s.sockets[i].att.target);
    hide RelaySafety.Inv, Decoded, FindServer, Next, Why, IsServer;
  }

  // ----- Endings

  /** A registered server closes a live pair: its client is told and shut, and the pair's server is told. */
  lemma ServerCloses(l: Limits, t: TextCodec<string>, s: Relay, i: nat, j: nat, k: nat, frame: seq<Byte>,
                     p: string, why: CloseReason<string>, now: int, fresh_: string)
    requires RelaySafety.Inv(l, s) && s.clock <= now && i < |s.sockets| && j < |s.sockets| && k < |s.sockets|
    requires IsRegistered(s.sockets[i]) && Decoded(t, frame) == Some(PairClose(p, why)) && p in s.pairs
    requires IsClientOf(s.sockets[j], p) && IsServer(s.sockets[k], s.pairs[p].serverId)
    ensures var s' := Next(l, t, s, Binary(s.sockets[i].id, frame, now, fresh_));
            && s'.sockets == s.sockets && s'.pairs == s.pairs - {p}
            && s'.out == s.out + [Send(s.sockets[j].id, PairClose(p, why)), Shut(s.sockets[j].id), Send(s.sockets[k].id, PairClose(p, why))]
  {
    BinaryGoesTo(l, t, s, i, frame, now, fresh_);
    ClientsOfInv(l, s);
    PairedIsFound(s, j, p);
    RegisteredIsFound(l, s, k, s.pairs[p].serverId);
    OneClosing(s.sockets[j].id, p, why);
    hide RelaySafety.Inv, ClientsOk, Decoded, FindServer, ClientsFor, Closings, Next;
  }

  /** A paired client that closes tells its server, and the pair is gone. */
  lemma ClientGoneTellsServer(l: Limits, t: TextCodec<string>, s: Relay, i: nat, j: nat)
    requires RelaySafety.Inv(l, s) && i < |s.sockets| && j < |s.sockets|
    requires Paired(s.sockets[i]) && IsServer(s.sockets[j], s.sockets[i].att.target)
    ensures var p := s.sockets[i].att.pairId.value;
            var s' := Next(l, t, s, Closed(s.sockets[i].id));
            && s'.pairs == s.pairs - {p} && s'.sockets == s.sockets
            && s'.out == s.out + [Send(s.sockets[j].id, PairClose(p, ClientGone))]
  {
    SocketIndex(s.sockets, i);
    RegisteredIsFound(l, s, j, s.sockets[i].att.target);
    hide RelaySafety.Inv, FindServer, IndexOf;
  }

  /** A registered server that closes: every client of it is told, if it is paired, and shut; nobody else is, and no pair goes yet. */
  lemma ServerGoneTellsClients(l: Limits, t: TextCodec<string>, s: Relay, i: nat, j: nat)
    requires RelaySafety.Inv(l, s) && i < |s.sockets| && IsRegistered(s.sockets[i]) && s.sockets[i].att.serverId.Some?
    requires j < |s.sockets| && s.sockets[j].att.ClientSocket?
    ensures var s' := Next(l, t, s, Closed(s.sockets[i].id));
            var mine := s.sockets[j].att.target == s.sockets[i].att.serverId.value;
            && s.out <= s'.out && s'.pairs == s.pairs
            && (Shut(s.sockets[j].id) in s'.out[|s.out|..] <==> mine)
            && (mine && s.sockets[j].att.pairId.Some? ==>
                  Send(s.sockets[j].id, PairClose(s.sockets[j].att.pairId.value, ServerGone)) in s'.out[|s.out|..])
  {
    SocketIndex(s.sockets, i);
    var serverId := s.sockets[i].att.serverId.value;
    OrphansAreTold(s.sockets, serverId, j);
    assert (s.out + Orphaned(s.sockets, serverId))[|s.out|..] == Orphaned(s.sockets, serverId);
    IdsOfInv(l, s);
    hide RelaySafety.Inv, Orphaned, IndexOf;
  }

  lemma IdsOfInv(l: Limits, s: Relay)
    requires RelaySafety.Inv(l, s)
    ensures DistinctIds(s.sockets)
  {
  }

  lemma {:induction false} OrphansAreTold(sockets: seq<Socket>, serverId: string, j: nat)
    requires DistinctIds(sockets) && j < |sockets| && sockets[j].att.ClientSocket?
    ensures Shut(sockets[j].id) in Orphaned(sockets, serverId) <==> sockets[j].att.target == serverId
    ensures sockets[j].att.target == serverId && sockets[j].att.pairId.Some? ==>
              Send(sockets[j].id, PairClose(sockets[j].att.pairId.value, ServerGone)) in Orphaned(sockets, serverId)
    decreases |sockets|
  {
    var n := |sockets| - 1;
    if j < n {
      OrphansAreTold(sockets[..n], serverId, j);
      assert sockets[j].id != sockets[n].id;
    } else {
      OthersAreNotShut(sockets[..n], serverId, sockets[n].id);
    }
  }

  lemma {:induction false} OthersAreNotShut(sockets: seq<Socket>, serverId: string, id: nat)
    requires forall k :: 0 <= k < |sockets| ==> sockets[k].id != id
    ensures Shut(id) !in Orphaned(sockets, serverId)
  {
    if sockets != [] {
      OthersAreNotShut(sockets[..|sockets| - 1], serverId, id);
    }
  }

  /** A paired client that closes a live pair, its own or another's: that pair's client is told and shut, and its server is told. */
  lemma ClientCloses(l: Limits, t: TextCodec<string>, s: Relay, i: nat, j: nat, k: nat, frame: seq<Byte>,
                     p: string, why: CloseReason<string>, now: int, fresh_: string)
    requires RelaySafety.Inv(l, s) && s.clock <= now && i < |s.sockets| && j < |s.sockets| && k < |s.sockets|
    requires Paired(s.sockets[i]) && s.sockets[i].att.pairId.value in s.pairs
    requires Decoded(t, frame) == Some(PairClose(p, why)) && p in s.pairs
    requires IsClientOf(s.sockets[j], p) && IsServer(s.sockets[k], s.pairs[p].serverId)
    ensures var s' := Next(l, t, s, Binary(s.sockets[i].id, frame, now, fresh_));
            && s'.sockets == s.sockets && s'.pairs == s.pairs - {p}
            && s'.out == s.out + [Send(s.sockets[j].id, PairClose(p, why)), Shut(s.sockets[j].id), Send(s.sockets[k].id, PairClose(p, why))]
  {
    BinaryGoesTo(l, t, s, i, frame, now, fresh_);
    ClientsOfInv(l, s);
    PairedIsFound(s, j, p);
    RegisteredIsFound(l, s, k, s.pairs[p].serverId);
    OneClosing(s.sockets[j].id, p, why);
    hide RelaySafety.Inv, ClientsOk, Decoded, FindServer, ClientsFor, Closings, Next;
  }

  /** A registered server's ping is answered, and its heartbeat changes nothing; any other text shuts the socket. */
  lemma PingsAndHeartbeats(l: Limits, t: TextCodec<string>, s: Relay, i: nat, isPing: bool, frame: seq<Byte>, now: int, fresh_: string)
    requires RelaySafety.Inv(l, s) && s.clock <= now && i < |s.sockets|
    ensures Next(l, t, s, Text(s.sockets[i].id, isPing))
            == s.(out := s.out + [if isPing && IsRegistered(s.sockets[i]) then Pong(s.sockets[i].id) else Shut(s.sockets[i].id)])
    ensures IsRegistered(s.sockets[i]) && Decoded(t, frame) == Some(ServerHeartbeat) ==>
              Next(l, t, s, Binary(s.sockets[i].id, frame, now, fresh_)) == s.(clock := now)
  {
    BinaryGoesTo(l, t, s, i, frame, now, fresh_);
    IdsOfInv(l, s);
    SocketIndex(s.sockets, i);
    hide RelaySafety.Inv, Decoded, IndexOf;
  }
}
