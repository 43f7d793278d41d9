/** What every run of the relay keeps. */
module RelaySafety {
  import opened Base
  import opened RelayCodec
  import opened RateWindow
  import opened RelayWorker

  /** No two sockets share an id. */
  predicate DistinctIds(sockets: seq<Socket>) {
    forall i, j :: 0 <= i < j < |sockets| ==> sockets[i].id != sockets[j].id
  }

  /** At most one registered socket per server id, and no more of them than allowed. */
  predicate ServersOk(l: Limits, sockets: seq<Socket>) {
    && RegisteredCount(sockets) <= l.maxServers
    && (forall i :: 0 <= i < |sockets| && IsRegistered(sockets[i]) ==> sockets[i].att.serverId.Some?)
    && (forall i, j :: 0 <= i < j < |sockets| && IsRegistered(sockets[i]) && IsRegistered(sockets[j]) ==>
          sockets[i].att.serverId != sockets[j].att.serverId)
  }

  predicate Paired(s: Socket) {
    s.att.ClientSocket? && s.att.pairId.Some?
  }

  /** No two client sockets share a pair, and a live pair belongs to the server its client asked for. */
  ghost predicate ClientsOk(s: Relay) {
    && (forall i :: 0 <= i < |s.sockets| && Paired(s.sockets[i]) ==>
          var p := s.sockets[i].att.pairId.value;
          p in s.began && (p in s.pairs ==> s.pairs[p].serverId == s.sockets[i].att.target))
    && (forall i, j :: 0 <= i < j < |s.sockets| && Paired(s.sockets[i]) && Paired(s.sockets[j]) ==>
          s.sockets[i].att.pairId != s.sockets[j].att.pairId)
  }

  /** No more pairs than allowed, each once begun, and nothing queued between events. */
  ghost predicate PairsOk(l: Limits, s: Relay) {
    && |s.pairs| <= l.maxPairs
    && (forall p :: p in s.pairs ==> p in s.began && s.pairs[p].queuedBytes == 0)
  }

  /** The window of a live pair is the fold of its attempts, made on a clock that does not run backwards. */
  ghost predicate WindowsOk(l: Limits, s: Relay) {
    && s.began.Keys == s.bumps.Keys
    && (forall p :: p in s.began ==>
          && Ordered(s.began[p], s.bumps[p])
          && LastTime(s.began[p], s.bumps[p]) <= s.clock)
    && (forall p :: p in s.pairs && p in s.began ==>
          s.pairs[p].window == Fold(l.maxBytesPerSec, s.began[p], s.bumps[p]))
  }

  ghost predicate Inv(l: Limits, s: Relay) {
    DistinctIds(s.sockets) && ServersOk(l, s.sockets) && ClientsOk(s) && PairsOk(l, s) && WindowsOk(l, s)
  }

  /** The clock does not run backwards, pair ids are fresh, and sockets arrive unregistered and unpaired. */
  ghost predicate Admissible(s: Relay, e: Event) {
    match e
    case Connect(id, att) =>
      && (forall i :: 0 <= i < |s.sockets| ==> s.sockets[i].id != id)
      && (if att.ServerSocket? then !att.registered else att.pairId.None?)
    case Binary(_, _, now, fresh_) => s.clock <= now && fresh_ !in s.began
    case Sweep(_, now) => s.clock <= now
    case _ => true
  }

  ghost function Run(l: Limits, t: TextCodec<string>, s: Relay, events: seq<Event>): Relay {
    if events == [] then s else Next(l, t, Run(l, t, s, events[..|events| - 1]), events[|events| - 1])
  }

  ghost predicate AllAdmissible(l: Limits, t: TextCodec<string>, s: Relay, events: seq<Event>) {
    forall k :: 0 <= k < |events| ==> Admissible(Run(l, t, s, events[..k]), events[k])
  }

  ghost predicate Start(s: Relay) {
    s.sockets == [] && s.pairs == map[] && s.out == [] && s.began == map[] && s.bumps == map[]
  }

  // ----- Sockets

  lemma {:induction false} CountUpdate(sockets: seq<Socket>, i: nat, x: Socket)
    requires i < |sockets|
    ensures RegisteredCount(sockets[i := x])
            == RegisteredCount(sockets) - (if IsRegistered(sockets[i]) then 1 else 0) + (if IsRegistered(x) then 1 else 0)
  {
    var n := |sockets| - 1;
    if i == n {
      assert sockets[i := x][..n] == sockets[..n];
    } else {
      CountUpdate(sockets[..n], i, x);
      assert sockets[i := x][..n] == sockets[..n][i := x];
    }
  }

  lemma {:induction false} CountRemove(sockets: seq<Socket>, i: nat)
    requires i < |sockets|
    ensures RegisteredCount(sockets[..i] + sockets[i + 1..]) <= RegisteredCount(sockets)
  {
    var n := |sockets| - 1;
    var left := sockets[..i] + sockets[i + 1..];
    if i == n {
      assert left == sockets[..n];
    } else {
      CountRemove(sockets[..n], i);
      assert left[..|left| - 1] == sockets[..n][..i] + sockets[..n][i + 1..];
      assert left[|left| - 1] == sockets[n];
    }
  }

  lemma {:induction false} NotFound(sockets: seq<Socket>, serverId: string, i: nat)
    requires FindServer(sockets, serverId).None? && i < |sockets|
    ensures !IsServer(sockets[i], serverId)
    decreases |sockets|
  {
    if i > 0 {
      NotFound(sockets[1..], serverId, i - 1);
    }
  }

  lemma RegisterKeepsServers(l: Limits, sockets: seq<Socket>, i: nat, serverId: string)
    requires ServersOk(l, sockets) && i < |sockets| && !IsRegistered(sockets[i])
    requires RegisteredCount(sockets) < l.maxServers && FindServer(sockets, serverId).None?
    ensures ServersOk(l, sockets[i := sockets[i].(att := ServerSocket(true, Some(serverId)))])
  {
    var x := sockets[i].(att := ServerSocket(true, Some(serverId)));
    CountUpdate(sockets, i, x);
    forall j | 0 <= j < |sockets|
      ensures !IsServer(sockets[j], serverId)
    {
      NotFound(sockets, serverId, j);
    }
  }

  // ----- Handlers

  lemma ClosePairKeeps(l: Limits, s: Relay, pairId: string, why: CloseReason<string>)
    requires Inv(l, s)
    ensures Inv(l, DoClosePair(s, pairId, why))
  {
    var told := Closings(ClientsFor(s.sockets, pairId), pairId, why);
    var server := if pairId in s.pairs then FindServer(s.sockets, s.pairs[pairId].serverId) else None;
    PairGone(l, s, pairId);
    EmitKeeps(l, s.(pairs := s.pairs - {pairId}), told + ToServer(server, PairClose(pairId, why)));
    hide Inv, Closings, FindServer;
  }

  lemma PairGone(l: Limits, s: Relay, pairId: string)
    requires Inv(l, s)
    ensures Inv(l, s.(pairs := s.pairs - {pairId}))
  {
    hide Fold, Ordered, ServersOk, LastTime;
    RemoveShrinks(s.pairs, pairId);
  }

  lemma RemoveShrinks<V>(m: map<string, V>, k: string)
    ensures |m - {k}| <= |m|
  {
    if k in m {
      assert (m - {k})[k := m[k]] == m;
    } else {
      assert m - {k} == m;
    }
  }

  lemma UpdateSameSize<V>(m: map<string, V>, k: string, v: V)
    requires k in m
    ensures |m[k := v]| == |m|
  {
    assert m[k := v].Keys == m.Keys;
    assert |m[k := v]| == |m[k := v].Keys| && |m| == |m.Keys|;
  }

  lemma OrderedSnoc(start: int, bumps: seq<Bump>, b: Bump)
    requires Ordered(start, bumps) && LastTime(start, bumps) <= b.at
    ensures Ordered(start, bumps + [b]) && LastTime(start, bumps + [b]) == b.at
  {
  }

  lemma BumpKeeps(l: Limits, s: Relay, pairId: string, b: Bump)
    requires Inv(l, s) && pairId in s.pairs && b.at == s.clock
    ensures Inv(l, DoBump(l, s, pairId, b))
    ensures pairId in s.bumps && DoBump(l, s, pairId, b).bumps[pairId] == s.bumps[pairId] + [b]
  {
    BumpWindows(l, s, pairId, b);
    BumpPairs(l, s, pairId, b);
    hide Fold, After, Accepts, Ordered, ServersOk, WindowsOk, ClientsOk, PairsOk;
  }

  lemma BumpPairs(l: Limits, s: Relay, pairId: string, b: Bump)
    requires ClientsOk(s) && PairsOk(l, s) && pairId in s.pairs
    ensures ClientsOk(DoBump(l, s, pairId, b)) && PairsOk(l, DoBump(l, s, pairId, b))
  {
    hide After, Accepts;
    UpdateSameSize(s.pairs, pairId, Bumped(l, s.pairs[pairId], b).0);
  }

  lemma BumpWindows(l: Limits, s: Relay, pairId: string, b: Bump)
    requires WindowsOk(l, s) && pairId in s.pairs && pairId in s.began && b.at == s.clock
    ensures WindowsOk(l, DoBump(l, s, pairId, b))
  {
    OrderedSnoc(s.began[pairId], s.bumps[pairId], b);
    FoldSnoc(l.maxBytesPerSec, s.began[pairId], s.bumps[pairId], b);
    hide Fold, After, Accepts, Ordered, LastTime;
    var s' := DoBump(l, s, pairId, b);
    assert s'.bumps[pairId] == s.bumps[pairId] + [b];
  }

  lemma FoldSnoc(max: nat, start: int, bumps: seq<Bump>, b: Bump)
    ensures Fold(max, start, bumps + [b]) == After(max, Fold(max, start, bumps), b)
  {
    assert (bumps + [b])[..|bumps|] == bumps;
  }

  /** Touching only how much is queued. */
  lemma QueueKeeps(l: Limits, s: Relay, pairId: string, queued: nat)
    requires Inv(l, s) && pairId in s.pairs
    ensures var s' := s.(pairs := s.pairs[pairId := s.pairs[pairId].(queuedBytes := queued)]);
            && (queued == 0 ==> s' == s)
            && Inv(l, DoClosePair(s', pairId, Rejected(Why(QueueExceeded))))
  {
    var pairs' := s.pairs[pairId := s.pairs[pairId].(queuedBytes := queued)];
    assert queued == 0 ==> pairs' == s.pairs;
    assert pairs' - {pairId} == s.pairs - {pairId};
    ClosePairKeeps(l, s, pairId, Rejected(Why(QueueExceeded)));
    hide Fold, Ordered, ServersOk, Closings, FindServer;
  }

  lemma EmitKeeps(l: Limits, s: Relay, effects: seq<Effect>)
    requires Inv(l, s)
    ensures Inv(l, Emit(s, effects))
  {
    hide Fold, Ordered, ServersOk;
  }

  lemma RegisterKeeps(l: Limits, s: Relay, i: nat, m: Relayed)
    requires Inv(l, s) && i < |s.sockets| && s.sockets[i].att.ServerSocket? && !s.sockets[i].att.registered
    ensures Inv(l, Register(l, s, i, m))
  {
    var s' := Register(l, s, i, m);
    if s'.sockets != s.sockets {
      var attached := Attach(s, i, ServerSocket(true, Some(m.serverId)));
      AttachKeeps(l, s, i, m.serverId);
      SameSockets(l, attached, s');
    } else {
      SameSockets(l, s, s');
    }
    hide Inv, FindServer, RegisteredCount, Why;
  }

  lemma AttachKeeps(l: Limits, s: Relay, i: nat, serverId: string)
    requires Inv(l, s) && i < |s.sockets| && s.sockets[i].att.ServerSocket? && !s.sockets[i].att.registered
    requires RegisteredCount(s.sockets) < l.maxServers && FindServer(s.sockets, serverId).None?
    ensures Inv(l, Attach(s, i, ServerSocket(true, Some(serverId))))
  {
    hide ServersOk, WindowsOk, PairsOk, FindServer, RegisteredCount;
    var s' := Attach(s, i, ServerSocket(true, Some(serverId)));
    RegisterKeepsServers(l, s.sockets, i, serverId);
    forall k | 0 <= k < |s'.sockets|
      ensures Paired(s'.sockets[k]) ==> k != i && s'.sockets[k] == s.sockets[k]
      ensures s'.sockets[k].id == s.sockets[k].id
    {
    }
    SamePairs(l, s, s');
  }

  /** Limits and windows of pairs do not depend on the sockets. */
  lemma SamePairs(l: Limits, s: Relay, s': Relay)
    requires s' == s.(sockets := s'.sockets)
    ensures PairsOk(l, s) ==> PairsOk(l, s')
    ensures WindowsOk(l, s) ==> WindowsOk(l, s')
  {
    hide Fold, Ordered, LastTime;
  }

  lemma FromServerKeeps(l: Limits, s: Relay, i: nat, m: Relayed, now: int)
    requires Inv(l, s) && i < |s.sockets| && now == s.clock
    ensures Inv(l, FromServer(l, s, i, m, now))
  {
    hide Inv, DoBump, DoClosePair, Emit, Accepts;
    match m
    case PairClose(pairId, why) => ClosePairKeeps(l, s, pairId, why);
    case DataForward(pairId, bytes) =>
      if pairId in s.pairs {
        var b := Bump(now, |bytes|);
        BumpKeeps(l, s, pairId, b);
        var after := DoBump(l, s, pairId, b);
        ClosePairKeeps(l, after, pairId, Rejected(Why(RateExceeded)));
        EmitKeeps(l, after, Payloads(ClientsFor(s.sockets, pairId), pairId, bytes));
      } else {
        EmitKeeps(l, s, [Send(s.sockets[i].id, PairClose(pairId, ClientGone))]);
      }
    case ServerHeartbeat =>
    case _ => EmitKeeps(l, s, [Shut(s.sockets[i].id)]);
  }

  lemma PairingKeeps(l: Limits, s: Relay, i: nat, m: Relayed, now: int, fresh_: string)
    requires Inv(l, s) && i < |s.sockets| && s.sockets[i].att.ClientSocket? && s.sockets[i].att.pairId.None?
    requires now == s.clock && fresh_ !in s.began
    ensures Inv(l, Pairing(l, s, i, m, now, fresh_))
  {
    hide FindServer, ServersOk, WindowsOk, ClientsOk, Why;
    var s' := Pairing(l, s, i, m, now, fresh_);
    if s'.sockets != s.sockets {
      NewPairSockets(l, s.sockets, i, s'.sockets[i].att);
      NewPairWindow(l, s, s', fresh_, now);
      NewPairClients(s, s', i, fresh_, now);
    } else {
      SameSockets(l, s, s');
    }
  }

  lemma SameSockets(l: Limits, s: Relay, s': Relay)
    requires Inv(l, s) && s' == s.(out := s'.out)
    ensures Inv(l, s')
  {
    hide Fold, Ordered, ServersOk;
  }

  lemma NewPairClients(s: Relay, s': Relay, i: nat, p: string, now: int)
    requires ClientsOk(s) && i < |s.sockets| && s.sockets[i].att.ClientSocket? && p !in s.began
    requires s'.sockets == s.sockets[i := s.sockets[i].(att := ClientSocket(s.sockets[i].att.target, Some(p)))]
    requires s'.began == s.began[p := now]
    requires s'.pairs == s.pairs[p := Pair(s.sockets[i].att.target, now, 0, Window(now, 0))]
    ensures ClientsOk(s')
  {
    forall k | 0 <= k < |s'.sockets| && k != i
      ensures s'.sockets[k] == s.sockets[k]
    {
    }
  }

  lemma NewPairSockets(l: Limits, sockets: seq<Socket>, i: nat, att: Attachment)
    requires ServersOk(l, sockets) && i < |sockets| && sockets[i].att.ClientSocket? && att.ClientSocket?
    ensures ServersOk(l, sockets[i := sockets[i].(att := att)])
  {
    CountUpdate(sockets, i, sockets[i].(att := att));
  }

  lemma NewPairWindow(l: Limits, s: Relay, s': Relay, p: string, now: int)
    requires WindowsOk(l, s) && p !in s.began && now == s.clock && s'.clock == s.clock
    requires s'.began == s.began[p := now] && s'.bumps == s.bumps[p := []]
    requires p in s'.pairs && s'.pairs[p].window == Window(now, 0)
    requires forall q :: q in s'.pairs && q != p ==> q in s.pairs && s'.pairs[q] == s.pairs[q]
    ensures WindowsOk(l, s')
  {
    assert Fold(l.maxBytesPerSec, now, []) == Window(now, 0);
    assert Ordered(now, []);
    hide Fold, Ordered;
  }

  lemma FromClientKeeps(l: Limits, s: Relay, i: nat, m: Option<Relayed>, bytes: seq<Byte>, now: int)
    requires Inv(l, s) && i < |s.sockets| && Paired(s.sockets[i]) && now == s.clock
    ensures Inv(l, FromClient(l, s, i, m, bytes, now))
  {
    hide Inv, DoBump, DoClosePair, Accepts, FindServer;
    var id, target, pairId := s.sockets[i].id, s.sockets[i].att.target, s.sockets[i].att.pairId.value;
    if pairId !in s.pairs {
      EmitKeeps(l, s, [Shut(id)]);
    } else if m.Some? && m.value.PairClose? {
      ClosePairKeeps(l, s, m.value.pairId, m.value.why);
    } else if FindServer(s.sockets, target).None? {
      ClosePairKeeps(l, s, pairId, ServerGone);
    } else {
      ForwardKeeps(l, s, i, bytes, now, FindServer(s.sockets, target).value);
    }
  }

  /** The part of a client's message that is counted, queued and forwarded. */
  lemma ForwardKeeps(l: Limits, s: Relay, i: nat, bytes: seq<Byte>, now: int, server: nat)
    requires Inv(l, s) && i < |s.sockets| && Paired(s.sockets[i]) && now == s.clock
    requires s.sockets[i].att.pairId.value in s.pairs
    ensures var pairId := s.sockets[i].att.pairId.value;
            var after := DoBump(l, s, pairId, Bump(now, |bytes|));
            && pairId in after.pairs && s.pairs[pairId].queuedBytes == 0
            && Inv(l, DoClosePair(after, pairId, Rejected(Why(RateExceeded))))
            && Inv(l, DoClosePair(after.(pairs := after.pairs[pairId := after.pairs[pairId].(queuedBytes := |bytes|)]), pairId,
                                  Rejected(Why(QueueExceeded))))
            && Inv(l, Emit(after.(pairs := after.pairs[pairId := after.pairs[pairId].(queuedBytes := 0)]),
                           [Send(server, DataForward(pairId, bytes))]))
  {
    var pairId := s.sockets[i].att.pairId.value;
    var after := DoBump(l, s, pairId, Bump(now, |bytes|));
    BumpKeeps(l, s, pairId, Bump(now, |bytes|));
    assert s.pairs[pairId].queuedBytes == 0 && pairId in after.pairs;
    hide Inv, DoBump, DoClosePair;
    ClosePairKeeps(l, after, pairId, Rejected(Why(RateExceeded)));
    QueueKeeps(l, after, pairId, |bytes|);
    QueueKeeps(l, after, pairId, 0);
    EmitKeeps(l, after, [Send(server, DataForward(pairId, bytes))]);
  }

  lemma OnCloseKeeps(l: Limits, s: Relay, i: nat)
    requires Inv(l, s) && i < |s.sockets|
    ensures Inv(l, OnClose(s, i))
  {
    hide Inv, FindServer, Orphaned;
    match s.sockets[i].att
    case ServerSocket(registered, serverId) =>
      if registered && serverId.Some? {
        EmitKeeps(l, s, Orphaned(s.sockets, serverId.value));
      }
    case ClientSocket(target, pairId) =>
      if pairId.Some? {
        PairGone(l, s, pairId.value);
        EmitKeeps(l, s.(pairs := s.pairs - {pairId.value}),
                  ToServer(FindServer(s.sockets, target), PairClose(pairId.value, ClientGone)));
      }
  }

  lemma ConnectKeeps(l: Limits, s: Relay, id: nat, att: Attachment)
    requires Inv(l, s) && Admissible(s, Connect(id, att))
    ensures Inv(l, s.(sockets := s.sockets + [Socket(id, att)]))
  {
    var sockets := s.sockets + [Socket(id, att)];
    assert sockets[..|s.sockets|] == s.sockets;
    hide Fold, Ordered;
  }

  lemma GoneKeeps(l: Limits, s: Relay, i: nat)
    requires Inv(l, s) && i < |s.sockets|
    ensures Inv(l, s.(sockets := s.sockets[..i] + s.sockets[i + 1..]))
  {
    var s' := s.(sockets := s.sockets[..i] + s.sockets[i + 1..]);
    GoneServers(l, s.sockets, i);
    GoneClients(s, s', i);
    hide ServersOk, ClientsOk, Fold, Ordered;
  }

  lemma WithoutOne(sockets: seq<Socket>, i: nat)
    requires i < |sockets|
    ensures var left := sockets[..i] + sockets[i + 1..];
            |left| == |sockets| - 1 && forall k :: 0 <= k < |left| ==> left[k] == sockets[if k < i then k else k + 1]
  {
  }

  lemma GoneServers(l: Limits, sockets: seq<Socket>, i: nat)
    requires DistinctIds(sockets) && ServersOk(l, sockets) && i < |sockets|
    ensures DistinctIds(sockets[..i] + sockets[i + 1..]) && ServersOk(l, sockets[..i] + sockets[i + 1..])
  {
    CountRemove(sockets, i);
    WithoutOne(sockets, i);
    hide RegisteredCount;
  }

  lemma GoneClients(s: Relay, s': Relay, i: nat)
    requires ClientsOk(s) && i < |s.sockets| && s' == s.(sockets := s.sockets[..i] + s.sockets[i + 1..])
    ensures ClientsOk(s')
  {
    WithoutOne(s.sockets, i);
  }

  lemma LaterClock(l: Limits, s: Relay, now: int)
    requires Inv(l, s) && s.clock <= now
    ensures Inv(l, s.(clock := now))
  {
    hide Fold, Ordered, ServersOk;
  }

  lemma BinaryKeeps(l: Limits, t: TextCodec<string>, s: Relay, i: nat, bytes: seq<Byte>, now: int, fresh_: string)
    requires Inv(l, s) && i < |s.sockets| && now == s.clock && fresh_ !in s.began
    ensures Inv(l, OnBinary(l, t, s, i, bytes, now, fresh_))
  {
    hide Inv, Register, FromServer, Pairing, FromClient;
    var m := Decoded(t, bytes);
    match s.sockets[i].att
    case ServerSocket(registered, _) =>
      if m.Some? {
        if registered {
          FromServerKeeps(l, s, i, m.value, now);
        } else {
          RegisterKeeps(l, s, i, m.value);
        }
      }
    case ClientSocket(_, pairId) =>
      if pairId.Some? {
        FromClientKeeps(l, s, i, m, bytes, now);
      } else if m.Some? {
        PairingKeeps(l, s, i, m.value, now, fresh_);
      }
  }

  lemma StepKeepsInv(l: Limits, t: TextCodec<string>, s: Relay, e: Event)
    requires Inv(l, s) && Admissible(s, e)
    ensures Inv(l, Next(l, t, s, e))
  {
    hide Inv, OnBinary, OnClose, DoClosePair;
    match e
    case Connect(id, att) => ConnectKeeps(l, s, id, att);
    case Text(id, isPing) =>
      EmitKeeps(l, s, [Pong(id)]);
      EmitKeeps(l, s, [Shut(id)]);
    case Binary(id, bytes, now, fresh_) =>
      LaterClock(l, s, now);
      if IndexOf(s.sockets, id).Some? {
        BinaryKeeps(l, t, s.(clock := now), IndexOf(s.sockets, id).value, bytes, now, fresh_);
      }
    case Closed(id) =>
      if IndexOf(s.sockets, id).Some? {
        OnCloseKeeps(l, s, IndexOf(s.sockets, id).value);
      }
    case Gone(id) =>
      if IndexOf(s.sockets, id).Some? {
        GoneKeeps(l, s, IndexOf(s.sockets, id).value);
      }
    case Sweep(pairId, now) =>
      LaterClock(l, s, now);
      ClosePairKeeps(l, s.(clock := now), pairId, Stuck);
  }

  /**
   In every admissible run: at most one registered socket per server id and at most
   `maxServers` of them; at most `maxPairs` pairs; no two client sockets on one pair; nothing
   left queued on a live pair; and every live pair's window is that of its attempts.
   */
  lemma {:induction false} RunKeepsInv(l: Limits, t: TextCodec<string>, s: Relay, events: seq<Event>)
    requires Start(s) && AllAdmissible(l, t, s, events)
    ensures Inv(l, Run(l, t, s, events))
  {
    if events != [] {
      var n := |events| - 1;
      FrontAdmissible(l, t, s, events);
      RunKeepsInv(l, t, s, events[..n]);
      StepKeepsInv(l, t, Run(l, t, s, events[..n]), events[n]);
    }
  }

  lemma FrontAdmissible(l: Limits, t: TextCodec<string>, s: Relay, events: seq<Event>)
    requires events != [] && AllAdmissible(l, t, s, events)
    ensures AllAdmissible(l, t, s, events[..|events| - 1])
  {
    var front := events[..|events| - 1];
    forall k | 0 <= k < |front|
      ensures Admissible(Run(l, t, s, front[..k]), front[k])
    {
      assert front[..k] == events[..k];
    }
  }

  /** So the bytes a pair is let through, both ways together, are bounded over any stretch of time. */
  lemma PairRateIsBounded(l: Limits, t: TextCodec<string>, s: Relay, events: seq<Event>, p: string, from: int, length: nat)
    requires Start(s) && AllAdmissible(l, t, s, events) && p in Run(l, t, s, events).began
    ensures var now := Run(l, t, s, events);
            && p in now.bumps
            && AcceptedIn(l.maxBytesPerSec, now.began[p], now.bumps[p], from, from + length)
               <= ((length - 1) / WINDOW_MS + 2) * l.maxBytesPerSec
  {
    RunKeepsInv(l, t, s, events);
    hide Run;
    var now := Run(l, t, s, events);
    RateIsBounded(l.maxBytesPerSec, now.began[p], now.bumps[p], from, length);
  }

  // ----- Payloads

  predicate Carries(e: Effect, p: string) {
    || (e.Payload? && e.pairId == p)
    || (e.Send? && e.message.DataForward? && e.message.pairId == p)
  }

  predicate CarriesNone(effects: seq<Effect>, p: string) {
    forall i :: 0 <= i < |effects| ==> !Carries(effects[i], p)
  }

  lemma {:induction false} ClosingsCarryNone(ids: seq<nat>, pairId: string, why: CloseReason<string>, p: string)
    ensures CarriesNone(Closings(ids, pairId, why), p)
  {
    if ids != [] {
      ClosingsCarryNone(ids[..|ids| - 1], pairId, why, p);
    }
  }

  lemma {:induction false} OrphanedCarriesNone(sockets: seq<Socket>, serverId: string, p: string)
    ensures CarriesNone(Orphaned(sockets, serverId), p)
  {
    if sockets != [] {
      OrphanedCarriesNone(sockets[..|sockets| - 1], serverId, p);
    }
  }

  /** `out` grew by effects that carry nothing of `p`. */
  ghost predicate QuietFor(s: Relay, s': Relay, p: string) {
    s.out <= s'.out && CarriesNone(s'.out[|s.out|..], p)
  }

  lemma EmitQuiet(s: Relay, s': Relay, effects: seq<Effect>, p: string)
    requires s'.out == s.out + effects && CarriesNone(effects, p)
    ensures QuietFor(s, s', p)
  {
    assert s'.out[|s.out|..] == effects;
  }

  lemma ClosePairQuiet(s: Relay, base: Relay, pairId: string, why: CloseReason<string>, p: string)
    requires s.out == base.out
    ensures QuietFor(base, DoClosePair(s, pairId, why), p)
  {
    var server := if pairId in s.pairs then FindServer(s.sockets, s.pairs[pairId].serverId) else None;
    ClosingsCarryNone(ClientsFor(s.sockets, pairId), pairId, why, p);
    EmitQuiet(base, DoClosePair(s, pairId, why),
              Closings(ClientsFor(s.sockets, pairId), pairId, why) + ToServer(server, PairClose(pairId, why)), p);
  }

  /**
   Once a pair has left the map it never comes back, and no payload is forwarded on its id
   again, whichever socket still holds it.
   */
  lemma ClosedPairStaysSilent(l: Limits, t: TextCodec<string>, s: Relay, e: Event, p: string)
    requires Admissible(s, e) && p in s.began && p !in s.pairs
    ensures var s' := Next(l, t, s, e);
            p in s'.began && p !in s'.pairs && QuietFor(s, s', p)
  {
    hide Closings, ClientsFor, FindServer, Orphaned, CarriesNone, QuietFor, Decoded, IndexOf, RegisteredCount;
    var s' := Next(l, t, s, e);
    NothingAdded(s, p);
    match e
    case Connect(_, _) =>
    case Text(id, isPing) =>
      EmitOneQuiet(s, Pong(id), p);
      EmitOneQuiet(s, Shut(id), p);
    case Binary(id, bytes, now, fresh_) =>
      if IndexOf(s.sockets, id).Some? {
        BinaryQuiet(l, t, s.(clock := now), IndexOf(s.sockets, id).value, bytes, now, fresh_, p);
        SameOut(s, s.(clock := now), s', p);
      }
    case Closed(id) =>
      if IndexOf(s.sockets, id).Some? {
        OnCloseQuiet(s, IndexOf(s.sockets, id).value, p);
      }
    case Gone(_) =>
    case Sweep(pairId, now) =>
      ClosePairQuiet(s.(clock := now), s, pairId, Stuck, p);
  }

  /** Everything but a binary message carries no payload and records no attempt. */
  lemma OthersAreQuiet(l: Limits, t: TextCodec<string>, s: Relay, e: Event, p: string)
    requires !e.Binary?
    ensures var s' := Next(l, t, s, e);
            QuietFor(s, s', p) && s'.began == s.began && s'.bumps == s.bumps
  {
    hide QuietFor, IndexOf, OnText, OnClose, OnSweep;
    NothingAdded(s, p);
    match e
    case Connect(_, _) =>
    case Text(id, isPing) =>
      if IndexOf(s.sockets, id).Some? {
        OnTextQuiet(s, IndexOf(s.sockets, id).value, isPing, p);
      }
    case Closed(id) =>
      if IndexOf(s.sockets, id).Some? {
        OnCloseQuiet(s, IndexOf(s.sockets, id).value, p);
        OnCloseRecords(s, IndexOf(s.sockets, id).value);
      }
    case Gone(_) =>
    case Sweep(pairId, now) => OnSweepQuiet(l, s, pairId, now, p);
  }

  lemma OnTextQuiet(s: Relay, i: nat, isPing: bool, p: string)
    requires i < |s.sockets|
    ensures var s' := OnText(s, i, isPing); QuietFor(s, s', p) && s'.began == s.began && s'.bumps == s.bumps
  {
    EmitOneQuiet(s, Pong(s.sockets[i].id), p);
    EmitOneQuiet(s, Shut(s.sockets[i].id), p);
    hide QuietFor;
  }

  lemma OnSweepQuiet(l: Limits, s: Relay, pairId: string, now: int, p: string)
    ensures var s' := OnSweep(l, s.(clock := now), pairId, now);
            QuietFor(s, s', p) && s'.began == s.began && s'.bumps == s.bumps
  {
    var later := s.(clock := now);
    NothingAdded(s, p);
    ClosePairQuiet(later, s, pairId, Stuck, p);
    ClosePairRecords(later, pairId, Stuck);
    hide QuietFor, DoClosePair, IsIdle;
  }

  lemma ClosePairRecords(s: Relay, pairId: string, why: CloseReason<string>)
    ensures DoClosePair(s, pairId, why).began == s.began && DoClosePair(s, pairId, why).bumps == s.bumps
  {
  }

  lemma OnCloseRecords(s: Relay, i: nat)
    requires i < |s.sockets|
    ensures OnClose(s, i).began == s.began && OnClose(s, i).bumps == s.bumps
  {
  }

  lemma SameOut(a: Relay, b: Relay, s': Relay, p: string)
    requires a.out == b.out && QuietFor(b, s', p)
    ensures QuietFor(a, s', p)
  {
  }

  lemma NothingAdded(s: Relay, p: string)
    ensures forall s': Relay :: s'.out == s.out ==> QuietFor(s, s', p)
  {
    assert s.out[|s.out|..] == [];
  }

  lemma EmitOneQuiet(s: Relay, e: Effect, p: string)
    requires !Carries(e, p)
    ensures QuietFor(s, Emit(s, [e]), p)
  {
    EmitQuiet(s, Emit(s, [e]), [e], p);
  }

  lemma OnCloseQuiet(s: Relay, i: nat, p: string)
    requires i < |s.sockets|
    ensures QuietFor(s, OnClose(s, i), p)
  {
    NothingAdded(s, p);
    match s.sockets[i].att
    case ServerSocket(registered, serverId) =>
      if registered && serverId.Some? {
        OrphanedCarriesNone(s.sockets, serverId.value, p);
        EmitQuiet(s, OnClose(s, i), Orphaned(s.sockets, serverId.value), p);
      }
    case ClientSocket(target, pairId) =>
      if pairId.Some? {
        EmitQuiet(s, OnClose(s, i), ToServer(FindServer(s.sockets, target), PairClose(pairId.value, ClientGone)), p);
      }
  }

  lemma BinaryQuiet(l: Limits, t: TextCodec<string>, s: Relay, i: nat, bytes: seq<Byte>, now: int, fresh_: string, p: string)
    requires i < |s.sockets| && p in s.began && p !in s.pairs && fresh_ !in s.began
    ensures var s' := OnBinary(l, t, s, i, bytes, now, fresh_);
            p in s'.began && p !in s'.pairs && QuietFor(s, s', p)
  {
    hide QuietFor, Decoded, Register, FromServer, FromClient, Pairing;
    NothingAdded(s, p);
    var m := Decoded(t, bytes);
    match s.sockets[i].att
    case ServerSocket(registered, _) =>
      if m.Some? {
        if registered {
          ServerQuiet(l, s, i, m.value, now, p);
        } else {
          RegisterQuiet(l, s, i, m.value, p);
          RegisterRecords(l, s, i, m.value);
        }
      }
    case ClientSocket(_, pairId) =>
      if pairId.Some? {
        ClientQuiet(l, s, i, m, bytes, now, p);
      } else if m.Some? {
        PairingQuiet(l, s, i, m.value, now, fresh_, p);
      }
  }

  lemma RegisterQuiet(l: Limits, s: Relay, i: nat, m: Relayed, p: string)
    requires i < |s.sockets| && s.sockets[i].att.ServerSocket?
    ensures QuietFor(s, Register(l, s, i, m), p)
  {
    var id := s.sockets[i].id;
    hide FindServer, RegisteredCount, QuietFor, Why;
    if m.ServerRegister? {
      EmitTwoQuiet(s, s, Send(id, ServerRegisterErr(Why(ServerIdMismatch))), Shut(id), p);
      EmitTwoQuiet(s, s, Send(id, ServerRegisterErr(Why(TooManyServers))), Shut(id), p);
      EmitTwoQuiet(s, s, Send(id, ServerRegisterErr(Why(DuplicateServer))), Shut(id), p);
      var attached := Attach(s, i, ServerSocket(true, Some(m.serverId)));
      EmitOneQuiet(attached, Send(id, ServerRegisterOk), p);
      SameOut(s, attached, Emit(attached, [Send(id, ServerRegisterOk)]), p);
    } else {
      EmitOneQuiet(s, Shut(id), p);
    }
  }

  lemma RegisterRecords(l: Limits, s: Relay, i: nat, m: Relayed)
    requires i < |s.sockets| && s.sockets[i].att.ServerSocket?
    ensures Register(l, s, i, m).pairs == s.pairs && Register(l, s, i, m).began == s.began
    ensures Register(l, s, i, m).bumps == s.bumps
  {
    hide FindServer, RegisteredCount, Why;
  }

  lemma EmitTwoQuiet(s: Relay, later: Relay, a: Effect, b: Effect, p: string)
    requires later.out == s.out && !Carries(a, p) && !Carries(b, p)
    ensures QuietFor(s, Emit(later, [a, b]), p)
  {
    EmitQuiet(s, Emit(later, [a, b]), [a, b], p);
  }

  lemma PairingQuiet(l: Limits, s: Relay, i: nat, m: Relayed, now: int, fresh_: string, p: string)
    requires i < |s.sockets| && s.sockets[i].att.ClientSocket? && p in s.began && fresh_ !in s.began && p !in s.pairs
    ensures var s' := Pairing(l, s, i, m, now, fresh_); p in s'.began && p !in s'.pairs && QuietFor(s, s', p)
  {
    PairingEmits(l, s, i, m, now, fresh_, p);
    hide FindServer, QuietFor;
  }

  /** Pairing carries no payload at all. */
  lemma PairingEmits(l: Limits, s: Relay, i: nat, m: Relayed, now: int, fresh_: string, p: string)
    requires i < |s.sockets| && s.sockets[i].att.ClientSocket?
    ensures QuietFor(s, Pairing(l, s, i, m, now, fresh_), p)
  {
    var id, target := s.sockets[i].id, s.sockets[i].att.target;
    hide FindServer, QuietFor;
    EmitOneQuiet(s, Shut(id), p);
    EmitTwoQuiet(s, s, Send(id, PairClose(fresh_, Rejected(Why(NoServer)))), Shut(id), p);
    EmitTwoQuiet(s, s, Send(id, PairClose(fresh_, Rejected(Why(TooManyPairs)))), Shut(id), p);
    if FindServer(s.sockets, target).Some? {
      var paired := Attach(s, i, ClientSocket(target, Some(fresh_)))
                      .(pairs := s.pairs[fresh_ := Pair(target, now, 0, Window(now, 0))],
                        began := s.began[fresh_ := now], bumps := s.bumps[fresh_ := []]);
      EmitTwoQuiet(s, paired, Send(FindServer(s.sockets, target).value, PairInbound(fresh_)), Send(id, PairOpen(fresh_)), p);
    }
  }

  lemma ServerQuiet(l: Limits, s: Relay, i: nat, m: Relayed, now: int, p: string)
    requires i < |s.sockets| && p !in s.pairs
    ensures var s' := FromServer(l, s, i, m, now); p !in s'.pairs && s'.began == s.began && QuietFor(s, s', p)
  {
    hide Closings, ClientsFor, FindServer, QuietFor, Accepts, After;
    var s' := FromServer(l, s, i, m, now);
    NothingAdded(s, p);
    match m
    case ServerHeartbeat =>
    case PairClose(pairId, why) => ClosePairQuiet(s, s, pairId, why, p);
    case DataForward(pairId, bytes) =>
      EmitOneQuiet(s, Send(s.sockets[i].id, PairClose(pairId, ClientGone)), p);
      if pairId in s.pairs {
        ClosePairQuiet(DoBump(l, s, pairId, Bump(now, |bytes|)), s, pairId, Rejected(Why(RateExceeded)), p);
        EmitQuiet(s, Emit(DoBump(l, s, pairId, Bump(now, |bytes|)), Payloads(ClientsFor(s.sockets, pairId), pairId, bytes)),
                  Payloads(ClientsFor(s.sockets, pairId), pairId, bytes), p);
      }
    case _ => EmitOneQuiet(s, Shut(s.sockets[i].id), p);
  }

  lemma ClientQuiet(l: Limits, s: Relay, i: nat, m: Option<Relayed>, bytes: seq<Byte>, now: int, p: string)
    requires i < |s.sockets| && Paired(s.sockets[i]) && p !in s.pairs
    ensures var s' := FromClient(l, s, i, m, bytes, now); p !in s'.pairs && s'.began == s.began && QuietFor(s, s', p)
  {
    hide Closings, ClientsFor, QuietFor, Accepts, After;
    var s' := FromClient(l, s, i, m, bytes, now);
    var id, target, pairId := s.sockets[i].id, s.sockets[i].att.target, s.sockets[i].att.pairId.value;
    if pairId !in s.pairs {
      EmitOneQuiet(s, Shut(id), p);
    } else if m.Some? && m.value.PairClose? {
      ClosePairQuiet(s, s, m.value.pairId, m.value.why, p);
    } else if FindServer(s.sockets, target).None? {
      ClosePairQuiet(s, s, pairId, ServerGone, p);
    } else {
      var server := FindServer(s.sockets, target).value;
      var after := DoBump(l, s, pairId, Bump(now, |bytes|));
      var queued := s.pairs[pairId].queuedBytes + |bytes|;
      hide FindServer;
      ClosePairQuiet(after, s, pairId, Rejected(Why(RateExceeded)), p);
      ClosePairQuiet(after.(pairs := after.pairs[pairId := after.pairs[pairId].(queuedBytes := queued)]), s, pairId,
                     Rejected(Why(QueueExceeded)), p);
      EmitQuiet(s, after.(out := s.out + [Send(server, DataForward(pairId, bytes))]), [Send(server, DataForward(pairId, bytes))], p);
      SameAppended(s, s', after.(out := s.out + [Send(server, DataForward(pairId, bytes))]), p);
    }
  }

  lemma SameAppended(s: Relay, a: Relay, b: Relay, p: string)
    requires QuietFor(s, b, p)
    ensures a.out == b.out ==> QuietFor(s, a, p)
  {
  }

  /** Over whole runs. */
  lemma {:induction false} ClosedPairStaysSilentForever(l: Limits, t: TextCodec<string>, s: Relay, events: seq<Event>, p: string)
    requires AllAdmissible(l, t, s, events) && p in s.began && p !in s.pairs
    ensures var now := Run(l, t, s, events);
            p in now.began && p !in now.pairs && QuietFor(s, now, p)
  {
    if events == [] {
      NothingAdded(s, p);
    } else {
      var n := |events| - 1;
      FrontAdmissible(l, t, s, events);
      ClosedPairStaysSilentForever(l, t, s, events[..n], p);
      var before := Run(l, t, s, events[..n]);
      var now := Run(l, t, s, events);
      ClosedPairStaysSilent(l, t, before, events[n], p);
      assert now.out[|s.out|..] == before.out[|s.out|..] + now.out[|before.out|..];
    }
  }

  /** The step counted `n` bytes of `p` and let them through. */
  ghost predicate Counted(l: Limits, s: Relay, s': Relay, p: string, b: Bump) {
    && p in s.pairs && p in s.bumps && p in s'.bumps
    && s'.bumps[p] == s.bumps[p] + [b]
    && Accepts(l.maxBytesPerSec, s.pairs[p].window, b)
  }

  lemma ServerForwards(l: Limits, s: Relay, i: nat, m: Relayed, now: int, p: string)
    requires i < |s.sockets| && s.pairs.Keys <= s.bumps.Keys
    requires !QuietFor(s, FromServer(l, s, i, m, now), p)
    ensures m.DataForward? && m.pairId == p
    ensures Counted(l, s, FromServer(l, s, i, m, now), p, Bump(now, |m.bytes|))
  {
    hide Closings, ClientsFor, FindServer, QuietFor, Accepts, After;
    NothingAdded(s, p);
    match m
    case ServerHeartbeat =>
    case PairClose(pairId, why) => ClosePairQuiet(s, s, pairId, why, p);
    case DataForward(pairId, bytes) =>
      EmitOneQuiet(s, Send(s.sockets[i].id, PairClose(pairId, ClientGone)), p);
      if pairId in s.pairs {
        var payloads := Payloads(ClientsFor(s.sockets, pairId), pairId, bytes);
        ClosePairQuiet(DoBump(l, s, pairId, Bump(now, |bytes|)), s, pairId, Rejected(Why(RateExceeded)), p);
        if pairId != p {
          EmitQuiet(s, Emit(DoBump(l, s, pairId, Bump(now, |bytes|)), payloads), payloads, p);
        }
      }
    case _ => EmitOneQuiet(s, Shut(s.sockets[i].id), p);
  }

  lemma ClientForwards(l: Limits, s: Relay, i: nat, m: Option<Relayed>, bytes: seq<Byte>, now: int, p: string)
    requires i < |s.sockets| && Paired(s.sockets[i]) && s.pairs.Keys <= s.bumps.Keys
    requires !QuietFor(s, FromClient(l, s, i, m, bytes, now), p)
    ensures s.sockets[i].att.pairId == Some(p)
    ensures Counted(l, s, FromClient(l, s, i, m, bytes, now), p, Bump(now, |bytes|))
  {
    hide Closings, ClientsFor, QuietFor, Accepts, After;
    var s' := FromClient(l, s, i, m, bytes, now);
    var id, target, pairId := s.sockets[i].id, s.sockets[i].att.target, s.sockets[i].att.pairId.value;
    EmitOneQuiet(s, Shut(id), p);
    if pairId in s.pairs && !(m.Some? && m.value.PairClose?) && FindServer(s.sockets, target).Some? {
      var send := [Send(FindServer(s.sockets, target).value, DataForward(pairId, bytes))];
      var after := DoBump(l, s, pairId, Bump(now, |bytes|));
      var queued := s.pairs[pairId].queuedBytes + |bytes|;
      hide FindServer;
      ClosePairQuiet(after, s, pairId, Rejected(Why(RateExceeded)), p);
      ClosePairQuiet(after.(pairs := after.pairs[pairId := after.pairs[pairId].(queuedBytes := queued)]), s, pairId,
                     Rejected(Why(QueueExceeded)), p);
      if pairId != p {
        EmitQuiet(s, after.(out := s.out + send), send, p);
        SameAppended(s, s', after.(out := s.out + send), p);
      }
    } else if m.Some? && m.value.PairClose? {
      ClosePairQuiet(s, s, m.value.pairId, m.value.why, p);
    } else {
      ClosePairQuiet(s, s, pairId, ServerGone, p);
    }
  }

  /** A payload from a server reaches at most one client. */
  lemma {:induction false} OneClientPerPair(s: Relay, n: nat, p: string)
    requires ClientsOk(s) && n <= |s.sockets|
    ensures |ClientsFor(s.sockets[..n], p)| <= 1
    ensures (forall i :: 0 <= i < n ==> !IsClientOf(s.sockets[i], p)) ==> ClientsFor(s.sockets[..n], p) == []
  {
    if n > 0 {
      assert s.sockets[..n][..n - 1] == s.sockets[..n - 1];
      OneClientPerPair(s, n - 1, p);
      if IsClientOf(s.sockets[n - 1], p) {
        forall i | 0 <= i < n - 1
          ensures !IsClientOf(s.sockets[i], p)
        {
          assert Paired(s.sockets[i]) && Paired(s.sockets[n - 1]) ==> s.sockets[i].att.pairId != s.sockets[n - 1].att.pairId;
        }
      }
    }
  }
}
