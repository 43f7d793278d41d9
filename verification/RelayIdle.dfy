/** Which pairs a sweep closes, over whole runs of the relay (workers/relay-cloudflare/src/index.ts). */
module RelayIdle {
  import opened Base
  import opened RelayCodec
  import opened RateWindow
  import opened RelayWorker
  import opened RelaySafety

  /** When the pair last let bytes through, or when it began. */
  function LastProgress(max: nat, start: int, bumps: seq<Bump>): int {
    if bumps == [] then start
    else
      var front, last := bumps[..|bumps| - 1], bumps[|bumps| - 1];
      if Accepts(max, Fold(max, start, front), last) then last.at else LastProgress(max, start, front)
  }

  ghost predicate ProgressOk(l: Limits, s: Relay) {
    forall p :: p in s.pairs ==>
      && p in s.began && p in s.bumps
      && s.pairs[p].lastProgressAt == LastProgress(l.maxBytesPerSec, s.began[p], s.bumps[p])
  }

  lemma ProgressSnoc(max: nat, start: int, bumps: seq<Bump>, b: Bump)
    ensures LastProgress(max, start, bumps + [b])
            == if Accepts(max, Fold(max, start, bumps), b) then b.at else LastProgress(max, start, bumps)
  {
    assert (bumps + [b])[..|bumps|] == bumps;
  }

  lemma BumpKeepsProgress(l: Limits, s: Relay, p: string, b: Bump)
    requires RelaySafety.Inv(l, s) && ProgressOk(l, s) && p in s.pairs
    ensures ProgressOk(l, DoBump(l, s, p, b))
  {
    hide RelaySafety.Inv, LastProgress, Fold, Accepts, After;
    WindowOf(l, s, p);
    ProgressSnoc(l.maxBytesPerSec, s.began[p], s.bumps[p], b);
    var s' := DoBump(l, s, p, b);
    assert s'.began == s.began && s'.bumps == s.bumps[p := s.bumps[p] + [b]];
    forall q | q in s'.pairs
      ensures q in s'.began && q in s'.bumps && s'.pairs[q].lastProgressAt == LastProgress(l.maxBytesPerSec, s'.began[q], s'.bumps[q])
    {
      if q != p {
        assert s'.pairs[q] == s.pairs[q] && s'.bumps[q] == s.bumps[q];
      }
    }
  }

  lemma WindowOf(l: Limits, s: Relay, p: string)
    requires RelaySafety.Inv(l, s) && p in s.pairs
    ensures p in s.began && p in s.bumps && s.pairs[p].window == Fold(l.maxBytesPerSec, s.began[p], s.bumps[p])
  {
    hide DistinctIds, ServersOk, ClientsOk, Fold;
  }

  /** Fewer pairs, other queues, more messages and other sockets do not matter. */
  ghost predicate SameProgress(s: Relay, s': Relay) {
    && s'.began == s.began && s'.bumps == s.bumps
    && forall p :: p in s'.pairs ==> p in s.pairs && s'.pairs[p].lastProgressAt == s.pairs[p].lastProgressAt
  }

  lemma SameKeepsProgress(l: Limits, s: Relay, s': Relay)
    requires ProgressOk(l, s) && SameProgress(s, s')
    ensures ProgressOk(l, s')
  {
    hide LastProgress;
  }

  lemma ClosePairKeepsProgress(l: Limits, s: Relay, p: string, why: CloseReason<string>)
    requires ProgressOk(l, s)
    ensures ProgressOk(l, DoClosePair(s, p, why))
  {
    hide LastProgress, Closings, ClientsFor, FindServer;
  }

  lemma EmitKeepsProgress(l: Limits, s: Relay, effects: seq<Effect>)
    requires ProgressOk(l, s)
    ensures ProgressOk(l, Emit(s, effects))
  {
    hide LastProgress;
  }

  lemma FromServerKeepsProgress(l: Limits, s: Relay, i: nat, m: Relayed, now: int)
    requires RelaySafety.Inv(l, s) && ProgressOk(l, s) && i < |s.sockets|
    ensures ProgressOk(l, FromServer(l, s, i, m, now))
  {
    hide RelaySafety.Inv, ProgressOk, DoClosePair, DoBump, Emit, ClientsFor, Payloads, Accepts, Why;
    match m
    case PairClose(p, why) => ClosePairKeepsProgress(l, s, p, why);
    case DataForward(p, bytes) =>
      if p in s.pairs {
        var bumped := DoBump(l, s, p, Bump(now, |bytes|));
        BumpKeepsProgress(l, s, p, Bump(now, |bytes|));
        ClosePairKeepsProgress(l, bumped, p, Rejected(Why(RateExceeded)));
        EmitKeepsProgress(l, bumped, Payloads(ClientsFor(s.sockets, p), p, bytes));
      } else {
        EmitKeepsProgress(l, s, [Send(s.sockets[i].id, PairClose(p, ClientGone))]);
      }
    case ServerHeartbeat =>
    case _ => EmitKeepsProgress(l, s, [Shut(s.sockets[i].id)]);
  }

  lemma PassOnKeepsProgress(l: Limits, s: Relay, p: string, bytes: seq<Byte>, now: int, server: nat)
    requires RelaySafety.Inv(l, s) && ProgressOk(l, s) && p in s.pairs
    ensures ProgressOk(l, PassOn(l, s, p, bytes, now, server))
  {
    hide RelaySafety.Inv, ProgressOk, DoBump, PassOn;
    BumpKeepsProgress(l, s, p, Bump(now, |bytes|));
    PassOnSameProgress(l, s, p, bytes, now, server);
    SameKeepsProgress(l, DoBump(l, s, p, Bump(now, |bytes|)), PassOn(l, s, p, bytes, now, server));
  }

  lemma PassOnSameProgress(l: Limits, s: Relay, p: string, bytes: seq<Byte>, now: int, server: nat)
    requires p in s.pairs
    ensures SameProgress(DoBump(l, s, p, Bump(now, |bytes|)), PassOn(l, s, p, bytes, now, server))
  {
    var b := Bump(now, |bytes|);
    var after := DoBump(l, s, p, b);
    assert p in after.pairs;
    var queued := s.pairs[p].queuedBytes + |bytes|;
    var full := after.(pairs := after.pairs[p := after.pairs[p].(queuedBytes := queued)]);
    hide DoBump, DoClosePair, Accepts, Why;
    ClosePairSameProgress(after, p, Rejected(Why(RateExceeded)));
    ClosePairSameProgress(full, p, Rejected(Why(QueueExceeded)));
  }

  lemma ClosePairSameProgress(s: Relay, p: string, why: CloseReason<string>)
    ensures SameProgress(s, DoClosePair(s, p, why))
  {
    hide Closings, ClientsFor, FindServer;
  }

  lemma FromClientKeepsProgress(l: Limits, s: Relay, i: nat, m: Option<Relayed>, bytes: seq<Byte>, now: int)
    requires RelaySafety.Inv(l, s) && ProgressOk(l, s) && i < |s.sockets| && Paired(s.sockets[i])
    ensures ProgressOk(l, FromClient(l, s, i, m, bytes, now))
  {
    var s' := FromClient(l, s, i, m, bytes, now);
    var p, server := s.sockets[i].att.pairId.value, FindServer(s.sockets, s.sockets[i].att.target);
    hide RelaySafety.Inv, ProgressOk, Closings, ClientsFor, FindServer, PassOn;
    if p in s.pairs && !(m.Some? && m.value.PairClose?) && server.Some? {
      PassOnKeepsProgress(l, s, p, bytes, now, server.value);
    } else {
      SameKeepsProgress(l, s, s');
    }
  }

  lemma PairingKeepsProgress(l: Limits, s: Relay, i: nat, m: Relayed, now: int, fresh_: string)
    requires RelaySafety.Inv(l, s) && ProgressOk(l, s) && i < |s.sockets| && s.sockets[i].att.ClientSocket? && fresh_ !in s.began
    ensures ProgressOk(l, Pairing(l, s, i, m, now, fresh_))
  {
    hide RelaySafety.Inv, FindServer, Why;
    assert LastProgress(l.maxBytesPerSec, now, []) == now;
    hide LastProgress;
  }

  lemma OnBinaryKeepsProgress(l: Limits, t: TextCodec<string>, s: Relay, i: nat, bytes: seq<Byte>, now: int, fresh_: string)
    requires RelaySafety.Inv(l, s) && ProgressOk(l, s) && i < |s.sockets| && fresh_ !in s.began
    ensures ProgressOk(l, OnBinary(l, t, s, i, bytes, now, fresh_))
  {
    hide RelaySafety.Inv, ProgressOk, Decoded, Register, FromServer, FromClient, Pairing;
    var m := Decoded(t, bytes);
    match s.sockets[i].att
    case ServerSocket(registered, _) =>
      if m.Some? && registered {
        FromServerKeepsProgress(l, s, i, m.value, now);
      } else if m.Some? {
        RegisterRecords(l, s, i, m.value);
        SameKeepsProgress(l, s, Register(l, s, i, m.value));
      }
    case ClientSocket(_, pairId) =>
      if pairId.Some? {
        FromClientKeepsProgress(l, s, i, m, bytes, now);
      } else if m.Some? {
        PairingKeepsProgress(l, s, i, m.value, now, fresh_);
      }
  }

  lemma StepKeepsProgress(l: Limits, t: TextCodec<string>, s: Relay, e: Event)
    requires RelaySafety.Inv(l, s) && ProgressOk(l, s) && Admissible(s, e)
    ensures ProgressOk(l, Next(l, t, s, e))
  {
    hide RelaySafety.Inv, ProgressOk, OnBinary, IndexOf, Closings, ClientsFor, FindServer, Orphaned, IsRegistered;
    if e.Binary? {
      var later := s.(clock := e.now);
      LaterClock(l, s, e.now);
      SameKeepsProgress(l, s, later);
      var i := IndexOf(s.sockets, e.id);
      if i.Some? {
        OnBinaryKeepsProgress(l, t, later, i.value, e.bytes, e.now, e.fresh_);
      }
    } else {
      SameKeepsProgress(l, s, Next(l, t, s, e));
    }
  }

  lemma {:induction false} RunKeepsProgress(l: Limits, t: TextCodec<string>, s: Relay, events: seq<Event>)
    requires Start(s) && AllAdmissible(l, t, s, events)
    ensures ProgressOk(l, Run(l, t, s, events))
  {
    if events != [] {
      var n := |events| - 1;
      FrontAdmissible(l, t, s, events);
      RunKeepsProgress(l, t, s, events[..n]);
      RunKeepsInv(l, t, s, events[..n]);
      var before := Run(l, t, s, events[..n]);
      assert Admissible(before, events[n]);
      hide RelaySafety.Inv, ProgressOk, Admissible, Next;
      StepKeepsProgress(l, t, before, events[n]);
    }
  }

  /** The pair has let nothing through for longer than allowed. */
  ghost predicate IsStuck(l: Limits, s: Relay, p: string, now: int)
    requires p in s.began && p in s.bumps
  {
    now > LastProgress(l.maxBytesPerSec, s.began[p], s.bumps[p]) + 1000 * l.idleSeconds
  }

  /**
   In every run a sweep closes a live pair if and only if the pair has let nothing through, in
   either direction, for longer than the idle limit; its clients and its server are then told that
   it was stuck, and no other pair is touched.
   */
  lemma SweepClosesStuckPairs(l: Limits, t: TextCodec<string>, s: Relay, events: seq<Event>, p: string, now: int)
    requires Start(s) && AllAdmissible(l, t, s, events) && p in Run(l, t, s, events).pairs
    ensures var before := Run(l, t, s, events);
            var after := Next(l, t, before, Sweep(p, now));
            && p in before.began && p in before.bumps
            && after.pairs == (if IsStuck(l, before, p, now) then before.pairs - {p} else before.pairs)
            && after.sockets == before.sockets
            && (!IsStuck(l, before, p, now) ==> after.out == before.out)
            && (IsStuck(l, before, p, now) ==> IsTold(before, after, p, Stuck))
  {
    RunKeepsProgress(l, t, s, events);
    RunKeepsInv(l, t, s, events);
    hide Run, LastProgress;
    SweepOne(l, t, Run(l, t, s, events), p, now);
  }

  lemma SweepOne(l: Limits, t: TextCodec<string>, before: Relay, p: string, now: int)
    requires RelaySafety.Inv(l, before) && ProgressOk(l, before) && p in before.pairs
    ensures var after := Next(l, t, before, Sweep(p, now));
            && p in before.began && p in before.bumps
            && after.pairs == (if IsStuck(l, before, p, now) then before.pairs - {p} else before.pairs)
            && after.sockets == before.sockets
            && (!IsStuck(l, before, p, now) ==> after.out == before.out)
            && (IsStuck(l, before, p, now) ==> IsTold(before, after, p, Stuck))
  {
    hide RelaySafety.Inv, DoClosePair, IsTold, LastProgress;
    SocketsOfInv(l, before);
    ClosingTells(l, before.(clock := now), p, Stuck);
    ToldLater(before, before.(clock := now), DoClosePair(before.(clock := now), p, Stuck), p, Stuck);
  }

  lemma SocketsOfInv(l: Limits, s: Relay)
    requires RelaySafety.Inv(l, s)
    ensures ServersOk(l, s.sockets)
  {
  }

  lemma ToldLater(s: Relay, later: Relay, after: Relay, p: string, why: CloseReason<string>)
    requires p in s.pairs && later == s.(clock := later.clock) && IsTold(later, after, p, why)
    ensures IsTold(s, after, p, why)
  {
  }

  /** Every client of the pair is told and shut, and its server is told. */
  ghost predicate IsTold(s: Relay, after: Relay, p: string, why: CloseReason<string>)
    requires p in s.pairs
  {
    && s.out <= after.out
    && (forall i :: 0 <= i < |s.sockets| && IsClientOf(s.sockets[i], p) ==>
          Send(s.sockets[i].id, PairClose(p, why)) in after.out[|s.out|..] && Shut(s.sockets[i].id) in after.out[|s.out|..])
    && (forall i :: 0 <= i < |s.sockets| && IsServer(s.sockets[i], s.pairs[p].serverId) ==>
          Send(s.sockets[i].id, PairClose(p, why)) in after.out[|s.out|..])
  }

  lemma ClosingTells(l: Limits, s: Relay, p: string, why: CloseReason<string>)
    requires p in s.pairs && ServersOk(l, s.sockets)
    ensures var after := DoClosePair(s, p, why);
            IsTold(s, after, p, why) && after.pairs == s.pairs - {p} && after.sockets == s.sockets
  {
    var told := Closings(ClientsFor(s.sockets, p), p, why);
    var server := FindServer(s.sockets, s.pairs[p].serverId);
    var effects := told + ToServer(server, PairClose(p, why));
    var after := DoClosePair(s, p, why);
    assert after.out == s.out + effects && after.out[|s.out|..] == effects;
    forall i | 0 <= i < |s.sockets| && IsClientOf(s.sockets[i], p)
      ensures Send(s.sockets[i].id, PairClose(p, why)) in effects && Shut(s.sockets[i].id) in effects
    {
      ClientListed(s.sockets, i, p);
      ListedIsTold(ClientsFor(s.sockets, p), s.sockets[i].id, p, why);
    }
    forall i | 0 <= i < |s.sockets| && IsServer(s.sockets[i], s.pairs[p].serverId)
      ensures Send(s.sockets[i].id, PairClose(p, why)) in effects
    {
      ServerListed(s.sockets, i, s.pairs[p].serverId);
    }
    hide Closings, ClientsFor, FindServer;
  }

  lemma {:induction false} ClientListed(sockets: seq<Socket>, i: nat, p: string)
    requires i < |sockets| && IsClientOf(sockets[i], p)
    ensures sockets[i].id in ClientsFor(sockets, p)
  {
    if i < |sockets| - 1 {
      ClientListed(sockets[..|sockets| - 1], i, p);
    }
  }

  lemma {:induction false} ListedIsTold(ids: seq<nat>, id: nat, p: string, why: CloseReason<string>)
    requires id in ids
    ensures Send(id, PairClose(p, why)) in Closings(ids, p, why) && Shut(id) in Closings(ids, p, why)
  {
    var n := |ids| - 1;
    if id != ids[n] {
      ListedIsTold(ids[..n], id, p, why);
    } else {
      var pair := [Send(id, PairClose(p, why)), Shut(id)];
      assert pair[0] in pair && pair[1] in pair;
    }
  }

  lemma {:induction false} ServerListed(sockets: seq<Socket>, i: nat, serverId: string)
    requires i < |sockets| && IsServer(sockets[i], serverId)
    requires forall a, b :: 0 <= a < b < |sockets| && IsRegistered(sockets[a]) && IsRegistered(sockets[b]) ==>
                              sockets[a].att.serverId != sockets[b].att.serverId
    ensures FindServer(sockets, serverId) == Some(sockets[i].id)
    decreases |sockets|
  {
    if i > 0 {
      assert !IsServer(sockets[0], serverId);
      ServerListed(sockets[1..], i - 1, serverId);
    }
  }
}
