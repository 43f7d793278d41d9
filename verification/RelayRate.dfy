/** The bytes the relay forwards over whole runs, against the attempts its rate window let through. */
module RelayRate {
  import opened Base
  import opened RelayCodec
  import opened RateWindow
  import opened RelayWorker
  import opened RelaySafety

  function SizeOf(e: Effect): nat
    requires e.Payload? || (e.Send? && e.message.DataForward?)
  {
    if e.Payload? then |e.bytes| else |e.message.bytes|
  }

  /** The payload bytes of a pair among some effects. */
  function PayloadBytes(effects: seq<Effect>, p: string): nat {
    if effects == [] then 0
    else
      var last := effects[|effects| - 1];
      PayloadBytes(effects[..|effects| - 1], p) + if Carries(last, p) then SizeOf(last) else 0
  }

  /** The payload bytes of a pair that a run sends at times from `from` to `to`, both included. */
  ghost function ForwardedIn(l: Limits, t: TextCodec<string>, s: Relay, events: seq<Event>, p: string, from: int, to: int): nat {
    if events == [] then 0
    else
      var front := events[..|events| - 1];
      var before, now := Run(l, t, s, front), Run(l, t, s, events);
      ForwardedIn(l, t, s, front, p, from, to)
      + if |before.out| <= |now.out| && from <= now.clock <= to then PayloadBytes(now.out[|before.out|..], p) else 0
  }

  lemma {:induction false} NoneCarried(effects: seq<Effect>, p: string)
    requires CarriesNone(effects, p)
    ensures PayloadBytes(effects, p) == 0
  {
    if effects != [] {
      NoneCarried(effects[..|effects| - 1], p);
    }
  }

  lemma {:induction false} PayloadsSize(ids: seq<nat>, p: string, bytes: seq<Byte>)
    requires |ids| <= 1
    ensures PayloadBytes(Payloads(ids, p, bytes), p) <= |bytes|
  {
    var all := Payloads(ids, p, bytes);
    if |ids| == 1 {
      assert all[..0] == [] && PayloadBytes(all[..0], p) == 0;
      assert all[0] == Payload(ids[0], p, bytes);
    }
  }

  lemma OneSend(server: nat, p: string, bytes: seq<Byte>)
    ensures PayloadBytes([Send(server, DataForward(p, bytes))], p) == |bytes|
  {
    var e: Effect := Send(server, DataForward(p, bytes));
    assert [e][..0] == [] && PayloadBytes([e][..0], p) == 0;
  }

  // ----- What one step sends and counts

  /** What a step sent of the pair, with its attempt if it made one. */
  ghost predicate Metered(l: Limits, s: Relay, s': Relay, p: string) {
    && p in s.began && p in s'.began && s'.began[p] == s.began[p] && p in s.bumps && p in s'.bumps
    && s.out <= s'.out
    && var sent := PayloadBytes(s'.out[|s.out|..], p);
    || (s'.bumps[p] == s.bumps[p] && sent == 0)
    || (exists b :: Attempt(l, s, s', p, b, sent))
  }

  ghost predicate Attempt(l: Limits, s: Relay, s': Relay, p: string, b: Bump, sent: nat)
    requires p in s.bumps && p in s'.bumps
  {
    && s'.bumps[p] == s.bumps[p] + [b] && b.at == s'.clock
    && (sent > 0 ==> p in s.pairs && Accepts(l.maxBytesPerSec, s.pairs[p].window, b) && sent <= b.bytes)
  }

  lemma QuietIsMetered(l: Limits, s: Relay, s': Relay, p: string)
    requires p in s.began && p in s.bumps && p in s'.began && p in s'.bumps && s'.began[p] == s.began[p]
    requires QuietFor(s, s', p)
    requires s'.bumps[p] == s.bumps[p] || exists b :: s'.bumps[p] == s.bumps[p] + [b] && b.at == s'.clock
    ensures Metered(l, s, s', p)
  {
    NoneCarried(s'.out[|s.out|..], p);
    hide PayloadBytes, CarriesNone, Accepts;
    if s'.bumps[p] != s.bumps[p] {
      var b :| s'.bumps[p] == s.bumps[p] + [b] && b.at == s'.clock;
      assert Attempt(l, s, s', p, b, 0);
    }
  }

  lemma SentIsMetered(l: Limits, s: Relay, s': Relay, p: string, b: Bump, effects: seq<Effect>)
    requires p in s.began && p in s'.began && s'.began[p] == s.began[p] && b.at == s'.clock
    requires s'.out == s.out + effects && Counted(l, s, s', p, b) && PayloadBytes(effects, p) <= b.bytes
    ensures Metered(l, s, s', p)
  {
    assert s'.out[|s.out|..] == effects;
    hide PayloadBytes, Accepts;
    assert Attempt(l, s, s', p, b, PayloadBytes(effects, p));
  }

  lemma BumpedQuiet(l: Limits, s: Relay, s': Relay, pairId: string, b: Bump, p: string)
    requires RelaySafety.Inv(l, s) && p in s.began && pairId in s.pairs && b.at == s.clock == s'.clock
    requires s'.began == s.began && s'.bumps == DoBump(l, s, pairId, b).bumps && QuietFor(s, s', p)
    ensures Metered(l, s, s', p)
  {
    hide QuietFor;
    if pairId == p {
      assert s'.bumps[p] == s.bumps[p] + [b];
    }
    QuietIsMetered(l, s, s', p);
  }

  lemma ServerIsMetered(l: Limits, s: Relay, i: nat, m: Relayed, now: int, p: string)
    requires RelaySafety.Inv(l, s) && i < |s.sockets| && now == s.clock && p in s.began
    ensures Metered(l, s, FromServer(l, s, i, m, now), p)
  {
    var s' := FromServer(l, s, i, m, now);
    hide Closings, ClientsFor, FindServer, QuietFor, Accepts, After, Metered, Bumped, Payloads;
    NothingAdded(s, p);
    match m
    case ServerHeartbeat => QuietIsMetered(l, s, s', p);
    case PairClose(pairId, why) =>
      ClosePairQuiet(s, s, pairId, why, p);
      QuietIsMetered(l, s, s', p);
    case DataForward(pairId, bytes) => ForwardIsMetered(l, s, i, pairId, bytes, now, p);
    case _ =>
      EmitOneQuiet(s, Shut(s.sockets[i].id), p);
      QuietIsMetered(l, s, s', p);
  }

  lemma ForwardIsMetered(l: Limits, s: Relay, i: nat, pairId: string, bytes: seq<Byte>, now: int, p: string)
    requires RelaySafety.Inv(l, s) && i < |s.sockets| && now == s.clock && p in s.began
    ensures Metered(l, s, FromServer(l, s, i, DataForward(pairId, bytes), now), p)
  {
    var s' := FromServer(l, s, i, DataForward(pairId, bytes), now);
    var b := Bump(now, |bytes|);
    var payloads := Payloads(ClientsFor(s.sockets, pairId), pairId, bytes);
    BumpsKeys(l, s);
    PayloadsFit(l, s, p, bytes);
    OthersPayloads(ClientsFor(s.sockets, pairId), pairId, bytes, p);
    hide Closings, ClientsFor, FindServer, Payloads, QuietFor, CarriesNone, Metered, Bumped, PayloadBytes, Accepts, RelaySafety.Inv;
    if pairId !in s.pairs {
      EmitOneQuiet(s, Send(s.sockets[i].id, PairClose(pairId, ClientGone)), p);
      QuietIsMetered(l, s, s', p);
    } else if !Accepts(l.maxBytesPerSec, s.pairs[pairId].window, b) {
      ClosePairQuiet(DoBump(l, s, pairId, b), s, pairId, Rejected(Why(RateExceeded)), p);
      BumpedQuiet(l, s, s', pairId, b, p);
    } else if pairId != p {
      assert s'.out == s.out + payloads;
      EmitQuiet(s, s', payloads, p);
      BumpedQuiet(l, s, s', pairId, b, p);
    } else {
      SentIsMetered(l, s, s', p, b, payloads);
    }
  }

  lemma PayloadsFit(l: Limits, s: Relay, p: string, bytes: seq<Byte>)
    requires RelaySafety.Inv(l, s)
    ensures PayloadBytes(Payloads(ClientsFor(s.sockets, p), p, bytes), p) <= |bytes|
  {
    OneClientPerPair(s, |s.sockets|, p);
    assert s.sockets[..|s.sockets|] == s.sockets;
    PayloadsSize(ClientsFor(s.sockets, p), p, bytes);
  }

  lemma OthersPayloads(ids: seq<nat>, pairId: string, bytes: seq<Byte>, p: string)
    ensures pairId != p ==> CarriesNone(Payloads(ids, pairId, bytes), p)
  {
  }

  lemma ClientIsMetered(l: Limits, s: Relay, i: nat, m: Option<Relayed>, bytes: seq<Byte>, now: int, p: string)
    requires RelaySafety.Inv(l, s) && i < |s.sockets| && Paired(s.sockets[i]) && now == s.clock && p in s.began
    ensures Metered(l, s, FromClient(l, s, i, m, bytes, now), p)
  {
    var s' := FromClient(l, s, i, m, bytes, now);
    var id, target, pairId := s.sockets[i].id, s.sockets[i].att.target, s.sockets[i].att.pairId.value;
    hide Closings, ClientsFor, QuietFor, Accepts, After, Metered, Bumped;
    if pairId !in s.pairs {
      EmitOneQuiet(s, Shut(id), p);
      QuietIsMetered(l, s, s', p);
    } else if m.Some? && m.value.PairClose? {
      ClosePairQuiet(s, s, m.value.pairId, m.value.why, p);
      QuietIsMetered(l, s, s', p);
    } else if FindServer(s.sockets, target).None? {
      ClosePairQuiet(s, s, pairId, ServerGone, p);
      QuietIsMetered(l, s, s', p);
    } else {
      PassIsMetered(l, s, i, m, bytes, now, p);
    }
  }

  lemma PassIsMetered(l: Limits, s: Relay, i: nat, m: Option<Relayed>, bytes: seq<Byte>, now: int, p: string)
    requires RelaySafety.Inv(l, s) && i < |s.sockets| && Paired(s.sockets[i]) && now == s.clock && p in s.began
    requires s.sockets[i].att.pairId.value in s.pairs && !(m.Some? && m.value.PairClose?)
    requires FindServer(s.sockets, s.sockets[i].att.target).Some?
    ensures Metered(l, s, FromClient(l, s, i, m, bytes, now), p)
  {
    var s' := FromClient(l, s, i, m, bytes, now);
    var pairId := s.sockets[i].att.pairId.value;
    var send := [Send(FindServer(s.sockets, s.sockets[i].att.target).value, DataForward(pairId, bytes))];
    hide Closings, ClientsFor, QuietFor, After, Metered, FindServer;
    var b := Bump(now, |bytes|);
    var after := DoBump(l, s, pairId, b);
    var queued := s.pairs[pairId].queuedBytes + |bytes|;
    var full := after.(pairs := after.pairs[pairId := after.pairs[pairId].(queuedBytes := queued)]);
    if !Accepts(l.maxBytesPerSec, s.pairs[pairId].window, b) {
      ClosePairQuiet(after, s, pairId, Rejected(Why(RateExceeded)), p);
      BumpedQuiet(l, s, s', pairId, b, p);
    } else if queued > l.maxQueuedBytes {
      ClosePairQuiet(full, s, pairId, Rejected(Why(QueueExceeded)), p);
      BumpedQuiet(l, s, s', pairId, b, p);
    } else if pairId != p {
      EmitQuiet(s, s', send, p);
      BumpedQuiet(l, s, s', pairId, b, p);
    } else {
      OneSend(FindServer(s.sockets, s.sockets[i].att.target).value, p, bytes);
      SentIsMetered(l, s, s', p, b, send);
    }
  }

  lemma PairingIsMetered(l: Limits, s: Relay, i: nat, m: Relayed, now: int, fresh_: string, p: string)
    requires RelaySafety.Inv(l, s) && i < |s.sockets| && s.sockets[i].att.ClientSocket? && p in s.began && fresh_ !in s.began
    ensures Metered(l, s, Pairing(l, s, i, m, now, fresh_), p)
  {
    hide FindServer, Metered, RelaySafety.Inv;
    PairingEmits(l, s, i, m, now, fresh_, p);
    assert p in s.bumps by { BumpsKeys(l, s); }
    QuietIsMetered(l, s, Pairing(l, s, i, m, now, fresh_), p);
  }

  lemma BumpsKeys(l: Limits, s: Relay)
    requires RelaySafety.Inv(l, s)
    ensures s.began.Keys == s.bumps.Keys && forall p :: p in s.pairs ==> p in s.began
  {
  }

  lemma BinaryIsMetered(l: Limits, t: TextCodec<string>, s: Relay, i: nat, bytes: seq<Byte>, now: int, fresh_: string, p: string)
    requires RelaySafety.Inv(l, s) && i < |s.sockets| && now == s.clock && fresh_ !in s.began && p in s.began
    ensures Metered(l, s, OnBinary(l, t, s, i, bytes, now, fresh_), p)
  {
    BumpsKeys(l, s);
    hide RelaySafety.Inv, QuietFor, Metered, Decoded, Register, FromServer, FromClient, Pairing;
    NothingAdded(s, p);
    var m := Decoded(t, bytes);
    match s.sockets[i].att
    case ServerSocket(registered, _) =>
      if m.None? {
        QuietIsMetered(l, s, s, p);
      } else if registered {
        ServerIsMetered(l, s, i, m.value, now, p);
      } else {
        RegisterQuiet(l, s, i, m.value, p);
        RegisterRecords(l, s, i, m.value);
        QuietIsMetered(l, s, Register(l, s, i, m.value), p);
      }
    case ClientSocket(_, pairId) =>
      if pairId.Some? {
        ClientIsMetered(l, s, i, m, bytes, now, p);
      } else if m.None? {
        QuietIsMetered(l, s, s, p);
      } else {
        PairingIsMetered(l, s, i, m.value, now, fresh_, p);
      }
  }

  lemma SameStart(l: Limits, s: Relay, later: Relay, s': Relay, p: string)
    requires later == s.(clock := later.clock) && Metered(l, later, s', p)
    ensures Metered(l, s, s', p)
  {
    hide PayloadBytes, Accepts;
    var sent := PayloadBytes(s'.out[|s.out|..], p);
    if s'.bumps[p] != s.bumps[p] || sent != 0 {
      var b :| Attempt(l, later, s', p, b, sent);
      assert Attempt(l, s, s', p, b, sent);
    }
  }

  lemma StepIsMetered(l: Limits, t: TextCodec<string>, s: Relay, e: Event, p: string)
    requires RelaySafety.Inv(l, s) && Admissible(s, e) && p in s.began
    ensures Metered(l, s, Next(l, t, s, e), p)
  {
    BumpsKeys(l, s);
    hide RelaySafety.Inv, QuietFor, Metered, OnBinary, IndexOf;
    if e.Binary? {
      var later := s.(clock := e.now);
      LaterClock(l, s, e.now);
      var i := IndexOf(s.sockets, e.id);
      if i.Some? {
        BinaryIsMetered(l, t, later, i.value, e.bytes, e.now, e.fresh_, p);
        SameStart(l, s, later, Next(l, t, s, e), p);
      } else {
        NothingAdded(s, p);
        QuietIsMetered(l, s, later, p);
      }
    } else {
      OthersAreQuiet(l, t, s, e, p);
      hide Next;
      QuietIsMetered(l, s, Next(l, t, s, e), p);
    }
  }

  /** Nothing is sent on an id no pair was begun with. */
  lemma NotBegunIsQuiet(l: Limits, t: TextCodec<string>, s: Relay, e: Event, p: string)
    requires RelaySafety.Inv(l, s) && Admissible(s, e) && p !in s.began
    ensures QuietFor(s, Next(l, t, s, e), p)
    ensures p in Next(l, t, s, e).began ==> p in Next(l, t, s, e).bumps
  {
    BumpsKeys(l, s);
    StepKeepsInv(l, t, s, e);
    BumpsKeys(l, Next(l, t, s, e));
    hide RelaySafety.Inv, QuietFor, OnBinary, IndexOf;
    if e.Binary? {
      var later := s.(clock := e.now);
      NothingAdded(s, p);
      var i := IndexOf(s.sockets, e.id);
      if i.Some? {
        BinaryNotBegun(l, t, later, i.value, e.bytes, e.now, e.fresh_, p);
        SameOut(s, later, Next(l, t, s, e), p);
      }
    } else {
      OthersAreQuiet(l, t, s, e, p);
    }
  }

  lemma BinaryNotBegun(l: Limits, t: TextCodec<string>, s: Relay, i: nat, bytes: seq<Byte>, now: int, fresh_: string, p: string)
    requires i < |s.sockets| && p !in s.pairs
    ensures QuietFor(s, OnBinary(l, t, s, i, bytes, now, fresh_), p)
  {
    hide QuietFor, Decoded, FromServer, FromClient, Pairing, Register;
    NothingAdded(s, p);
    var m := Decoded(t, bytes);
    match s.sockets[i].att
    case ServerSocket(registered, _) =>
      if m.Some? && registered {
        ServerQuiet(l, s, i, m.value, now, p);
      } else if m.Some? {
        RegisterQuiet(l, s, i, m.value, p);
      }
    case ClientSocket(_, pairId) =>
      if pairId.Some? {
        ClientQuiet(l, s, i, m, bytes, now, p);
      } else if m.Some? {
        PairingEmits(l, s, i, m.value, now, fresh_, p);
      }
  }

  // ----- Whole runs

  ghost function Allowed(l: Limits, s: Relay, p: string, from: int, to: int): nat {
    if p in s.began && p in s.bumps then AcceptedIn(l.maxBytesPerSec, s.began[p], s.bumps[p], from, to) else 0
  }

  lemma MeteredIsAllowed(l: Limits, s: Relay, s': Relay, p: string, from: int, to: int)
    requires RelaySafety.Inv(l, s) && p in s.began && Metered(l, s, s', p)
    ensures s.out <= s'.out
    ensures Allowed(l, s, p, from, to) + (if from <= s'.clock <= to then PayloadBytes(s'.out[|s.out|..], p) else 0)
            <= Allowed(l, s', p, from, to)
  {
    hide PayloadBytes, AcceptedIn, DistinctIds, ServersOk, ClientsOk, PairsOk, Ordered, LastTime;
    var sent := PayloadBytes(s'.out[|s.out|..], p);
    if s'.bumps[p] != s.bumps[p] || sent != 0 {
      var b :| Attempt(l, s, s', p, b, sent);
      hide Fold, Accepts;
      Count(l.maxBytesPerSec, s.began[p], s.bumps[p], b, from, to);
    }
  }

  lemma {:induction false} ForwardedIsAllowed(l: Limits, t: TextCodec<string>, s: Relay, events: seq<Event>, p: string, from: int, to: int)
    requires Start(s) && AllAdmissible(l, t, s, events)
    ensures ForwardedIn(l, t, s, events, p, from, to) <= Allowed(l, Run(l, t, s, events), p, from, to)
  {
    if events != [] {
      var n := |events| - 1;
      var front, e := events[..n], events[n];
      FrontAdmissible(l, t, s, events);
      ForwardedIsAllowed(l, t, s, front, p, from, to);
      RunKeepsInv(l, t, s, front);
      var before, now := Run(l, t, s, front), Run(l, t, s, events);
      assert Admissible(before, e) && now == Next(l, t, before, e);
      hide RelaySafety.Inv, Admissible, AllAdmissible, Next, Metered, QuietFor, Run;
      if p in before.began {
        StepIsMetered(l, t, before, e, p);
        MeteredIsAllowed(l, before, now, p, from, to);
      } else {
        NotBegunIsQuiet(l, t, before, e, p);
        QuietBytes(before, now, p);
      }
    }
  }

  lemma QuietBytes(s: Relay, s': Relay, p: string)
    requires QuietFor(s, s', p)
    ensures s.out <= s'.out && PayloadBytes(s'.out[|s.out|..], p) == 0
  {
    NoneCarried(s'.out[|s.out|..], p);
  }

  /**
   In every admissible run the payload bytes the relay sends on a pair, both ways together, within
   any interval of `length` milliseconds are at most (floor((length - 1) / 1000) + 2) times the
   limit; so at most twice the limit in any second.
   */
  lemma ForwardedBytesAreBounded(l: Limits, t: TextCodec<string>, s: Relay, events: seq<Event>, p: string, from: int, length: nat)
    requires Start(s) && AllAdmissible(l, t, s, events)
    ensures var forwarded := ForwardedIn(l, t, s, events, p, from, from + length);
            && (p in Run(l, t, s, events).began ==> forwarded <= ((length - 1) / WINDOW_MS + 2) * l.maxBytesPerSec)
            && (p !in Run(l, t, s, events).began ==> forwarded == 0)
            && (length <= 1000 ==> forwarded <= 2 * l.maxBytesPerSec)
  {
    hide ForwardedIn, Run, AcceptedIn, AllAdmissible;
    ForwardedIsAllowed(l, t, s, events, p, from, from + length);
    var now := Run(l, t, s, events);
    if p in now.began {
      PairRateIsBounded(l, t, s, events, p, from, length);
      if length <= 1000 {
        AtMostTwo(length, l.maxBytesPerSec);
      }
    }
  }

  lemma AtMostTwo(length: nat, max: nat)
    requires length <= 1000
    ensures ((length - 1) / WINDOW_MS + 2) * max <= 2 * max
  {
    assert (length - 1) / WINDOW_MS + 2 <= 2;
    Monotone((length - 1) / WINDOW_MS + 2, 2, max);
  }
}
