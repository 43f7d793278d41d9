/**
 From the first byte the shell prints to the screen of the client: a client that applies what
 an open puts on the wire ends in the state of the daemon's own tracker.
 */
module Replay {
  import opened Base
  import opened Tracker
  import opened SnapshotPrefix
  import opened Frames
  import Ring
  import Attach

  /** Two terminals that differ at most in their title, which the prefix does not carry. */
  predicate SameButTitle(a: TermState, b: TermState) {
    a.(title := None) == b.(title := None)
  }

  lemma PerformSame(isUtf8: seq<Byte> -> bool, a: TermState, b: TermState, action: Action)
    requires SameButTitle(a, b)
    ensures SameButTitle(Perform(isUtf8, a, action), Perform(isUtf8, b, action))
  {
    if action.CsiDispatch? {
      CsiSame(a, b, action.params, action.intermediates, action.final);
    }
  }

  lemma CsiSame(a: TermState, b: TermState, params: seq<Param>, intermediates: seq<Byte>, final: Byte)
    requires SameButTitle(a, b)
    ensures SameButTitle(Csi(a, params, intermediates, final), Csi(b, params, intermediates, final))
  {
    hide Sgr, ModeSet, ParamOr1;
    assert b == a.(title := b.title);
  }

  lemma {:induction false} PerformAllSame(isUtf8: seq<Byte> -> bool, a: TermState, b: TermState, actions: seq<Action>)
    requires SameButTitle(a, b)
    ensures SameButTitle(PerformAll(isUtf8, a, actions), PerformAll(isUtf8, b, actions))
  {
    hide Perform, SameButTitle;
    if actions != [] {
      var front := actions[..|actions| - 1];
      PerformAllSame(isUtf8, a, b, front);
      PerformSame(isUtf8, PerformAll(isUtf8, a, front), PerformAll(isUtf8, b, front), actions[|actions| - 1]);
    }
  }

  /** The same bytes keep two terminals the same, whichever parser they share. */
  lemma AdvanceSame<P>(lib: Library<P>, a: Tracked<P>, b: Tracked<P>, bytes: seq<Byte>)
    requires a.parser == b.parser && SameButTitle(a.state, b.state)
    ensures Advance(lib, a, bytes).parser == Advance(lib, b, bytes).parser
    ensures SameButTitle(Advance(lib, a, bytes).state, Advance(lib, b, bytes).state)
  {
    AdvanceIsParse(lib, a, bytes);
    AdvanceIsParse(lib, b, bytes);
    PerformAllSame(lib.isUtf8, a.state, b.state, Parse(lib, a.parser, bytes).1);
  }

  /** The parser, from its start, makes of the prefix the control functions it was printed from. */
  ghost predicate Understands<P>(lib: Library<P>, a: AnchorState) {
    Parse(lib, lib.start, PrefixBytes(a)) == (lib.start, MeaningAll(a))
  }

  function MeaningAll(a: AnchorState): seq<Action> {
    Ecma48.MeaningAll(PrefixControls(a))
  }

  /**
   Any parser that understands the prefix: a terminal that is given the prefix of a state cut
   at the parser's start, and then the output from the cut on, follows the daemon's tracker.
   */
  lemma ReplayFollows<P>(lib: Library<P>, server: Tracked<P>, client: Tracked<P>, tail: seq<Byte>)
    requires Reachable(server.state) && Reachable(client.state)
    requires Restorable(View(server.state)) && Understands(lib, View(server.state))
    requires server.parser == lib.start && client.parser == lib.start
    ensures var ahead := Advance(lib, client, PrefixBytes(View(server.state)) + tail);
            && ahead.parser == Advance(lib, server, tail).parser
            && SameButTitle(ahead.state, Advance(lib, server, tail).state)
  {
    var a := View(server.state);
    AdvanceConcat(lib, client, PrefixBytes(a), tail);
    AdvanceIsParse(lib, client, PrefixBytes(a));
    PrefixEffect(lib.isUtf8, a, client.state);
    assert SameButTitle(Restored(a, client.state), server.state);
    AdvanceSame(lib, Advance(lib, client, PrefixBytes(a)), server, tail);
  }

  lemma PerformOne(isUtf8: seq<Byte> -> bool, s: TermState, a: Action)
    ensures PerformAll(isUtf8, s, [a]) == Perform(isUtf8, s, a)
  {
    assert [a][..0] == [];
    assert PerformAll(isUtf8, s, [a][..0]) == s;
  }

  lemma CursorUpKeepsColumn(s: TermState, params: seq<Param>, intermediates: seq<Byte>)
    ensures Csi(s, params, intermediates, 0x41).col == s.col
  {
  }

  /** Everything but ground keeps `A` from being printed. */
  lemma OnlyGroundPrints(isUtf8: seq<Byte> -> bool, t: Tracked<Ecma48.Lexer>)
    requires t.state.col < U16_MAX
    ensures t.parser == Ecma48.Ground <==> Advance(Ecma48.AsLibrary(isUtf8), t, [0x41]).state.col == t.state.col + 1
  {
    var lib := Ecma48.AsLibrary(isUtf8);
    AdvanceIsParse(lib, t, [0x41]);
    Ecma48.ParseOne(lib, t.parser, 0x41);
    PrintOrNot(isUtf8, t.parser, t.state);
    hide Advance, Parse, PerformAll, Ecma48.Step;
  }

  lemma PrintOrNot(isUtf8: seq<Byte> -> bool, l: Ecma48.Lexer, s: TermState)
    requires s.col < U16_MAX
    ensures l == Ecma48.Ground <==> PerformAll(isUtf8, s, Ecma48.Step(l, 0x41).1).col == s.col + 1
  {
    var actions := Ecma48.Step(l, 0x41).1;
    if actions == [] {
      PerformNone(isUtf8, s);
    } else {
      assert actions == [actions[0]];
      PerformOne(isUtf8, s, actions[0]);
      hide PerformAll, Csi;
      if l.CsiEntry? || l.CsiParam? || l.CsiIntermediate? {
        CursorUpKeepsColumn(s, actions[0].params, actions[0].intermediates);
      }
    }
  }

  lemma PerformNone(isUtf8: seq<Byte> -> bool, s: TermState)
    ensures PerformAll(isUtf8, s, []) == s
  {
  }

  /**
   A safe split is not always a place to cut. With the control functions of ECMA-48, a cut
   replays faithfully whatever comes next exactly when the parser is in its ground state there
   and the prefix carries the state.
   */
  lemma CutIsFaithfulExactlyAtGround(isUtf8: seq<Byte> -> bool, server: Tracked<Ecma48.Lexer>, client: Tracked<Ecma48.Lexer>)
    requires Reachable(server.state) && Reachable(client.state) && client.parser == Ecma48.Ground
    requires FinalBytes(server.state.charset)
    ensures var lib := Ecma48.AsLibrary(isUtf8);
            server.parser == Ecma48.Ground && Restorable(View(server.state)) <==>
            forall tail :: SameButTitle(Advance(lib, client, PrefixBytes(View(server.state)) + tail).state,
                                        Advance(lib, server, tail).state)
  {
    var lib := Ecma48.AsLibrary(isUtf8);
    var a := View(server.state);
    PrefixParses(a, isUtf8);
    if !Restorable(a) {
      PrefixRoundTrip(a, client, isUtf8);
      hide Advance, PrefixBytes, Restorable;
      assert PrefixBytes(a) + [] == PrefixBytes(a);
      AdvanceNothing(lib, server);
      assert !SameButTitle(Advance(lib, client, PrefixBytes(a) + []).state, Advance(lib, server, []).state);
    } else if server.parser == Ecma48.Ground {
      forall tail
        ensures SameButTitle(Advance(lib, client, PrefixBytes(a) + tail).state, Advance(lib, server, tail).state)
      {
        ReplayFollows(lib, server, client, tail);
      }
    } else {
      var tail: seq<Byte> := [0x41];
      PrefixRoundTrip(a, client, isUtf8);
      AdvanceConcat(lib, client, PrefixBytes(a), tail);
      OnlyGroundPrints(isUtf8, server);
      OnlyGroundPrints(isUtf8, Advance(lib, client, PrefixBytes(a)));
      hide Advance, PrefixBytes;
      assert !SameButTitle(Advance(lib, client, PrefixBytes(a) + tail).state, Advance(lib, server, tail).state);
    }
  }

  lemma AdvanceNothing<P>(lib: Library<P>, t: Tracked<P>)
    ensures Advance(lib, t, []) == t
  {
  }

  /** A line feed inside a control sequence: a safe split, and yet not at ground. */
  lemma SafeSplitInsideSequence(isUtf8: seq<Byte> -> bool)
    ensures var lib := Ecma48.AsLibrary(isUtf8);
            var t := Advance(lib, Fresh(lib), [0x1b, 0x5b, 0x33, 0x0a]);
            t.safe && t.parser != Ecma48.Ground
  {
    var lib := Ecma48.AsLibrary(isUtf8);
    var bytes: seq<Byte> := [0x1b, 0x5b, 0x33];
    assert bytes + [0x0a] == [0x1b, 0x5b, 0x33, 0x0a];
    assert (bytes + [0x0a])[..3] == bytes;
    var sub: seq<Byte> := [0x1b, 0x5b];
    assert bytes[..2] == sub && sub[..1] == [0x1b] && [0x1b][..0] == [];
    assert Advance(lib, Fresh(lib), []).parser == Ecma48.Ground;
    assert Advance(lib, Fresh(lib), [0x1b]).parser == Ecma48.Escape;
    assert Advance(lib, Fresh(lib), sub).parser == Ecma48.CsiEntry;
    assert Advance(lib, Fresh(lib), bytes).parser == Ecma48.CsiParam([], [], 3, []);
  }

  // ----- The designations such a parser can dispatch

  predicate EscFinals(actions: seq<Action>) {
    forall i :: 0 <= i < |actions| && actions[i].EscDispatch? ==> 0x30 <= actions[i].final <= 0x7e
  }

  lemma {:induction false} PerformAllKeepsFinals(isUtf8: seq<Byte> -> bool, s: TermState, actions: seq<Action>)
    requires FinalBytes(s.charset) && EscFinals(actions)
    ensures FinalBytes(PerformAll(isUtf8, s, actions).charset)
  {
    if actions != [] {
      PerformAllKeepsFinals(isUtf8, s, actions[..|actions| - 1]);
    }
  }

  lemma StepEscFinals(l: Ecma48.Lexer, b: Byte)
    ensures EscFinals(Ecma48.Step(l, b).1)
  {
  }

  lemma {:induction false} LexerKeepsFinals(isUtf8: seq<Byte> -> bool, bytes: seq<Byte>)
    ensures FinalBytes(Advance(Ecma48.AsLibrary(isUtf8), Fresh(Ecma48.AsLibrary(isUtf8)), bytes).state.charset)
  {
    var lib := Ecma48.AsLibrary(isUtf8);
    if bytes != [] {
      var front := bytes[..|bytes| - 1];
      var before := Advance(lib, Fresh(lib), front);
      LexerKeepsFinals(isUtf8, front);
      StepEscFinals(before.parser, bytes[|bytes| - 1]);
      PerformAllKeepsFinals(isUtf8, before.state, Ecma48.Step(before.parser, bytes[|bytes| - 1]).1);
    }
  }

  // ----- End to end

  /**
   The whole pipeline, for every interleaving of the reader, the forwarders and the
   connection: if the snapshot was cut at ground and is restorable, and the receiver did not
   lag, then a fresh client that is fed the rendered bytes of the acknowledgement and the
   frames past its end shows, up to the title, exactly what the daemon tracks there.
   */
  lemma OpenedClientFollowsDaemon(isUtf8: seq<Byte> -> bool, s: Attach.State, events: seq<Attach.Event>, i: nat)
    requires Attach.Start(s) && Attach.Run(Ecma48.AsLibrary(isUtf8), s, events).opens < U32_MAX
    requires var now := Attach.Run(Ecma48.AsLibrary(isUtf8), s, events);
             i < |now.wire| && now.wire[i].Ack? && now.wire[i].stream !in now.lagged
    ensures var lib := Ecma48.AsLibrary(isUtf8);
            var now := Attach.Run(lib, s, events);
            var id, t, shot := now.wire[i].stream, now.wire[i].terminal, now.wire[i].shot;
            && id in now.origins && t in now.terminals
            && var history := now.terminals[t].history;
            var frames := Attach.OnWire(now.wire, id);
            && shot.start <= shot.end <= |history|
            && var last := Max(shot.end, End(frames, now.origins[id].base));
            && last <= |history|
            && (Ring.TrackedAt(lib, history, shot.start).parser == Ecma48.Ground
                && Restorable(Ring.StateAt(lib, history, shot.start))
                ==> SameButTitle(
                      Advance(lib, Fresh(lib), shot.render + BytesAfter(frames, shot.end)).state,
                      Ring.TrackedAt(lib, history, last).state))
  {
    var lib := Ecma48.AsLibrary(isUtf8);
    Attach.OpenIsExact(lib, s, events, i);
    hide Attach.Run;
    var now := Attach.Run(lib, s, events);
    var id, t, shot := now.wire[i].stream, now.wire[i].terminal, now.wire[i].shot;
    var history := now.terminals[t].history;
    var frames := Attach.OnWire(now.wire, id);
    var last := Max(shot.end, End(frames, now.origins[id].base));
    FollowFrom(isUtf8, history, shot, BytesAfter(frames, shot.end), last);
  }

  lemma FollowFrom(isUtf8: seq<Byte> -> bool, history: seq<Byte>, shot: Attach.Shot, more: seq<Byte>, last: nat)
    requires shot.start <= shot.end <= last <= |history|
    requires var lib := Ecma48.AsLibrary(isUtf8);
             shot.render == PrefixBytes(Ring.StateAt(lib, history, shot.start)) + history[shot.start..shot.end]
    requires history[shot.start..shot.end] + more == history[shot.start..last]
    ensures var lib := Ecma48.AsLibrary(isUtf8);
            Ring.TrackedAt(lib, history, shot.start).parser == Ecma48.Ground
            && Restorable(Ring.StateAt(lib, history, shot.start)) ==>
              SameButTitle(Advance(lib, Fresh(lib), shot.render + more).state, Ring.TrackedAt(lib, history, last).state)
  {
    var lib := Ecma48.AsLibrary(isUtf8);
    var front, tail := history[..shot.start], history[shot.start..last];
    var server := Advance(lib, Fresh(lib), front);
    var a := View(server.state);
    hide Advance, PrefixBytes, SameButTitle, Reachable, FinalBytes, Understands, Restorable, Ecma48.AsLibrary;
    Regroup(PrefixBytes(a), history, shot.start, shot.end, last, more);
    AdvanceConcat(lib, Fresh(lib), front, tail);
    if server.parser == Ecma48.Ground && Restorable(a) {
      AdvanceKeepsReachable(lib, Fresh(lib), front);
      LexerKeepsFinals(isUtf8, front);
      UnderstandsItsPrefix(isUtf8, a);
      ReplayFollows(lib, server, Fresh(lib), tail);
    }
  }

  lemma Regroup(prefix: seq<Byte>, history: seq<Byte>, start: nat, end: nat, last: nat, more: seq<Byte>)
    requires start <= end <= last <= |history|
    requires history[start..end] + more == history[start..last]
    ensures prefix + history[start..end] + more == prefix + history[start..last]
    ensures history[..start] + history[start..last] == history[..last]
  {
    assert prefix + history[start..end] + more == prefix + (history[start..end] + more);
  }

  lemma UnderstandsItsPrefix(isUtf8: seq<Byte> -> bool, a: AnchorState)
    requires FinalBytes(a.charset)
    ensures Understands(Ecma48.AsLibrary(isUtf8), a)
  {
    PrefixParses(a, isUtf8);
  }
}
