/**
 The two command queues across reconnects (crates/client/client-core/src/session.rs,
 `run_one_connection`): what is taken from a channel stays pending until it has been sent.
 */
module CommandQueues {
  import opened Base
  import opened InputBatching

  /** A session command is known by its place in the channel; its reply slot goes with it. */
  datatype SessionCmd = Request(slot: nat) | Shutdown

  /**
   The last six fields only record what was submitted, typed, sent and dropped, and whether the
   terminal of each terminal command that was done with was open then.
   */
  datatype State = State(
    channel: seq<SessionCmd>,
    pending: seq<SessionCmd>,
    keys: seq<Cmd>,
    pendingKeys: seq<Cmd>,
    active: Option<TerminalId>,
    stopped: bool,
    submitted: seq<SessionCmd>,
    sent: seq<SessionCmd>,
    typed: seq<Cmd>,
    done: seq<Cmd>,
    wasOpen: seq<bool>,
    sentKeys: seq<Cmd>)

  /**
   `Turn` is one pass of the connection loop: whether the transport takes the frame (if not,
   the connection ends and the next one goes on with the same queues), whether the session
   channel is looked at first, and how many arrivals the batching window catches.
   */
  datatype Event =
    | Submit(cmd: SessionCmd)
    | Type(key: Cmd)
    | SetActive(terminal: Option<TerminalId>)
    | Turn(sendOk: bool, sessionFirst: bool, window: nat)

  /** The front session command is framed and sent; it leaves the queue only when that worked. */
  ghost function SendSession(s: State, sendOk: bool): State
    requires s.pending != []
  {
    if sendOk then s.(pending := s.pending[1..], sent := s.sent + [s.pending[0]]) else s
  }

  /** The front terminal command is sent, kept for a retry, or dropped when its terminal is not open. */
  ghost function SendKey(s: State, sendOk: bool): State
    requires s.pendingKeys != []
  {
    var front := s.pendingKeys[0];
    var open := s.active == Some(front.terminal);
    var popped := s.(pendingKeys := s.pendingKeys[1..], done := s.done + [front], wasOpen := s.wasOpen + [open]);
    if !open then popped
    else if sendOk then popped.(sentKeys := s.sentKeys + [front])
    else s
  }

  ghost function DoTurn(s: State, sendOk: bool, sessionFirst: bool, window: nat): State {
    if s.stopped then s
    else if s.pending != [] then SendSession(s, sendOk)
    else if s.pendingKeys != [] then SendKey(s.(pendingKeys := Coalesced(s.pendingKeys)), sendOk)
    else if sessionFirst && s.channel != [] then
      var cmd := s.channel[0];
      var taken := s.(channel := s.channel[1..]);
      if cmd.Shutdown? then taken.(stopped := true)
      else SendSession(taken.(pending := [cmd]), sendOk)
    else if s.keys != [] then
      var n := if s.keys[0].Input? then Min(window, |s.keys| - 1) else 0;
      var (cmd, deferred) := Batched(s.keys[0], s.keys[1..][..n]);
      SendKey(s.(keys := s.keys[1..][n..], pendingKeys := [cmd] + deferred), sendOk)
    else s
  }

  ghost function Next(s: State, e: Event): State {
    match e
    case Submit(cmd) => s.(channel := s.channel + [cmd], submitted := s.submitted + [cmd])
    case Type(cmd) => s.(keys := s.keys + [cmd], typed := s.typed + [cmd])
    case SetActive(t) => s.(active := t)
    case Turn(sendOk, sessionFirst, window) => DoTurn(s, sendOk, sessionFirst, window)
  }

  ghost function Run(s: State, events: seq<Event>): State {
    if events == [] then s else Next(Run(s, events[..|events| - 1]), events[|events| - 1])
  }

  ghost predicate Start(s: State) {
    && s.channel == [] && s.pending == [] && s.keys == [] && s.pendingKeys == [] && !s.stopped
    && s.submitted == [] && s.sent == [] && s.typed == [] && s.done == [] && s.wasOpen == [] && s.sentKeys == []
  }

  /** Nothing is lost, repeated or reordered between submission and the wire. */
  ghost predicate SessionKept(s: State) {
    && s.sent + s.pending + (if s.stopped then [Shutdown] else []) + s.channel == s.submitted
    && (forall i :: 0 <= i < |s.pending| ==> s.pending[i].Request?)
    && |s.pending| <= 1
  }

  /** Nor are any keystrokes, per terminal, or other terminal commands. */
  ghost predicate KeysKept(s: State, t: TerminalId) {
    && InputOf(s.done, t) + InputOf(s.pendingKeys, t) + InputOf(s.keys, t) == InputOf(s.typed, t)
    && NonInput(s.done) + NonInput(s.pendingKeys) + NonInput(s.keys) == NonInput(s.typed)
  }

  lemma SendSessionKeeps(s: State, sendOk: bool)
    requires SessionKept(s) && s.pending != []
    ensures SessionKept(SendSession(s, sendOk))
  {
    assert s.pending == [s.pending[0]] + s.pending[1..];
    assert s.sent + [s.pending[0]] + s.pending[1..] == s.sent + s.pending;
  }

  lemma TakeSessionKeeps(s: State)
    requires SessionKept(s) && s.pending == [] && s.channel != [] && !s.stopped
    ensures var taken := s.(channel := s.channel[1..]);
            if s.channel[0].Shutdown? then SessionKept(taken.(stopped := true))
            else SessionKept(taken.(pending := [s.channel[0]]))
  {
    assert s.channel == [s.channel[0]] + s.channel[1..];
    var marker: seq<SessionCmd> := [];
    assert s.sent + s.pending + marker == s.sent;
    assert s.sent + [s.channel[0]] + s.channel[1..] == s.sent + s.channel;
    assert s.sent + [s.channel[0]] + marker == s.sent + [s.channel[0]];
  }

  lemma SessionStep(s: State, e: Event)
    requires SessionKept(s)
    ensures SessionKept(Next(s, e))
  {
    hide Batched, Coalesced;
    match e
    case Submit(cmd) =>
      var before := s.sent + s.pending + (if s.stopped then [Shutdown] else []);
      assert before + (s.channel + [cmd]) == before + s.channel + [cmd];
    case Type(_) =>
    case SetActive(_) =>
    case Turn(sendOk, sessionFirst, _) =>
      if !s.stopped {
        if s.pending != [] {
          SendSessionKeeps(s, sendOk);
        } else if s.pendingKeys == [] && sessionFirst && s.channel != [] {
          TakeSessionKeeps(s);
          if s.channel[0].Request? {
            SendSessionKeeps(s.(channel := s.channel[1..], pending := [s.channel[0]]), sendOk);
          }
        }
      }
  }

  lemma SendKeyKeeps(s: State, sendOk: bool, t: TerminalId)
    requires KeysKept(s, t) && s.pendingKeys != []
    ensures KeysKept(SendKey(s, sendOk), t)
  {
    var done, pending := s.done, s.pendingKeys;
    InputMoves(done, pending, t);
    NonInputMoves(done, pending);
    hide InputOf, NonInput;
    assert SendKey(s, sendOk) == s
        || (SendKey(s, sendOk).done == done + [pending[0]] && SendKey(s, sendOk).pendingKeys == pending[1..]);
  }

  lemma InputMoves(done: seq<Cmd>, pending: seq<Cmd>, t: TerminalId)
    requires pending != []
    ensures InputOf(done + [pending[0]], t) + InputOf(pending[1..], t) == InputOf(done, t) + InputOf(pending, t)
  {
    assert pending == [pending[0]] + pending[1..];
    InputConcat([pending[0]], pending[1..], t);
    InputConcat(done, [pending[0]], t);
    hide InputOf;
    assert InputOf(done, t) + InputOf([pending[0]], t) + InputOf(pending[1..], t)
        == InputOf(done, t) + (InputOf([pending[0]], t) + InputOf(pending[1..], t));
  }

  lemma NonInputMoves(done: seq<Cmd>, pending: seq<Cmd>)
    requires pending != []
    ensures NonInput(done + [pending[0]]) + NonInput(pending[1..]) == NonInput(done) + NonInput(pending)
  {
    assert pending == [pending[0]] + pending[1..];
    NonInputConcat([pending[0]], pending[1..]);
    NonInputConcat(done, [pending[0]]);
    hide NonInput;
    assert NonInput(done) + NonInput([pending[0]]) + NonInput(pending[1..])
        == NonInput(done) + (NonInput([pending[0]]) + NonInput(pending[1..]));
  }

  lemma TakeKeysKeeps(s: State, n: nat, t: TerminalId)
    requires KeysKept(s, t) && s.pendingKeys == [] && s.keys != [] && n < |s.keys|
    ensures var (cmd, deferred) := Batched(s.keys[0], s.keys[1..][..n]);
            KeysKept(s.(keys := s.keys[1..][n..], pendingKeys := [cmd] + deferred), t)
  {
    assert InputOf(s.pendingKeys, t) == [] && NonInput(s.pendingKeys) == [];
    hide InputOf, NonInput, Batched;
    var head, tail := [s.keys[0]] + s.keys[1..][..n], s.keys[1..][n..];
    BatchingKeepsStreams(s.keys[0], s.keys[1..][..n], t);
    assert s.keys == head + tail;
    InputConcat(head, tail, t);
    NonInputConcat(head, tail);
    Insert(InputOf(s.done, t), InputOf(head, t), InputOf(tail, t));
    Insert(NonInput(s.done), NonInput(head), NonInput(tail));
  }

  lemma Insert<T>(a: seq<T>, b: seq<T>, c: seq<T>)
    ensures a + b + c == a + [] + (b + c)
  {
  }

  lemma KeysStep(s: State, e: Event, t: TerminalId)
    requires KeysKept(s, t)
    ensures KeysKept(Next(s, e), t)
  {
    hide InputOf, NonInput, Batched, Coalesced;
    match e
    case Submit(_) =>
    case SetActive(_) =>
    case Type(cmd) =>
      InputConcat(s.keys, [cmd], t);
      NonInputConcat(s.keys, [cmd]);
      InputConcat(s.typed, [cmd], t);
      NonInputConcat(s.typed, [cmd]);
      assert InputOf(s.done, t) + InputOf(s.pendingKeys, t) + (InputOf(s.keys, t) + InputOf([cmd], t))
          == InputOf(s.typed, t) + InputOf([cmd], t);
      assert NonInput(s.done) + NonInput(s.pendingKeys) + (NonInput(s.keys) + NonInput([cmd]))
          == NonInput(s.typed) + NonInput([cmd]);
    case Turn(sendOk, sessionFirst, window) =>
      if !s.stopped && s.pending == [] {
        if s.pendingKeys != [] {
          CoalescingKeepsStreams(s.pendingKeys, t);
          SendKeyKeeps(s.(pendingKeys := Coalesced(s.pendingKeys)), sendOk, t);
        } else if !(sessionFirst && s.channel != []) && s.keys != [] {
          var n := if s.keys[0].Input? then Min(window, |s.keys| - 1) else 0;
          TakeKeysKeeps(s, n, t);
          var (cmd, deferred) := Batched(s.keys[0], s.keys[1..][..n]);
          SendKeyKeeps(s.(keys := s.keys[1..][n..], pendingKeys := [cmd] + deferred), sendOk, t);
        }
      }
  }

  /**
   Over all reconnects: the session commands put on the wire, followed by the one waiting for
   a retry and those still in the channel, are the submitted ones in order; and for every
   terminal the bytes sent or dropped, pending and still in the channel are the bytes typed,
   in order, as are the other terminal commands.
   */
  lemma {:induction false} RunKeepsCommands(s: State, events: seq<Event>, t: TerminalId)
    requires Start(s)
    ensures SessionKept(Run(s, events)) && KeysKept(Run(s, events), t)
  {
    if events != [] {
      RunKeepsCommands(s, events[..|events| - 1], t);
      SessionStep(Run(s, events[..|events| - 1]), events[|events| - 1]);
      KeysStep(Run(s, events[..|events| - 1]), events[|events| - 1], t);
    }
  }

  /** So when every submitted request has its own slot, no slot's request is sent twice. */
  lemma EachRequestIsSentOnce(s: State, events: seq<Event>, i: nat, j: nat)
    requires Start(s)
    requires var now := Run(s, events);
             && (forall a, b :: 0 <= a < b < |now.submitted| && now.submitted[a].Request? ==>
                                  now.submitted[a] != now.submitted[b])
             && i < j < |now.sent|
    ensures Run(s, events).sent[i] != Run(s, events).sent[j]
  {
    RunKeepsCommands(s, events, 0);
    hide Run;
    var now := Run(s, events);
    assert now.sent <= now.submitted;
    assert now.sent[i] == now.submitted[i] && now.sent[j] == now.submitted[j];
    SentAreRequests(s, events, i);
  }

  lemma {:induction false} SentAreRequests(s: State, events: seq<Event>, i: nat)
    requires Start(s) && i < |Run(s, events).sent|
    ensures Run(s, events).sent[i].Request?
  {
    if events != [] {
      var before := Run(s, events[..|events| - 1]);
      RunKeepsCommands(s, events[..|events| - 1], 0);
      hide Batched, Coalesced;
      if i < |before.sent| {
        SentAreRequests(s, events[..|events| - 1], i);
      }
    }
  }

  // ----- The terminal commands on the wire

  /** The commands with a flag, in order, each once. */
  function Flagged(cmds: seq<Cmd>, flags: seq<bool>): seq<Cmd>
    requires |cmds| == |flags|
  {
    if cmds == [] then []
    else
      var n := |cmds| - 1;
      Flagged(cmds[..n], flags[..n]) + (if flags[n] then [cmds[n]] else [])
  }

  lemma FlaggedSnoc(cmds: seq<Cmd>, flags: seq<bool>, c: Cmd, flag: bool)
    requires |cmds| == |flags|
    ensures Flagged(cmds + [c], flags + [flag]) == Flagged(cmds, flags) + (if flag then [c] else [])
  {
    assert (cmds + [c])[..|cmds|] == cmds && (flags + [flag])[..|flags|] == flags;
  }

  ghost predicate WireKept(s: State) {
    |s.wasOpen| == |s.done| && s.sentKeys == Flagged(s.done, s.wasOpen)
  }

  lemma WireStep(s: State, e: Event)
    requires WireKept(s)
    ensures WireKept(Next(s, e))
  {
    hide Batched, Coalesced, Flagged;
    if e.Turn? && !s.stopped && s.pending == [] {
      if s.pendingKeys != [] {
        SendKeyWire(s.(pendingKeys := Coalesced(s.pendingKeys)), e.sendOk);
      } else if !(e.sessionFirst && s.channel != []) && s.keys != [] {
        var n := if s.keys[0].Input? then Min(e.window, |s.keys| - 1) else 0;
        var (cmd, deferred) := Batched(s.keys[0], s.keys[1..][..n]);
        SendKeyWire(s.(keys := s.keys[1..][n..], pendingKeys := [cmd] + deferred), e.sendOk);
      }
    }
  }

  lemma SendKeyWire(s: State, sendOk: bool)
    requires WireKept(s) && s.pendingKeys != []
    ensures WireKept(SendKey(s, sendOk))
  {
    FlaggedSnoc(s.done, s.wasOpen, s.pendingKeys[0], s.active == Some(s.pendingKeys[0].terminal));
    hide Flagged;
  }

  /**
   Over all reconnects the terminal commands put on the wire are, in order and each once, those
   done with whose terminal was open at that moment; the others were dropped.
   */
  lemma {:induction false} WireIsOpenCommands(s: State, events: seq<Event>)
    requires Start(s)
    ensures WireKept(Run(s, events))
  {
    if events != [] {
      WireIsOpenCommands(s, events[..|events| - 1]);
      WireStep(Run(s, events[..|events| - 1]), events[|events| - 1]);
    }
  }

  /** Whenever a command of the terminal was done with, the terminal was open. */
  predicate AlwaysOpen(cmds: seq<Cmd>, flags: seq<bool>, t: TerminalId) {
    forall i :: 0 <= i < |cmds| && i < |flags| && cmds[i].terminal == t ==> flags[i]
  }

  /** No command of a terminal that is always open is dropped: its bytes on the wire are those done with. */
  lemma {:induction false} OpenTerminalLosesNothing(cmds: seq<Cmd>, flags: seq<bool>, t: TerminalId)
    requires |cmds| == |flags| && AlwaysOpen(cmds, flags, t)
    ensures InputOf(Flagged(cmds, flags), t) == InputOf(cmds, t)
  {
    if cmds != [] {
      var n := |cmds| - 1;
      OpenTerminalLosesNothing(cmds[..n], flags[..n], t);
      assert cmds == cmds[..n] + [cmds[n]];
      InputConcat(cmds[..n], [cmds[n]], t);
      InputConcat(Flagged(cmds[..n], flags[..n]), if flags[n] then [cmds[n]] else [], t);
      One(cmds[n], t);
    }
  }

  /** So for such a terminal what was sent, what waits and what is still in the channel are the bytes typed. */
  lemma OpenTerminalGetsAll(s: State, events: seq<Event>, t: TerminalId)
    requires Start(s)
    requires AlwaysOpen(Run(s, events).done, Run(s, events).wasOpen, t)
    ensures var now := Run(s, events);
            InputOf(now.sentKeys, t) + InputOf(now.pendingKeys, t) + InputOf(now.keys, t) == InputOf(now.typed, t)
  {
    hide Run;
    RunKeepsCommands(s, events, t);
    WireIsOpenCommands(s, events);
    var now := Run(s, events);
    OpenTerminalLosesNothing(now.done, now.wasOpen, t);
    hide InputOf, NonInput, Flagged;
  }

  // ----- Every pass that can send does

  /** The next session command goes out before anything else, as soon as the transport takes it. */
  lemma NextRequestIsSent(s: State, sessionFirst: bool, window: nat)
    requires SessionKept(s) && !s.stopped
    requires s.pending != [] || (s.pendingKeys == [] && sessionFirst && s.channel != [] && s.channel[0].Request?)
    ensures var now := Next(s, Turn(true, sessionFirst, window));
            && |s.sent| < |s.submitted| && now.sent == s.sent + [s.submitted[|s.sent|]]
            && |now.pending| + |now.channel| == |s.pending| + |s.channel| - 1 && now.sentKeys == s.sentKeys
  {
    assert s.submitted == s.sent + (s.pending + s.channel);
    assert s.submitted[|s.sent|] == (s.pending + s.channel)[0];
    hide Batched, Coalesced;
  }

  /** Otherwise the next terminal command does, with all keys that can join it; or it is dropped when its terminal is not open. */
  lemma NextKeysAreSent(s: State, window: nat)
    requires !s.stopped && s.pending == [] && s.channel == [] && s.pendingKeys + s.keys != []
    ensures var now := Next(s, Turn(true, true, window));
            && |now.done| == |s.done| + 1 && now.done[..|s.done|] == s.done
            && var c := now.done[|s.done|];
            && now.sentKeys == s.sentKeys + (if s.active == Some(c.terminal) then [c] else [])
            && (s.pendingKeys != [] ==> c == Coalesced(s.pendingKeys)[0] && now.keys == s.keys)
            && (s.pendingKeys == [] ==> c.terminal == s.keys[0].terminal && (c.Input? <==> s.keys[0].Input?))
  {
    if s.pendingKeys == [] {
      var n := if s.keys[0].Input? then Min(window, |s.keys| - 1) else 0;
      BatchingKeepsStreams(s.keys[0], s.keys[1..][..n], 0);
    }
    hide Batched, Coalesced, InputOf, NonInput;
  }
}
