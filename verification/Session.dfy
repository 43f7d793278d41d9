/**
 The client's request table, reply slots and output streams over one connection
 (crates/client/client-core/src/session.rs). `Framed`, `Responded` and `Received` are what the
 class below does for a command, a response and a stream frame.
 */
module Session {
  import opened Base

  type TerminalId = nat
  type StreamId = nat
  type Slot = nat

  /** Commands that ask for an answer in a slot, and terminal commands that only get an acknowledgement. */
  datatype Cmd =
    | CreateTerminal(slot: Slot)
    | OpenTerminal(terminal: TerminalId, slot: Slot)
    | ListTerminals(slot: Slot)
    | ReadHistory(terminal: TerminalId, slot: Slot)
    | GetServerConfig(slot: Slot)
    | SetServerConfig(slot: Slot)
    | KillTerminal(terminal: TerminalId, slot: Slot)
    | SendInput(terminal: TerminalId)
    | ResizeTerminal(terminal: TerminalId)
    | KillActive(terminal: TerminalId)
  {
    predicate HasSlot() {
      !SendInput? && !ResizeTerminal? && !KillActive?
    }
  }

  datatype Txn =
    | OpenTxn(terminal: TerminalId, slot: Slot)
    | HistoryTxn(terminal: TerminalId, slot: Slot)
    | CreateTxn(slot: Slot)
    | ListTxn(slot: Slot)
    | GetConfigTxn(slot: Slot)
    | SetConfigTxn(slot: Slot)
    | InputAck
    | ResizeAck
    | KillTxn(reply: Option<Slot>)
  {
    function SlotOf(): Option<Slot> {
      match this
      case InputAck => None
      case ResizeAck => None
      case KillTxn(reply) => reply
      case _ => Some(slot)
    }
  }

  function TxnOf(c: Cmd): Txn {
    match c
    case CreateTerminal(slot) => CreateTxn(slot)
    case OpenTerminal(t, slot) => OpenTxn(t, slot)
    case ListTerminals(slot) => ListTxn(slot)
    case ReadHistory(t, slot) => HistoryTxn(t, slot)
    case GetServerConfig(slot) => GetConfigTxn(slot)
    case SetServerConfig(slot) => SetConfigTxn(slot)
    case KillTerminal(_, slot) => KillTxn(Some(slot))
    case SendInput(_) => InputAck
    case ResizeTerminal(_) => ResizeAck
    case KillActive(_) => KillTxn(None)
  }

  datatype Body =
    | Failure
    | CreateOk
    | OpenOk(stream: StreamId, terminal: TerminalId, endSeq: nat)
    | ListOk
    | HistoryOk(terminal: TerminalId)
    | GetConfigOk
    | SetConfigOk
    | KillOk
    | InputOk
    | ResizeOk

  /** The answers a transaction accepts. The two acknowledgements are not told apart. */
  predicate Matches(txn: Txn, body: Body) {
    match body
    case Failure => true
    case CreateOk => txn.CreateTxn?
    case OpenOk(_, t, _) => txn.OpenTxn? && txn.terminal == t
    case ListOk => txn.ListTxn?
    case HistoryOk(t) => txn.HistoryTxn? && txn.terminal == t
    case GetConfigOk => txn.GetConfigTxn?
    case SetConfigOk => txn.SetConfigTxn?
    case KillOk => txn.KillTxn?
    case InputOk => txn.InputAck? || txn.ResizeAck?
    case ResizeOk => txn.InputAck? || txn.ResizeAck?
  }

  datatype Active = Active(terminal: TerminalId, stream: StreamId, lastSeq: nat)

  datatype Stream = Stream(terminal: TerminalId, lastSeq: nat)

  datatype Answer = Answer(slot: Slot, request: nat, body: Body)

  /** What the application is told of its streams. */
  datatype Told = Opened(stream: StreamId, terminal: TerminalId, seqNo: nat)
                | Output(stream: StreamId, terminal: TerminalId, seqNo: nat)

  /**
   The reply slots outlive the connection: `emptied` holds those that have been answered. The
   last four fields only record what was issued, answered and told on this connection.
   */
  datatype State = State(
    active: Option<Active>,
    handle: Option<Active>,
    pending: map<nat, Txn>,
    streams: map<StreamId, Stream>,
    nextId: nat,
    emptied: set<Slot>,
    issued: seq<Cmd>,
    ids: seq<nat>,
    answers: seq<Answer>,
    told: seq<Told>)

  /** A connection just made, with the slots as the earlier ones left them. */
  function Connected(emptied: set<Slot>): State {
    State(None, None, map[], map[], 1, emptied, [], [], [], [])
  }

  // ----- Commands

  /** `clear_active` together with the shared handle. */
  ghost function Cleared(s: State): State {
    s.(active := None, handle := None,
       streams := if s.active.Some? then s.streams - {s.active.value.stream} else s.streams)
  }

  /** Is the command framed at all? Terminal commands need the handle of their terminal. */
  predicate CanFrame(handle: Option<Active>, c: Cmd) {
    c.HasSlot() || (handle.Some? && handle.value.terminal == c.terminal)
  }

  /** The request gets the next id; opening, or killing the active terminal, lets go of it first. */
  ghost function Framed(s: State, c: Cmd): State {
    if !CanFrame(s.handle, c) then s
    else
      var recorded := s.(
        nextId := Min(s.nextId + 1, U32_MAX),
        pending := s.pending[s.nextId := TxnOf(c)],
        issued := s.issued + [c], ids := s.ids + [s.nextId]);
      if c.OpenTerminal? && s.handle.Some? then Cleared(recorded)
      else if c.KillTerminal? && s.active.Some? && s.active.value.terminal == c.terminal then Cleared(recorded)
      else recorded
  }

  // ----- Responses

  /** A slot is emptied when it is answered, so that it answers at most once. */
  ghost function Answered(s: State, slot: Option<Slot>, id: nat, body: Body): State {
    if slot.Some? && slot.value !in s.emptied
    then s.(emptied := s.emptied + {slot.value}, answers := s.answers + [Answer(slot.value, id, body)])
    else s
  }

  ghost function Removed(s: State, id: nat): State {
    s.(pending := s.pending - {id})
  }

  /** The state after a response, and whether the connection goes on. */
  ghost function Responded(s: State, id: nat, body: Body): (State, bool) {
    if id !in s.pending then (s, false)
    else
      var txn := s.pending[id];
      if body.OpenOk? then
        if !txn.OpenTxn? then (s, false)
        else
          var a := Active(body.terminal, body.stream, body.endSeq);
          var opened_ := Removed(s, id).(active := Some(a), handle := Some(a));
          if txn.terminal != body.terminal then (opened_, false)
          else
            (Answered(opened_.(streams := s.streams[body.stream := Stream(body.terminal, body.endSeq)],
                               told := s.told + [Opened(body.stream, body.terminal, body.endSeq)]),
                      txn.SlotOf(), id, body), true)
      else if Matches(txn, body) then (Answered(Removed(s, id), txn.SlotOf(), id, body), true)
      else (Removed(s, id), false)
  }

  /** The pending requests fail, in the order the table gives them, and nothing stays open. */
  ghost function FailedAll(s: State, order: seq<nat>): State {
    Failed(s, order).(pending := map[], streams := map[], active := None)
  }

  ghost function Failed(s: State, order: seq<nat>): State {
    if order == [] then s
    else
      var before := Failed(s, order[..|order| - 1]);
      var id := order[|order| - 1];
      if id in before.pending then Answered(Removed(before, id), before.pending[id].SlotOf(), id, Failure) else before
  }

  /** Every key of the table, once. */
  ghost predicate Enumerates(order: seq<nat>, pending: map<nat, Txn>) {
    && (forall i, j :: 0 <= i < j < |order| ==> order[i] != order[j])
    && (forall id :: id in pending <==> id in order)
  }

  // ----- Output

  ghost function Received(s: State, stream: StreamId, seqNo: nat, hasOffset: bool): (State, bool) {
    if stream !in s.streams then (s, false)
    else if hasOffset then (s, false)
    else if s.active.None? || s.active.value.stream != stream then (s, true)
    else
      var st := s.streams[stream];
      if s.active.value.terminal != st.terminal || seqNo < st.lastSeq then (s, false)
      else
        var s' := s.(streams := s.streams[stream := st.(lastSeq := seqNo)]);
        if s.handle.None? then (s', true)
        else
          (s'.(handle := Some(s.handle.value.(lastSeq := seqNo)), active := Some(s.active.value.(lastSeq := seqNo)),
               told := s.told + [Output(stream, s.handle.value.terminal, seqNo)]), true)
  }

  // ----- The code

  /** The cells the replies go to, shared by the commands and the connections. */
  class ReplySlots {
    var emptied: set<Slot>

    constructor ()
      ensures emptied == {}
    {
      emptied := {};
    }

    /** Takes the sender out of a slot, if it is still there. */
    method Take(slot: Slot) returns (full: bool)
      modifies this
      ensures full <==> slot !in old(emptied)
      ensures emptied == old(emptied) + {slot}
    {
      full := slot !in emptied;
      emptied := emptied + {slot};
    }
  }

  class RuntimeState {
    var active: Option<Active>
    var handle: Option<Active>
    var pending: map<nat, Txn>
    var streams: map<StreamId, Stream>
    var nextId: nat
    const slots: ReplySlots
    ghost var issued: seq<Cmd>
    ghost var ids: seq<nat>
    ghost var answers: seq<Answer>
    ghost var told: seq<Told>

    constructor (slots: ReplySlots)
      ensures this.slots == slots && Value() == Connected(slots.emptied)
    {
      this.slots := slots;
      active, handle, pending, streams, nextId := None, None, map[], map[], 1;
      issued, ids, answers, told := [], [], [], [];
    }

    ghost function Value(): State
      reads this, slots
    {
      State(active, handle, pending, streams, nextId, slots.emptied, issued, ids, answers, told)
    }

    method ClearActive()
      modifies this`active, this`handle, this`streams
      ensures Value() == Cleared(old(Value()))
    {
      if active.Some? {
        if active.value.stream in streams {
          streams := streams - {active.value.stream};
        }
      }
      active := None;
      handle := None;
    }

    /** A frame for a command: the id it goes out under, if it is framed at all. */
    method FrameFor(c: Cmd) returns (id: Option<nat>)
      modifies this
      ensures Value() == Framed(old(Value()), c)
      ensures id == if CanFrame(old(handle), c) then Some(old(nextId)) else None
    {
      if !CanFrame(handle, c) {
        return None;
      }
      id := Some(nextId);
      pending := pending[nextId := TxnOf(c)];
      issued, ids := issued + [c], ids + [nextId];
      nextId := if nextId < U32_MAX then nextId + 1 else U32_MAX;
      match c {
        case OpenTerminal(_, _) =>
          if handle.Some? {
            ClearActive();
          }
        case KillTerminal(terminal, _) =>
          if active.Some? && active.value.terminal == terminal {
            ClearActive();
          }
        case _ =>
      }
    }

    method AnswerSlot(slot: Option<Slot>, ghost id: nat, ghost body: Body)
      modifies this`answers, slots
      ensures Value() == Answered(old(Value()), slot, id, body)
    {
      if slot.Some? {
        var full := slots.Take(slot.value);
        if full {
          answers := answers + [Answer(slot.value, id, body)];
        } else {
          assert slots.emptied == old(slots.emptied);
        }
      }
    }

    /** False is a protocol error, which ends the connection. */
    method HandleResponse(id: nat, body: Body) returns (ok: bool)
      modifies this, slots
      ensures (Value(), ok) == Responded(old(Value()), id, body)
    {
      if id !in pending {
        return false;
      }
      var txn := pending[id];
      match body {
        case OpenOk(stream, terminal, endSeq) =>
          if !txn.OpenTxn? {
            return false;
          }
          active := Some(Active(terminal, stream, endSeq));
          handle := Some(Active(terminal, stream, endSeq));
          pending := pending - {id};
          if txn.terminal != terminal {
            return false;
          }
          streams := streams[stream := Stream(terminal, endSeq)];
          told := told + [Opened(stream, terminal, endSeq)];
          AnswerSlot(Some(txn.slot), id, body);
          return true;
        case _ =>
          pending := pending - {id};
          if !Matches(txn, body) {
            return false;
          }
          AnswerSlot(txn.SlotOf(), id, body);
          return true;
      }
    }

    method HandleStreamData(stream: StreamId, seqNo: nat, hasOffset: bool) returns (ok: bool)
      modifies this
      ensures (Value(), ok) == Received(old(Value()), stream, seqNo, hasOffset)
    {
      if stream !in streams {
        return false;
      }
      var st := streams[stream];
      if hasOffset {
        return false;
      }
      if active.None? || active.value.stream != stream {
        return true;
      }
      if active.value.terminal != st.terminal {
        return false;
      }
      if seqNo < st.lastSeq {
        return false;
      }
      streams := streams[stream := st.(lastSeq := seqNo)];
      if handle.Some? {
        handle := Some(handle.value.(lastSeq := seqNo));
        active := Some(active.value.(lastSeq := seqNo));
        told := told + [Output(stream, handle.value.terminal, seqNo)];
      }
      return true;
    }

    /** Every pending request fails, in whatever order the table gives them, and nothing stays open. */
    method FailAllPendingRequests() returns (ghost order: seq<nat>)
      modifies this, slots
      ensures Enumerates(order, old(pending)) && Value() == FailedAll(old(Value()), order)
    {
      var left := pending;
      pending := map[];
      order := [];
      while left.Keys != {}
        invariant pending == map[] && Value().(pending := left) == Failed(old(Value()), order)
        invariant left.Keys <= old(pending).Keys && forall k :: k in left ==> left[k] == old(pending)[k]
        invariant forall id :: id in old(pending) <==> id in order || id in left
        invariant forall i :: 0 <= i < |order| ==> order[i] !in left
        invariant forall i, j :: 0 <= i < j < |order| ==> order[i] != order[j]
        decreases left.Keys
      {
        var k :| k in left.Keys;
        var txn := left[k];
        FailedSnoc(old(Value()), order, k);
        order := order + [k];
        left := left - {k};
        AnswerSlot(txn.SlotOf(), k, Failure);
      }
      assert left == map[];
      streams := map[];
      active := None;
    }
  }

  lemma FailedSnoc(s: State, order: seq<nat>, id: nat)
    ensures var before := Failed(s, order);
            Failed(s, order + [id])
            == if id in before.pending then Answered(Removed(before, id), before.pending[id].SlotOf(), id, Failure) else before
  {
    assert (order + [id])[..|order|] == order;
  }
}
