/**
 Merging keystrokes on their way to the daemon (crates/client/client-core/src/session.rs,
 `try_merge_input_command`, `coalesce_pending_input_front`, `batch_input_command`).
 */
module InputBatching {
  import opened Base

  type TerminalId = nat

  datatype Cmd =
    | Input(terminal: TerminalId, bytes: seq<Byte>)
    | Resize(terminal: TerminalId, cols: U16, rows: U16)
    | Kill(terminal: TerminalId)

  function TryMerge(base: Cmd, next: Cmd): Option<Cmd> {
    if base.Input? && next.Input? && base.terminal == next.terminal
    then Some(Input(base.terminal, base.bytes + next.bytes))
    else None
  }

  // ----- What a list of commands means

  /** The smallest things a daemon can tell apart: single input bytes, and other commands. */
  datatype Atom = Key(terminal: TerminalId, byte: Byte) | Other(cmd: Cmd)

  function Keys(t: TerminalId, bytes: seq<Byte>): seq<Atom> {
    seq(|bytes|, i requires 0 <= i < |bytes| => Key(t, bytes[i]))
  }

  function Atoms(c: Cmd): seq<Atom> {
    if c.Input? then Keys(c.terminal, c.bytes) else [Other(c)]
  }

  /** The full interleaving. */
  function Expand(cmds: seq<Cmd>): seq<Atom> {
    if cmds == [] then [] else Atoms(cmds[0]) + Expand(cmds[1..])
  }

  /** The bytes typed at one terminal, in order. */
  function InputOf(cmds: seq<Cmd>, t: TerminalId): seq<Byte> {
    if cmds == [] then []
    else (if cmds[0].Input? && cmds[0].terminal == t then cmds[0].bytes else []) + InputOf(cmds[1..], t)
  }

  /** Everything that is not input, in order. */
  function NonInput(cmds: seq<Cmd>): seq<Cmd> {
    if cmds == [] then [] else (if cmds[0].Input? then [] else [cmds[0]]) + NonInput(cmds[1..])
  }

  lemma {:induction false} ExpandConcat(a: seq<Cmd>, b: seq<Cmd>)
    ensures Expand(a + b) == Expand(a) + Expand(b)
  {
    if a == [] {
      assert a + b == b;
    } else {
      assert (a + b)[1..] == a[1..] + b;
      ExpandConcat(a[1..], b);
    }
  }

  lemma {:induction false} InputConcat(a: seq<Cmd>, b: seq<Cmd>, t: TerminalId)
    ensures InputOf(a + b, t) == InputOf(a, t) + InputOf(b, t)
  {
    if a == [] {
      assert a + b == b;
    } else {
      assert (a + b)[1..] == a[1..] + b;
      InputConcat(a[1..], b, t);
    }
  }

  lemma {:induction false} NonInputConcat(a: seq<Cmd>, b: seq<Cmd>)
    ensures NonInput(a + b) == NonInput(a) + NonInput(b)
  {
    if a == [] {
      assert a + b == b;
    } else {
      assert (a + b)[1..] == a[1..] + b;
      NonInputConcat(a[1..], b);
    }
  }

  lemma One(c: Cmd, t: TerminalId)
    ensures Expand([c]) == Atoms(c)
    ensures InputOf([c], t) == if c.Input? && c.terminal == t then c.bytes else []
    ensures NonInput([c]) == if c.Input? then [] else [c]
  {
    assert [c][1..] == [];
  }

  // ----- Coalescing at the front of the pending queue

  /** A queue with the leading run of inputs to one terminal merged into one. */
  function Coalesced(cmds: seq<Cmd>): (r: seq<Cmd>)
    ensures cmds != [] ==> r != []
    decreases |cmds|
  {
    if |cmds| < 2 then cmds
    else
      match TryMerge(cmds[0], cmds[1])
      case Some(merged) => Coalesced([merged] + cmds[2..])
      case None => cmds
  }

  class PendingCommands {
    var cmds: seq<Cmd>

    constructor ()
      ensures cmds == []
    {
      cmds := [];
    }

    method CoalesceFront()
      modifies this
      ensures cmds == Coalesced(old(cmds))
      ensures Expand(cmds) == Expand(old(cmds))
    {
      CoalescingKeepsInterleaving(cmds);
      if cmds == [] {
        return;
      }
      var front := cmds[0];
      cmds := cmds[1..];
      assert [front] + cmds == old(cmds);
      while cmds != []
        invariant Coalesced([front] + cmds) == Coalesced(old(cmds))
        decreases |cmds|
      {
        var next := cmds[0];
        var merged := TryMerge(front, next);
        assert ([front] + cmds)[2..] == cmds[1..];
        if merged.None? {
          break;
        }
        front, cmds := merged.value, cmds[1..];
      }
      cmds := [front] + cmds;
    }
  }

  lemma MergeKeepsAtoms(a: Cmd, b: Cmd, t: TerminalId)
    requires TryMerge(a, b).Some?
    ensures Atoms(TryMerge(a, b).value) == Atoms(a) + Atoms(b)
  {
  }

  /** Front coalescing keeps the full interleaving. */
  lemma {:induction false} CoalescingKeepsInterleaving(cmds: seq<Cmd>)
    ensures Expand(Coalesced(cmds)) == Expand(cmds)
    decreases |cmds|
  {
    if |cmds| >= 2 && TryMerge(cmds[0], cmds[1]).Some? {
      CoalescedStep(cmds);
      MergedAtoms(cmds);
      hide Coalesced, Expand, Atoms, TryMerge;
      CoalescingKeepsInterleaving([TryMerge(cmds[0], cmds[1]).value] + cmds[2..]);
    }
  }

  lemma CoalescedStep(cmds: seq<Cmd>)
    requires |cmds| >= 2 && TryMerge(cmds[0], cmds[1]).Some?
    ensures Coalesced(cmds) == Coalesced([TryMerge(cmds[0], cmds[1]).value] + cmds[2..])
  {
  }

  lemma MergedAtoms(cmds: seq<Cmd>)
    requires |cmds| >= 2 && TryMerge(cmds[0], cmds[1]).Some?
    ensures Expand([TryMerge(cmds[0], cmds[1]).value] + cmds[2..]) == Expand(cmds)
  {
    var merged := TryMerge(cmds[0], cmds[1]).value;
    var rest := cmds[2..];
    MergeKeepsAtoms(cmds[0], cmds[1], 0);
    One(merged, 0);
    One(cmds[0], 0);
    One(cmds[1], 0);
    hide Expand, Atoms, TryMerge;
    ExpandConcat([merged], rest);
    ExpandConcat([cmds[0]] + [cmds[1]], rest);
    ExpandConcat([cmds[0]], [cmds[1]]);
    assert cmds == [cmds[0]] + [cmds[1]] + rest;
  }

  lemma {:induction false} CoalescingKeepsStreams(cmds: seq<Cmd>, t: TerminalId)
    ensures InputOf(Coalesced(cmds), t) == InputOf(cmds, t)
    ensures NonInput(Coalesced(cmds)) == NonInput(cmds)
    decreases |cmds|
  {
    if |cmds| >= 2 && TryMerge(cmds[0], cmds[1]).Some? {
      var merged := TryMerge(cmds[0], cmds[1]).value;
      var rest := cmds[2..];
      CoalescingKeepsStreams([merged] + rest, t);
      assert ([merged] + rest)[1..] == rest;
      assert cmds[1..][1..] == rest;
    }
  }

  // ----- Batching over a time window

  /** The arrivals that merge into the first command, and those put off. */
  function Batched(first: Cmd, arrivals: seq<Cmd>): (Cmd, seq<Cmd>) {
    if arrivals == [] then (first, [])
    else
      var (cmd, deferred) := Batched(first, arrivals[..|arrivals| - 1]);
      var last := arrivals[|arrivals| - 1];
      match TryMerge(cmd, last)
      case Some(merged) => (merged, deferred)
      case None => (cmd, deferred + [last])
  }

  /** `arrivals` is what the channel delivers before the window closes. */
  method BatchInputCommand(first: Cmd, windowMs: nat, arrivals: seq<Cmd>)
    returns (cmd: Cmd, deferred: seq<Cmd>, taken: nat)
    ensures taken == if first.Input? && windowMs > 0 then |arrivals| else 0
    ensures (cmd, deferred) == Batched(first, arrivals[..taken])
  {
    cmd, deferred, taken := first, [], 0;
    if !first.Input? || windowMs == 0 {
      return;
    }
    while taken < |arrivals|
      invariant 0 <= taken <= |arrivals|
      invariant (cmd, deferred) == Batched(first, arrivals[..taken])
    {
      assert arrivals[..taken + 1][..taken] == arrivals[..taken];
      match TryMerge(cmd, arrivals[taken]) {
        case Some(merged) => cmd := merged;
        case None => deferred := deferred + [arrivals[taken]];
      }
      taken := taken + 1;
    }
  }

  /** Batching keeps the bytes of every terminal and the order of everything else. */
  lemma {:induction false} BatchingKeepsStreams(first: Cmd, arrivals: seq<Cmd>, t: TerminalId)
    ensures var (cmd, deferred) := Batched(first, arrivals);
            && (cmd.Input? <==> first.Input?) && cmd.terminal == first.terminal
            && (cmd.Input? ==> forall i :: 0 <= i < |deferred| && deferred[i].Input? ==> deferred[i].terminal != cmd.terminal)
            && InputOf([cmd] + deferred, t) == InputOf([first] + arrivals, t)
            && NonInput([cmd] + deferred) == NonInput([first] + arrivals)
  {
    if arrivals == [] {
    } else {
      var front, last := arrivals[..|arrivals| - 1], arrivals[|arrivals| - 1];
      BatchingKeepsStreams(first, front, t);
      var (cmd, deferred) := Batched(first, front);
      assert [first] + arrivals == ([first] + front) + [last];
      InputConcat([first] + front, [last], t);
      NonInputConcat([first] + front, [last]);
      One(last, t);
      match TryMerge(cmd, last)
      case None =>
        assert [cmd] + (deferred + [last]) == ([cmd] + deferred) + [last];
        InputConcat([cmd] + deferred, [last], t);
        NonInputConcat([cmd] + deferred, [last]);
      case Some(merged) =>
        MergeIntoFront(cmd, last, deferred, t);
    }
  }

  lemma MergeIntoFront(cmd: Cmd, last: Cmd, deferred: seq<Cmd>, t: TerminalId)
    requires TryMerge(cmd, last).Some?
    requires forall i :: 0 <= i < |deferred| && deferred[i].Input? ==> deferred[i].terminal != cmd.terminal
    ensures InputOf([TryMerge(cmd, last).value] + deferred, t) == InputOf([cmd] + deferred, t) + InputOf([last], t)
    ensures NonInput([TryMerge(cmd, last).value] + deferred) == NonInput([cmd] + deferred) + NonInput([last])
  {
    var merged := TryMerge(cmd, last).value;
    InputConcat([merged], deferred, t);
    InputConcat([cmd], deferred, t);
    NonInputConcat([merged], deferred);
    NonInputConcat([cmd], deferred);
    One(merged, t);
    One(cmd, t);
    One(last, t);
    if t == cmd.terminal {
      NoInputFor(deferred, t);
    }
  }

  lemma {:induction false} NoInputFor(cmds: seq<Cmd>, t: TerminalId)
    requires forall i :: 0 <= i < |cmds| && cmds[i].Input? ==> cmds[i].terminal != t
    ensures InputOf(cmds, t) == []
  {
    if cmds != [] {
      NoInputFor(cmds[1..], t);
    }
  }

  // ----- When batching also keeps the interleaving

  function IsKeyOf(a: Atom, t: TerminalId): bool {
    a.Key? && a.terminal == t
  }

  /** The atoms that are keys of `t` (or, with `want` false, that are not), in order. */
  function Select(atoms: seq<Atom>, t: TerminalId, want: bool): seq<Atom> {
    if atoms == [] then []
    else
      Select(atoms[..|atoms| - 1], t, want)
      + (if IsKeyOf(atoms[|atoms| - 1], t) == want then [atoms[|atoms| - 1]] else [])
  }

  /** No key of `t` comes behind anything else. */
  predicate KeysFirst(atoms: seq<Atom>, t: TerminalId) {
    forall i, j :: 0 <= i < j < |atoms| && IsKeyOf(atoms[j], t) ==> IsKeyOf(atoms[i], t)
  }

  lemma {:induction false} SelectConcat(a: seq<Atom>, b: seq<Atom>, t: TerminalId, want: bool)
    ensures Select(a + b, t, want) == Select(a, t, want) + Select(b, t, want)
    decreases |b|
  {
    if b == [] {
      assert a + b == a;
    } else {
      SelectConcat(a, b[..|b| - 1], t, want);
      assert (a + b)[..|a + b| - 1] == a + b[..|b| - 1];
    }
  }

  lemma {:induction false} SelectAll(atoms: seq<Atom>, t: TerminalId, keys: bool)
    requires forall i :: 0 <= i < |atoms| ==> IsKeyOf(atoms[i], t) == keys
    ensures Select(atoms, t, keys) == atoms && Select(atoms, t, !keys) == []
  {
    if atoms != [] {
      SelectAll(atoms[..|atoms| - 1], t, keys);
    }
  }

  lemma {:induction false} SelectOnly(atoms: seq<Atom>, t: TerminalId, want: bool)
    ensures forall i :: 0 <= i < |Select(atoms, t, want)| ==> IsKeyOf(Select(atoms, t, want)[i], t) == want
  {
    if atoms != [] {
      SelectOnly(atoms[..|atoms| - 1], t, want);
    }
  }

  lemma SplitIsKeysFirst(keys: seq<Atom>, rest: seq<Atom>, t: TerminalId)
    requires forall i :: 0 <= i < |keys| ==> IsKeyOf(keys[i], t)
    requires forall i :: 0 <= i < |rest| ==> !IsKeyOf(rest[i], t)
    ensures KeysFirst(keys + rest, t)
  {
  }

  /** Splitting a list into keys and the rest gives it back exactly when the keys came first. */
  lemma {:induction false} SelectionIsStable(atoms: seq<Atom>, t: TerminalId)
    ensures Select(atoms, t, true) + Select(atoms, t, false) == atoms <==> KeysFirst(atoms, t)
  {
    var keys, rest := Select(atoms, t, true), Select(atoms, t, false);
    SelectOnly(atoms, t, true);
    SelectOnly(atoms, t, false);
    hide Select;
    if keys + rest == atoms {
      SplitIsKeysFirst(keys, rest, t);
    }
    if KeysFirst(atoms, t) {
      var k := CountKeys(atoms, t);
      SelectConcat(atoms[..k], atoms[k..], t, true);
      SelectConcat(atoms[..k], atoms[k..], t, false);
      assert atoms[..k] + atoms[k..] == atoms;
      SelectAll(atoms[..k], t, true);
      SelectAll(atoms[k..], t, false);
    }
  }

  lemma {:induction false} CountKeys(atoms: seq<Atom>, t: TerminalId) returns (k: nat)
    requires KeysFirst(atoms, t)
    ensures k <= |atoms|
    ensures forall i :: 0 <= i < k ==> IsKeyOf(atoms[i], t)
    ensures forall i :: k <= i < |atoms| ==> !IsKeyOf(atoms[i], t)
  {
    k := 0;
    while k < |atoms| && IsKeyOf(atoms[k], t)
      invariant k <= |atoms|
      invariant forall i :: 0 <= i < k ==> IsKeyOf(atoms[i], t)
    {
      k := k + 1;
    }
  }

  lemma ExpandNone()
    ensures Expand([]) == []
  {
  }

  lemma AtomsOf(c: Cmd, t: TerminalId)
    ensures var mine := c.Input? && c.terminal == t;
            Select(Atoms(c), t, mine) == Atoms(c) && Select(Atoms(c), t, !mine) == []
  {
    SelectAll(Atoms(c), t, c.Input? && c.terminal == t);
  }

  /** What batching does to the interleaving: the keys of the first command's terminal go first. */
  lemma {:induction false} BatchingMovesKeysUp(first: Cmd, arrivals: seq<Cmd>)
    requires first.Input?
    ensures var (cmd, deferred) := Batched(first, arrivals);
            var all := Expand([first] + arrivals);
            && cmd.Input? && cmd.terminal == first.terminal
            && Atoms(cmd) == Select(all, first.terminal, true)
            && Expand(deferred) == Select(all, first.terminal, false)
  {
    hide Select, Expand, Atoms;
    var t := first.terminal;
    if arrivals == [] {
      assert [first] + [] == [first];
      One(first, t);
      AtomsOf(first, t);
      assert Expand([]) == [] by { ExpandNone(); }
    } else {
      var front, last := arrivals[..|arrivals| - 1], arrivals[|arrivals| - 1];
      BatchingMovesKeysUp(first, front);
      var (cmd, deferred) := Batched(first, front);
      assert [first] + arrivals == ([first] + front) + [last];
      ExpandConcat([first] + front, [last]);
      One(last, t);
      SelectConcat(Expand([first] + front), Atoms(last), t, true);
      SelectConcat(Expand([first] + front), Atoms(last), t, false);
      AtomsOf(last, t);
      if TryMerge(cmd, last).Some? {
        MergeKeepsAtoms(cmd, last, t);
      } else {
        ExpandConcat(deferred, [last]);
      }
    }
  }

  /**
   Batching keeps the full interleaving exactly when no byte for the batched terminal arrives
   behind another command; otherwise that byte overtakes it.
   */
  lemma BatchingKeepsInterleavingIff(first: Cmd, arrivals: seq<Cmd>)
    requires first.Input?
    ensures var (cmd, deferred) := Batched(first, arrivals);
            Expand([cmd] + deferred) == Expand([first] + arrivals)
            <==> KeysFirst(Expand([first] + arrivals), first.terminal)
  {
    var (cmd, deferred) := Batched(first, arrivals);
    BatchingMovesKeysUp(first, arrivals);
    ExpandConcat([cmd], deferred);
    One(cmd, first.terminal);
    SelectionIsStable(Expand([first] + arrivals), first.terminal);
  }

  /** `a`, a resize, `b`: the daemon gets `ab` before the resize. */
  lemma KeyOvertakesResize(t: TerminalId, cols: U16, rows: U16)
    ensures var first, arrivals := Input(t, [0x61]), [Resize(t, cols, rows), Input(t, [0x62])];
            && Batched(first, arrivals) == (Input(t, [0x61, 0x62]), [Resize(t, cols, rows)])
            && Expand([first] + arrivals) == [Key(t, 0x61), Other(Resize(t, cols, rows)), Key(t, 0x62)]
            && Expand([Input(t, [0x61, 0x62]), Resize(t, cols, rows)])
               == [Key(t, 0x61), Key(t, 0x62), Other(Resize(t, cols, rows))]
  {
    var first, resize, last := Input(t, [0x61]), Resize(t, cols, rows), Input(t, [0x62]);
    var both: Cmd := Input(t, [0x61, 0x62]);
    assert first.bytes + last.bytes == both.bytes;
    BatchedSnoc(first, [], resize);
    BatchedSnoc(first, [resize], last);
    assert [] + [resize] == [resize] && [resize] + [last] == [resize, last];
    ExpandList(first, resize, last);
    assert Atoms(both) == [Key(t, 0x61), Key(t, 0x62)] && Atoms(first) == [Key(t, 0x61)] && Atoms(last) == [Key(t, 0x62)];
    hide Batched, Atoms;
    ExpandTwo(both, resize);
  }

  lemma BatchedSnoc(first: Cmd, arrivals: seq<Cmd>, last: Cmd)
    ensures var (cmd, deferred) := Batched(first, arrivals);
            Batched(first, arrivals + [last])
            == match TryMerge(cmd, last)
               case Some(merged) => (merged, deferred)
               case None => (cmd, deferred + [last])
  {
    assert (arrivals + [last])[..|arrivals|] == arrivals;
  }

  lemma ExpandTwo(a: Cmd, b: Cmd)
    ensures Expand([a, b]) == Atoms(a) + Atoms(b)
  {
    assert [a, b][1..] == [b] && [b][1..] == [];
    assert Expand([b]) == Atoms(b) + [];
  }

  lemma ExpandList(a: Cmd, b: Cmd, c: Cmd)
    ensures Expand([a] + [b, c]) == Atoms(a) + Atoms(b) + Atoms(c)
  {
    assert [a] + [b, c] == [a, b, c] && [a, b, c][1..] == [b, c] && [b, c][1..] == [c] && [c][1..] == [];
    assert Expand([c]) == Atoms(c) + [];
  }

  /** Coalescing goes on until the first two commands cannot be merged, and leaves all behind them alone. */
  lemma {:induction false} CoalescingIsMaximal(cmds: seq<Cmd>) returns (merged: nat)
    ensures var r := Coalesced(cmds);
            && (|r| >= 2 ==> !(r[0].Input? && r[1].Input? && r[0].terminal == r[1].terminal))
            && merged <= |cmds| && (cmds != [] ==> 0 < merged && r[1..] == cmds[merged..])
    decreases |cmds|
  {
    merged := if cmds == [] then 0 else 1;
    if |cmds| >= 2 && TryMerge(cmds[0], cmds[1]).Some? {
      var shorter := [TryMerge(cmds[0], cmds[1]).value] + cmds[2..];
      CoalescedStep(cmds);
      var n := CoalescingIsMaximal(shorter);
      merged := n + 1;
      assert shorter[n..] == cmds[merged..];
    }
  }
}
