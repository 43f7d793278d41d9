/**
 The terminal state the daemon keeps beside the raw output (crates/server/pty/src/parser.rs).
 The escape-sequence parser itself is a foreign library; it appears here as a deterministic
 step function that turns each byte into the callbacks it makes.
 */
module Tracker {
  import opened Base

  datatype Color = Palette(index: Byte) | Indexed(index: Byte) | Rgb(r: Byte, g: Byte, b: Byte)

  datatype SgrAttrs = SgrAttrs(
    fg: Option<Color>, bg: Option<Color>,
    bold: bool, faint: bool, italic: bool, underline: bool,
    blink: bool, reverse: bool, strikethrough: bool)

  datatype MouseMode = Off | X10 | Normal | ButtonEvent | AnyEvent

  datatype TerminalModes = TerminalModes(
    cursorKeys: bool, autowrap: bool, altScreen: bool,
    bracketedPaste: bool, mouse: MouseMode, origin: bool)

  /** The designations of G0 to G3. */
  type Designations = g: seq<Byte> | |g| == 4 witness [0, 0, 0, 0]

  datatype CharsetState = CharsetState(g: Designations, gl: Byte, gr: Byte)

  const DEFAULT_SGR := SgrAttrs(None, None, false, false, false, false, false, false, false)
  const DEFAULT_MODES := TerminalModes(false, true, false, false, Off, false)
  const DEFAULT_CHARSET := CharsetState([0x42, 0x42, 0x42, 0x42], 0, 0)

  datatype TermState = TermState(
    row: U16, col: U16, sgr: SgrAttrs, modes: TerminalModes,
    charset: CharsetState, title: Option<seq<Byte>>)

  const INITIAL := TermState(0, 0, DEFAULT_SGR, DEFAULT_MODES, DEFAULT_CHARSET, None)

  /** One CSI parameter: its colon-separated subparameters. */
  type Param = seq<U16>

  /** A callback of the parser. */
  datatype Action =
    | Print(c: nat)
    | Execute(byte: Byte)
    | Hook
    | Put(byte: Byte)
    | Unhook
    | OscDispatch(parts: seq<seq<Byte>>)
    | CsiDispatch(params: seq<Param>, intermediates: seq<Byte>, final: Byte)
    | EscDispatch(intermediates: seq<Byte>, final: Byte)

  /** The foreign parser: where it starts, what a byte does, and UTF-8 validation. */
  datatype Library<!P> = Library(
    start: P,
    step: (P, Byte) -> (P, seq<Action>),
    isUtf8: seq<Byte> -> bool)

  // ----- Meaning of the callbacks

  /** One column for a printable character, none for a control character. */
  function CharWidth(c: nat): U16 {
    if c < 0x20 || 0x7f <= c < 0xa0 then 0 else 1
  }

  function First(p: Param): U16 {
    if p == [] then 0 else p[0]
  }

  /** The `index`-th parameter, where a missing or zero one counts as one. */
  function ParamOr1(params: seq<Param>, index: nat): U16 {
    if index < |params| && First(params[index]) != 0 then First(params[index]) else 1
  }

  function AsByte(n: U16): Option<Byte> {
    if n < 256 then Some(n) else None
  }

  function ByteAt(p: Param, k: nat): Option<Byte> {
    if k < |p| then AsByte(p[k]) else None
  }

  function FirstByteAt(items: seq<Param>, k: nat): Option<Byte> {
    if k < |items| then ByteAt(items[k], 0) else None
  }

  function MakeRgb(r: Option<Byte>, g: Option<Byte>, b: Option<Byte>, used: nat): Option<(Color, nat)> {
    if r.Some? && g.Some? && b.Some? then Some((Rgb(r.value, g.value, b.value), used)) else None
  }

  function MakeIndexed(v: Option<Byte>, used: nat): Option<(Color, nat)> {
    if v.Some? then Some((Indexed(v.value), used)) else None
  }

  /** The colour a 38 or 48 at the head of `items` selects, and how many items it takes. */
  function ExtendedColor(items: seq<Param>): (r: Option<(Color, nat)>)
    requires items != []
    ensures r.Some? ==> 1 <= r.value.1 <= |items| && !r.value.0.Palette?
  {
    var current := items[0];
    if |current| >= 2 then
      if current[1] == 5 then MakeIndexed(ByteAt(current, 2), 1)
      else if current[1] == 2 then MakeRgb(ByteAt(current, 2), ByteAt(current, 3), ByteAt(current, 4), 1)
      else None
    else if |items| >= 2 && items[1] != [] then
      if items[1][0] == 5 then MakeIndexed(FirstByteAt(items, 2), 3)
      else if items[1][0] == 2 then MakeRgb(FirstByteAt(items, 2), FirstByteAt(items, 3), FirstByteAt(items, 4), 5)
      else None
    else None
  }

  /** The parameters from the second one on begin with these numbers, whatever else they hold. */
  predicate Spelled(items: seq<Param>, numbers: seq<nat>) {
    |items| > |numbers| && forall k :: 0 <= k < |numbers| ==> items[k + 1] != [] && items[k + 1][0] == numbers[k]
  }

  /** The numbers that name a colour. */
  function Numbers(c: Color): seq<nat> {
    match c
    case Palette(_) => []
    case Indexed(n) => [5, n]
    case Rgb(r, g, b) => [2, r, g, b]
  }

  /**
   A colour is selected exactly when its numbers follow as subparameters of the first parameter,
   which is then all that is taken, or, the first parameter having none, as parameters of their
   own, which are then taken too.
   */
  lemma ExtendedColorSpelled(items: seq<Param>, c: Color, used: nat)
    requires items != []
    ensures ExtendedColor(items) == Some((c, used)) <==>
            && !c.Palette?
            && if |items[0]| >= 2 then used == 1 && |items[0]| > |Numbers(c)| && items[0][1..|Numbers(c)| + 1] == Numbers(c)
               else used == 1 + |Numbers(c)| && Spelled(items, Numbers(c))
  {
    var first := items[0];
    match c
    case Palette(_) =>
    case Indexed(n) =>
      assert |first| > 2 ==> first[1..3] == [first[1], first[2]];
      SpelledTwo(items, n);
    case Rgb(r, g, b) =>
      assert |first| > 4 ==> first[1..5] == [first[1], first[2], first[3], first[4]];
      SpelledFour(items, r, g, b);
  }

  lemma SpelledTwo(items: seq<Param>, n: nat)
    ensures Spelled(items, [5, n]) <==> |items| > 2 && items[1] != [] && items[1][0] == 5 && items[2] != [] && items[2][0] == n
  {
    var numbers: seq<nat> := [5, n];
    if Spelled(items, numbers) {
      SpelledAt(items, numbers, 0);
      SpelledAt(items, numbers, 1);
    }
  }

  lemma SpelledAt(items: seq<Param>, numbers: seq<nat>, k: nat)
    requires Spelled(items, numbers) && k < |numbers|
    ensures items[k + 1] != [] && items[k + 1][0] == numbers[k]
  {
  }

  lemma SpelledFour(items: seq<Param>, r: nat, g: nat, b: nat)
    ensures Spelled(items, [2, r, g, b]) <==>
            && |items| > 4 && items[1] != [] && items[1][0] == 2 && items[2] != [] && items[2][0] == r
            && items[3] != [] && items[3][0] == g && items[4] != [] && items[4][0] == b
  {
    var numbers: seq<nat> := [2, r, g, b];
    if Spelled(items, numbers) {
      SpelledAt(items, numbers, 0);
      SpelledAt(items, numbers, 1);
      SpelledAt(items, numbers, 2);
      SpelledAt(items, numbers, 3);
    }
  }

  /** A rendition that one code switches on and others switch off. */
  function Switch(current: bool, on: bool, off: bool): bool {
    (current || on) && !off
  }

  /** The codes that switch a rendition on or off; they leave the colours alone. */
  function SgrFlag(code: U16, s: SgrAttrs): SgrAttrs {
    SgrAttrs(
      s.fg, s.bg,
      Switch(s.bold, code == 1, code == 21 || code == 22),
      Switch(s.faint, code == 2, code == 21 || code == 22),
      Switch(s.italic, code == 3, code == 23),
      Switch(s.underline, code == 4, code == 24),
      Switch(s.blink, code == 5, code == 25),
      Switch(s.reverse, code == 7, code == 27),
      Switch(s.strikethrough, code == 9, code == 29))
  }

  function ForegroundOf(code: U16, current: Option<Color>): Option<Color> {
    if 30 <= code <= 37 then Some(Palette(code - 30))
    else if 90 <= code <= 97 then Some(Palette(code - 82))
    else if code == 39 then None
    else current
  }

  function BackgroundOf(code: U16, current: Option<Color>): Option<Color> {
    if 40 <= code <= 47 then Some(Palette(code - 40))
    else if 100 <= code <= 107 then Some(Palette(code - 92))
    else if code == 49 then None
    else current
  }

  /** The codes of the default and the sixteen named colours. */
  function SgrColour(code: U16, s: SgrAttrs): SgrAttrs {
    s.(fg := ForegroundOf(code, s.fg), bg := BackgroundOf(code, s.bg))
  }

  /** Every SGR code except the extended colours. */
  function SgrCode(code: U16, s: SgrAttrs): SgrAttrs {
    if code == 0 then DEFAULT_SGR
    else if code < 30 then SgrFlag(code, s)
    else SgrColour(code, s)
  }

  function SgrItems(items: seq<Param>, s: SgrAttrs): SgrAttrs {
    if items == [] then s
    else
      var code := First(items[0]);
      if code == 38 || code == 48 then
        match ExtendedColor(items)
        case None => SgrItems(items[1..], s)
        case Some((color, used)) =>
          SgrItems(items[used..], if code == 38 then s.(fg := Some(color)) else s.(bg := Some(color)))
      else SgrItems(items[1..], SgrCode(code, s))
  }

  function Sgr(params: seq<Param>, s: SgrAttrs): SgrAttrs {
    if params == [] then DEFAULT_SGR else SgrItems(params, s)
  }

  function MouseIf(on: bool, mode: MouseMode): MouseMode {
    if on then mode else Off
  }

  function SetMouse(mode: U16, on: bool, current: MouseMode): MouseMode {
    if mode == 9 then MouseIf(on, X10)
    else if mode == 1000 then MouseIf(on, Normal)
    else if mode == 1002 then MouseIf(on, ButtonEvent)
    else if mode == 1003 then MouseIf(on, AnyEvent)
    else current
  }

  function SetMode(mode: U16, on: bool, m: TerminalModes): TerminalModes {
    TerminalModes(
      if mode == 1 then on else m.cursorKeys,
      if mode == 7 then on else m.autowrap,
      if mode == 1049 then on else m.altScreen,
      if mode == 2004 then on else m.bracketedPaste,
      SetMouse(mode, on, m.mouse),
      if mode == 6 then on else m.origin)
  }

  function SetModes(params: seq<Param>, on: bool, m: TerminalModes): TerminalModes {
    if params == [] then m
    else SetMode(First(params[|params| - 1]), on, SetModes(params[..|params| - 1], on, m))
  }

  function ModeSet(params: seq<Param>, intermediates: seq<Byte>, on: bool, m: TerminalModes): TerminalModes {
    if intermediates == [0x3f] then SetModes(params, on, m) else m
  }

  function Csi(s: TermState, params: seq<Param>, intermediates: seq<Byte>, final: Byte): TermState {
    var n := ParamOr1(params, 0);
    if final == 0x6d then s.(sgr := Sgr(params, s.sgr))
    else if final == 0x48 || final == 0x66 then s.(row := SatSub(n, 1), col := SatSub(ParamOr1(params, 1), 1))
    else if final == 0x41 then s.(row := SatSub(s.row, n))
    else if final == 0x42 then s.(row := SatAdd16(s.row, n))
    else if final == 0x43 then s.(col := SatAdd16(s.col, n))
    else if final == 0x44 then s.(col := SatSub(s.col, n))
    else if final == 0x45 then s.(row := SatAdd16(s.row, n), col := 0)
    else if final == 0x46 then s.(row := SatSub(s.row, n), col := 0)
    else if final == 0x47 then s.(col := SatSub(n, 1))
    else if final == 0x64 then s.(row := SatSub(n, 1))
    else if final == 0x68 then s.(modes := ModeSet(params, intermediates, true, s.modes))
    else if final == 0x6c then s.(modes := ModeSet(params, intermediates, false, s.modes))
    else s
  }

  function ControlCode(s: TermState, byte: Byte): TermState {
    if byte == 0x0a then s.(row := SatAdd16(s.row, 1), col := 0)
    else if byte == 0x0d then s.(col := 0)
    else if byte == 0x08 then s.(col := SatSub(s.col, 1))
    else if byte == 0x09 then s.(col := Min((s.col / 8 + 1) * 8, U16_MAX))
    else s
  }

  /** Which of G0..G3 an escape sequence designates. */
  function DesignatedSet(intermediates: seq<Byte>): Option<nat> {
    if |intermediates| == 1 && 0x28 <= intermediates[0] <= 0x2b then Some(intermediates[0] - 0x28) else None
  }

  function Esc(s: TermState, intermediates: seq<Byte>, final: Byte): TermState {
    match DesignatedSet(intermediates)
    case Some(idx) => s.(charset := s.charset.(g := s.charset.g[idx := final]))
    case None => s
  }

  function JoinWithSemicolons(parts: seq<seq<Byte>>): seq<Byte> {
    if parts == [] then []
    else if |parts| == 1 then parts[0]
    else JoinWithSemicolons(parts[..|parts| - 1]) + [0x3b] + parts[|parts| - 1]
  }

  function OscTitle(isUtf8: seq<Byte> -> bool, parts: seq<seq<Byte>>): Option<seq<Byte>> {
    if parts == [] || (parts[0] != [0x30] && parts[0] != [0x32]) then None
    else
      var raw := JoinWithSemicolons(parts[1..]);
      if isUtf8(raw) then Some(raw) else None
  }

  function Perform(isUtf8: seq<Byte> -> bool, s: TermState, a: Action): TermState {
    match a
    case Print(c) => s.(col := SatAdd16(s.col, CharWidth(c)))
    case Execute(byte) => ControlCode(s, byte)
    case OscDispatch(parts) =>
      var title := OscTitle(isUtf8, parts);
      if title.Some? then s.(title := title) else s
    case CsiDispatch(params, intermediates, final) => Csi(s, params, intermediates, final)
    case EscDispatch(intermediates, final) => Esc(s, intermediates, final)
    case Hook => s
    case Put(_) => s
    case Unhook => s
  }

  function PerformAll(isUtf8: seq<Byte> -> bool, s: TermState, actions: seq<Action>): TermState {
    if actions == [] then s
    else Perform(isUtf8, PerformAll(isUtf8, s, actions[..|actions| - 1]), actions[|actions| - 1])
  }

  lemma {:induction false} PerformAllConcat(isUtf8: seq<Byte> -> bool, s: TermState, a: seq<Action>, b: seq<Action>)
    ensures PerformAll(isUtf8, s, a + b) == PerformAll(isUtf8, PerformAll(isUtf8, s, a), b)
    decreases |b|
  {
    if b == [] {
      assert a + b == a;
    } else {
      PerformAllConcat(isUtf8, s, a, b[..|b| - 1]);
      assert (a + b)[..|a + b| - 1] == a + b[..|b| - 1];
    }
  }

  /** A split after this callback keeps sequences whole, as far as the tracker can tell. */
  predicate MarksSafe(a: Action) {
    !a.Hook? && !a.Put?
  }

  /** The safe-split flag after one byte: cleared first, then set or cleared by each callback. */
  predicate SafeAfter(actions: seq<Action>) {
    actions != [] && MarksSafe(actions[|actions| - 1])
  }

  // ----- The tracker over bytes

  datatype Tracked<!P> = Tracked(parser: P, state: TermState, safe: bool)

  function Fresh<P>(lib: Library<P>): Tracked<P> {
    Tracked(lib.start, INITIAL, true)
  }

  function AdvanceByte<P>(lib: Library<P>, t: Tracked<P>, b: Byte): Tracked<P> {
    var (parser, actions) := lib.step(t.parser, b);
    Tracked(parser, PerformAll(lib.isUtf8, t.state, actions), SafeAfter(actions))
  }

  function Advance<P>(lib: Library<P>, t: Tracked<P>, bytes: seq<Byte>): Tracked<P> {
    if bytes == [] then t
    else AdvanceByte(lib, Advance(lib, t, bytes[..|bytes| - 1]), bytes[|bytes| - 1])
  }

  lemma {:induction false} AdvanceConcat<P>(lib: Library<P>, t: Tracked<P>, a: seq<Byte>, b: seq<Byte>)
    ensures Advance(lib, t, a + b) == Advance(lib, Advance(lib, t, a), b)
    decreases |b|
  {
    if b == [] {
      assert a + b == a;
    } else {
      AdvanceConcat(lib, t, a, b[..|b| - 1]);
      assert (a + b)[..|a + b| - 1] == a + b[..|b| - 1];
    }
  }

  /** The parser on its own: where a stretch of bytes leaves it and the callbacks it makes. */
  function Parse<P>(lib: Library<P>, p: P, bytes: seq<Byte>): (P, seq<Action>) {
    if bytes == [] then (p, [])
    else
      var (before, actions) := Parse(lib, p, bytes[..|bytes| - 1]);
      var (after, more) := lib.step(before, bytes[|bytes| - 1]);
      (after, actions + more)
  }

  lemma {:induction false} ParseConcat<P>(lib: Library<P>, p: P, a: seq<Byte>, b: seq<Byte>)
    ensures var (mid, first) := Parse(lib, p, a);
            Parse(lib, p, a + b) == (Parse(lib, mid, b).0, first + Parse(lib, mid, b).1)
    decreases |b|
  {
    var (mid, first) := Parse(lib, p, a);
    if b == [] {
      assert a + b == a && first + [] == first;
    } else {
      ParseConcat(lib, p, a, b[..|b| - 1]);
      assert (a + b)[..|a + b| - 1] == a + b[..|b| - 1];
      var (before, actions) := Parse(lib, mid, b[..|b| - 1]);
      var more := lib.step(before, b[|b| - 1]).1;
      assert first + actions + more == first + (actions + more);
    }
  }

  /** A tracker is its parser, with the callbacks folded into the state. */
  lemma {:induction false} AdvanceIsParse<P>(lib: Library<P>, t: Tracked<P>, bytes: seq<Byte>)
    ensures var (parser, actions) := Parse(lib, t.parser, bytes);
            && Advance(lib, t, bytes).parser == parser
            && Advance(lib, t, bytes).state == PerformAll(lib.isUtf8, t.state, actions)
  {
    if bytes != [] {
      var front := bytes[..|bytes| - 1];
      AdvanceIsParse(lib, t, front);
      var (before, actions) := Parse(lib, t.parser, front);
      PerformAllConcat(lib.isUtf8, t.state, actions, lib.step(before, bytes[|bytes| - 1]).1);
    }
  }

  datatype AnchorState = AnchorState(
    col: U16, row: U16, sgr: SgrAttrs, modes: TerminalModes,
    charset: CharsetState, title: Option<seq<Byte>>)

  function View(s: TermState): AnchorState {
    AnchorState(s.col, s.row, s.sgr, s.modes, s.charset, s.title)
  }

  class AnchorTracker<!P> {
    const lib: Library<P>
    var parser: P
    var state: TermState
    var atSafeSplit: bool

    constructor (lib: Library<P>)
      ensures this.lib == lib && Value() == Fresh(lib)
    {
      this.lib := lib;
      parser, state, atSafeSplit := lib.start, INITIAL, true;
    }

    function Value(): Tracked<P>
      reads this
    {
      Tracked(parser, state, atSafeSplit)
    }

    method AdvanceBytes(bytes: seq<Byte>)
      modifies this
      ensures Value() == Advance(lib, old(Value()), bytes)
    {
      for i := 0 to |bytes|
        invariant Value() == Advance(lib, old(Value()), bytes[..i])
      {
        assert bytes[..i + 1][..i] == bytes[..i];
        AdvanceOne(bytes[i]);
      }
      assert bytes[..|bytes|] == bytes;
    }

    method AdvanceOne(b: Byte)
      modifies this
      ensures Value() == AdvanceByte(lib, old(Value()), b)
    {
      atSafeSplit := false;
      var (next, actions) := lib.step(parser, b);
      parser := next;
      for i := 0 to |actions|
        invariant parser == next
        invariant state == PerformAll(lib.isUtf8, old(state), actions[..i])
        invariant atSafeSplit == SafeAfter(actions[..i])
      {
        assert actions[..i + 1][..i] == actions[..i];
        Dispatch(actions[i]);
      }
      assert actions[..|actions|] == actions;
    }

    /** The callbacks of the parser. */
    method Dispatch(a: Action)
      modifies this`state, this`atSafeSplit
      ensures state == Perform(lib.isUtf8, old(state), a)
      ensures atSafeSplit == MarksSafe(a)
    {
      match a {
        case Print(c) =>
          state := state.(col := SatAdd16(state.col, CharWidth(c)));
        case Execute(byte) =>
          state := ControlCode(state, byte);
        case OscDispatch(parts) =>
          var title := OscTitle(lib.isUtf8, parts);
          if title.Some? {
            state := state.(title := title);
          }
        case CsiDispatch(params, intermediates, final) =>
          if final == 0x6d {
            SelectGraphicRendition(params);
          } else if final == 0x68 || final == 0x6c {
            SetPrivateModes(params, intermediates, final == 0x68);
          } else {
            state := Csi(state, params, intermediates, final);
          }
        case EscDispatch(intermediates, final) =>
          var idx := DesignatedSet(intermediates);
          if idx.Some? {
            state := state.(charset := state.charset.(g := state.charset.g[idx.value := final]));
          }
        case Hook =>
        case Put(_) =>
        case Unhook =>
      }
      atSafeSplit := MarksSafe(a);
    }

    method SelectGraphicRendition(params: seq<Param>)
      modifies this`state
      ensures state == old(state).(sgr := Sgr(params, old(state).sgr))
    {
      if params == [] {
        state := state.(sgr := DEFAULT_SGR);
        return;
      }
      var index := 0;
      assert params[0..] == params;
      while index < |params|
        invariant 0 <= index <= |params|
        invariant state == old(state).(sgr := state.sgr)
        invariant SgrItems(params[index..], state.sgr) == SgrItems(params, old(state).sgr)
      {
        var code := First(params[index]);
        var used := 1;
        if code == 38 || code == 48 {
          match ExtendedColor(params[index..]) {
            case None =>
            case Some((color, consumed)) =>
              state := state.(sgr := if code == 38 then state.sgr.(fg := Some(color)) else state.sgr.(bg := Some(color)));
              used := consumed;
          }
        } else {
          state := state.(sgr := SgrCode(code, state.sgr));
        }
        assert params[index..][used..] == params[index + used..];
        index := index + used;
      }
    }

    method SetPrivateModes(params: seq<Param>, intermediates: seq<Byte>, on: bool)
      modifies this`state
      ensures state == old(state).(modes := ModeSet(params, intermediates, on, old(state).modes))
    {
      if intermediates != [0x3f] {
        return;
      }
      for i := 0 to |params|
        invariant state == old(state).(modes := SetModes(params[..i], on, old(state).modes))
      {
        assert params[..i + 1][..i] == params[..i];
        state := state.(modes := SetMode(First(params[i]), on, state.modes));
      }
      assert params[..|params|] == params;
    }
  }

  // ----- What every reachable state satisfies

  predicate PaletteInRange(c: Option<Color>) {
    c.Some? && c.value.Palette? ==> c.value.index < 16
  }

  /** Named colours stay among the sixteen, and the locking shifts never move. */
  predicate Reachable(s: TermState) {
    && PaletteInRange(s.sgr.fg) && PaletteInRange(s.sgr.bg)
    && s.charset.gl == 0 && s.charset.gr == 0
  }

  lemma SgrCodeKeepsPalette(code: U16, s: SgrAttrs)
    requires PaletteInRange(s.fg) && PaletteInRange(s.bg)
    ensures PaletteInRange(SgrCode(code, s).fg) && PaletteInRange(SgrCode(code, s).bg)
  {
  }

  lemma {:induction false} SgrKeepsPalette(items: seq<Param>, s: SgrAttrs)
    requires PaletteInRange(s.fg) && PaletteInRange(s.bg)
    ensures PaletteInRange(SgrItems(items, s).fg) && PaletteInRange(SgrItems(items, s).bg)
    decreases |items|
  {
    hide SgrCode;
    if items != [] {
      var code := First(items[0]);
      if code == 38 || code == 48 {
        match ExtendedColor(items)
        case None => SgrKeepsPalette(items[1..], s);
        case Some((color, used)) =>
          SgrKeepsPalette(items[used..], if code == 38 then s.(fg := Some(color)) else s.(bg := Some(color)));
      } else {
        SgrCodeKeepsPalette(code, s);
        SgrKeepsPalette(items[1..], SgrCode(code, s));
      }
    }
  }

  lemma PerformKeepsReachable(isUtf8: seq<Byte> -> bool, s: TermState, a: Action)
    requires Reachable(s)
    ensures Reachable(Perform(isUtf8, s, a))
  {
    if a.CsiDispatch? {
      SgrKeepsPalette(a.params, s.sgr);
    }
  }

  lemma {:induction false} PerformAllKeepsReachable(isUtf8: seq<Byte> -> bool, s: TermState, actions: seq<Action>)
    requires Reachable(s)
    ensures Reachable(PerformAll(isUtf8, s, actions))
  {
    if actions != [] {
      PerformAllKeepsReachable(isUtf8, s, actions[..|actions| - 1]);
      PerformKeepsReachable(isUtf8, PerformAll(isUtf8, s, actions[..|actions| - 1]), actions[|actions| - 1]);
    }
  }

  /** Whatever the bytes and whatever the parser makes of them. */
  lemma {:induction false} AdvanceKeepsReachable<P>(lib: Library<P>, t: Tracked<P>, bytes: seq<Byte>)
    requires Reachable(t.state)
    ensures Reachable(Advance(lib, t, bytes).state)
  {
    if bytes != [] {
      var before := Advance(lib, t, bytes[..|bytes| - 1]);
      AdvanceKeepsReachable(lib, t, bytes[..|bytes| - 1]);
      PerformAllKeepsReachable(lib.isUtf8, before.state, lib.step(before.parser, bytes[|bytes| - 1]).1);
    }
  }
}
