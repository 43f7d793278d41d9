/**
 What the tracker's callbacks do to the screen (crates/server/pty/src/parser.rs), against plain
 arithmetic, absolute addressing and the bytes that cause them.
 */
module TrackerLaws {
  import opened Base
  import opened Tracker
  import opened Ecma48

  /** The nearest position there is. */
  function Clamp(n: int): (r: U16) {
    if n < 0 then 0 else if n > U16_MAX then U16_MAX else n
  }

  function Placed(s: TermState, row: int, col: int): TermState {
    s.(row := Clamp(row), col := Clamp(col))
  }

  /** Where a cursor movement by `n` leads: up, down, right, left, next and previous line, column, row. */
  function Target(s: TermState, final: Byte, n: nat): Option<(int, int)> {
    if final == 0x41 then Some((s.row - n, s.col))
    else if final == 0x42 then Some((s.row + n, s.col))
    else if final == 0x43 then Some((s.row, s.col + n))
    else if final == 0x44 then Some((s.row, s.col - n))
    else if final == 0x45 then Some((s.row + n, 0))
    else if final == 0x46 then Some((s.row - n, 0))
    else if final == 0x47 then Some((s.row, n - 1))
    else if final == 0x64 then Some((n - 1, s.col))
    else None
  }

  /** `CUP` and `HVP` put the cursor where they say, counting from one. */
  lemma AbsoluteAddressing(s: TermState, row: nat, col: nat, inter: seq<Byte>, final: Byte)
    requires row < U16_MAX && col < U16_MAX && (final == 0x48 || final == 0x66)
    ensures Csi(s, [[row + 1], [col + 1]], inter, final) == Placed(s, row, col)
  {
    var params: seq<Param> := [[row + 1], [col + 1]];
    assert First(params[0]) == row + 1 && First(params[1]) == col + 1;
  }

  /** Each movement leads to its target, clamped to the screen's limits; below them it is `CUP` there. */
  lemma MovesAreAbsolute(s: TermState, final: Byte, n: U16, inter: seq<Byte>)
    requires n > 0 && Target(s, final, n).Some?
    ensures var (row, col) := Target(s, final, n).value;
            && Csi(s, [[n]], inter, final) == Placed(s, row, col)
            && (Clamp(row) < U16_MAX && Clamp(col) < U16_MAX ==>
                  Csi(s, [[n]], inter, final) == Csi(s, [[Clamp(row) + 1], [Clamp(col) + 1]], inter, 0x48))
  {
    var (row, col) := Target(s, final, n).value;
    var params: seq<Param> := [[n]];
    assert First(params[0]) == n;
    if Clamp(row) < U16_MAX && Clamp(col) < U16_MAX {
      AbsoluteAddressing(s, Clamp(row), Clamp(col), inter, 0x48);
    }
  }

  /** A missing or a zero parameter counts as one, in movements and in addresses. */
  lemma OneByDefault(s: TermState, final: Byte, inter: seq<Byte>)
    requires Target(s, final, 1).Some? || final == 0x48 || final == 0x66
    ensures Csi(s, [], inter, final) == Csi(s, [[1]], inter, final)
    ensures Csi(s, [[0]], inter, final) == Csi(s, [[1]], inter, final)
    ensures Csi(s, [[0], [0]], inter, final) == Csi(s, [[1], [1]], inter, final)
    ensures final == 0x48 || final == 0x66 ==>
              Csi(s, [], inter, final) == Placed(s, 0, 0) == Csi(s, [[1], [1]], inter, final)
  {
    var none: seq<Param>, zero: seq<Param>, one: seq<Param> := [], [[0]], [[1]];
    var zeros: seq<Param>, ones: seq<Param> := [[0], [0]], [[1], [1]];
    assert First(zero[0]) == 0 && First(one[0]) == 1;
    assert First(zeros[0]) == First(zeros[1]) == 0 && First(ones[0]) == First(ones[1]) == 1;
  }

  /** LF, CR, BS, and the printing of a character. */
  lemma ControlsMove(isUtf8: seq<Byte> -> bool, s: TermState, c: nat)
    ensures Perform(isUtf8, s, Execute(0x0a)) == Placed(s, s.row + 1, 0)
    ensures Perform(isUtf8, s, Execute(0x0d)) == Placed(s, s.row, 0)
    ensures Perform(isUtf8, s, Execute(0x08)) == Placed(s, s.row, s.col - 1)
    ensures 0x20 <= c < 0x7f || c >= 0xa0 ==> Perform(isUtf8, s, Print(c)) == Placed(s, s.row, s.col + 1)
    ensures c < 0x20 || 0x7f <= c < 0xa0 ==> Perform(isUtf8, s, Print(c)) == s
  {
  }

  /** HT goes to the next tab stop, the next multiple of eight, or to the last column there is. */
  lemma TabStops(isUtf8: seq<Byte> -> bool, s: TermState)
    ensures var s' := Perform(isUtf8, s, Execute(0x09));
            && s' == s.(col := s'.col)
            && (s.col < U16_MAX - 7 ==> s.col < s'.col <= s.col + 8 && s'.col % 8 == 0)
            && (s.col >= U16_MAX - 7 ==> s'.col == U16_MAX)
  {
  }

  /** Every other control code, and every other final byte, leaves the screen alone. */
  lemma OthersDoNothing(isUtf8: seq<Byte> -> bool, s: TermState, b: Byte, params: seq<Param>, inter: seq<Byte>, final: Byte)
    ensures b !in {0x08, 0x09, 0x0a, 0x0d} ==> Perform(isUtf8, s, Execute(b)) == s
    ensures Target(s, final, 1).None? && final !in {0x48, 0x66, 0x68, 0x6c, 0x6d} ==> Csi(s, params, inter, final) == s
    ensures Perform(isUtf8, s, Hook) == Perform(isUtf8, s, Put(b)) == Perform(isUtf8, s, Unhook) == s
  {
  }

  /** The bytes of a movement, on any terminal at ground. */
  lemma MovesOnBytes(isUtf8: seq<Byte> -> bool, t: Tracked<Lexer>, final: Byte, n: U16)
    requires t.parser == Ground && n > 0 && Target(t.state, final, n).Some?
    ensures var (row, col) := Target(t.state, final, n).value;
            Advance(AsLibrary(isUtf8), t, [0x1b, 0x5b] + Decimal.Digits(n) + [final]).state == Placed(t.state, row, col)
  {
    var c: Control := Sequence([], [n], final);
    var text: seq<Byte> := [0x1b, 0x5b] + Decimal.Digits(n) + [final];
    assert Text(c) == text by {
      assert ParamText([n]) == Decimal.Digits(n);
      assert [0x1b, 0x5b] + [] == [0x1b, 0x5b];
    }
    ParseControl(isUtf8, c);
    AdvanceIsParse(AsLibrary(isUtf8), t, text);
    MovesAreAbsolute(t.state, final, n, []);
    assert Singles([n]) == [[n]];
    PerformOnly(isUtf8, t.state, Meaning(c));
    hide Advance, Parse, PerformAll, Csi, Text, Target, Placed;
  }

  lemma PerformOnly(isUtf8: seq<Byte> -> bool, s: TermState, a: Action)
    ensures PerformAll(isUtf8, s, [a]) == Perform(isUtf8, s, a)
  {
    assert [a][..0] == [];
    assert PerformAll(isUtf8, s, []) == s;
  }

  /** `ESC [ 2 A` in row 5 leads to row 3. */
  lemma CursorUpTwo(isUtf8: seq<Byte> -> bool, t: Tracked<Lexer>)
    requires t.parser == Ground && t.state.row == 5
    ensures Advance(AsLibrary(isUtf8), t, [0x1b, 0x5b, 0x32, 0x41]).state == t.state.(row := 3)
  {
    assert Decimal.Digits(2) == [0x32];
    assert [0x1b, 0x5b] + [0x32] + [0x41] == [0x1b, 0x5b, 0x32, 0x41];
    MovesOnBytes(isUtf8, t, 0x41, 2);
    hide Advance;
  }

  // ----- Renditions, one code at a time

  lemma OneCode(code: U16, s: SgrAttrs)
    requires code != 38 && code != 48
    ensures Sgr([[code]], s) == SgrCode(code, s)
  {
    hide SgrCode;
    var items: seq<Param> := [[code]];
    assert First(items[0]) == code && items[1..] == [];
    var after := SgrCode(code, s);
    assert SgrItems(items[1..], after) == after;
    assert SgrItems(items, s) == SgrItems(items[1..], after);
  }

  lemma SwitchingOn(s: SgrAttrs)
    ensures Sgr([[1]], s) == s.(bold := true) && Sgr([[2]], s) == s.(faint := true)
    ensures Sgr([[3]], s) == s.(italic := true) && Sgr([[4]], s) == s.(underline := true)
    ensures Sgr([[5]], s) == s.(blink := true) && Sgr([[7]], s) == s.(reverse := true)
    ensures Sgr([[9]], s) == s.(strikethrough := true)
  {
    hide Sgr, SgrColour;
    OneCode(1, s);
    OneCode(2, s);
    OneCode(3, s);
    OneCode(4, s);
    OneCode(5, s);
    OneCode(7, s);
    OneCode(9, s);
  }

  lemma SwitchingOff(s: SgrAttrs)
    ensures Sgr([[21]], s) == Sgr([[22]], s) == s.(bold := false, faint := false)
    ensures Sgr([[23]], s) == s.(italic := false) && Sgr([[24]], s) == s.(underline := false)
    ensures Sgr([[25]], s) == s.(blink := false) && Sgr([[27]], s) == s.(reverse := false)
    ensures Sgr([[29]], s) == s.(strikethrough := false)
    ensures Sgr([[39]], s) == s.(fg := None) && Sgr([[49]], s) == s.(bg := None)
  {
    hide Sgr;
    OneCode(21, s);
    OneCode(22, s);
    OneCode(23, s);
    OneCode(24, s);
    OneCode(25, s);
    OneCode(27, s);
    OneCode(29, s);
    OneCode(39, s);
    OneCode(49, s);
  }

  /** SGR without a parameter, or with 0, resets everything. */
  lemma Resetting(s: SgrAttrs)
    ensures Sgr([], s) == Sgr([[0]], s) == DEFAULT_SGR
  {
    OneCode(0, s);
  }

  /** The sixteen named colours, each in its two places. */
  lemma NamedColours(s: SgrAttrs, k: nat)
    requires k < 8
    ensures Sgr([[30 + k]], s) == s.(fg := Some(Palette(k))) && Sgr([[90 + k]], s) == s.(fg := Some(Palette(8 + k)))
    ensures Sgr([[40 + k]], s) == s.(bg := Some(Palette(k))) && Sgr([[100 + k]], s) == s.(bg := Some(Palette(8 + k)))
  {
    OneCode(30 + k, s);
    OneCode(90 + k, s);
    OneCode(40 + k, s);
    OneCode(100 + k, s);
    hide Sgr;
  }

  lemma OtherCodesDoNothing(s: SgrAttrs, code: U16)
    requires code !in {0, 1, 2, 3, 4, 5, 7, 9, 21, 22, 23, 24, 25, 27, 29, 38, 39, 48, 49}
    requires !(30 <= code <= 47) && !(90 <= code <= 107)
    ensures Sgr([[code]], s) == s
  {
    OneCode(code, s);
    hide Sgr;
  }

  // ----- Modes

  lemma OneMode(k: U16, on: bool, m: TerminalModes)
    ensures ModeSet([[k]], [0x3f], on, m) == SetMode(k, on, m)
  {
    var params: seq<Param> := [[k]];
    assert params[..0] == [] && First(params[0]) == k;
    assert SetModes(params[..0], on, m) == m;
  }

  /** Each private mode switches one thing; a mouse mode that is reset leaves the mouse off. */
  lemma ModeSwitches(on: bool, m: TerminalModes)
    ensures ModeSet([[1]], [0x3f], on, m) == m.(cursorKeys := on) && ModeSet([[6]], [0x3f], on, m) == m.(origin := on)
    ensures ModeSet([[7]], [0x3f], on, m) == m.(autowrap := on) && ModeSet([[1049]], [0x3f], on, m) == m.(altScreen := on)
    ensures ModeSet([[2004]], [0x3f], on, m) == m.(bracketedPaste := on)
    ensures ModeSet([[9]], [0x3f], on, m) == m.(mouse := if on then X10 else Off)
    ensures ModeSet([[1000]], [0x3f], on, m) == m.(mouse := if on then Normal else Off)
    ensures ModeSet([[1002]], [0x3f], on, m) == m.(mouse := if on then ButtonEvent else Off)
    ensures ModeSet([[1003]], [0x3f], on, m) == m.(mouse := if on then AnyEvent else Off)
  {
    OneMode(1, on, m);
    OneMode(6, on, m);
    OneMode(7, on, m);
    OneMode(9, on, m);
    OneMode(1000, on, m);
    OneMode(1002, on, m);
    OneMode(1003, on, m);
    OneMode(1049, on, m);
    OneMode(2004, on, m);
    hide ModeSet;
  }

  lemma OtherModesDoNothing(k: U16, params: seq<Param>, inter: seq<Byte>, on: bool, m: TerminalModes)
    ensures k !in {1, 6, 7, 9, 1000, 1002, 1003, 1049, 2004} ==> ModeSet([[k]], [0x3f], on, m) == m
    ensures inter != [0x3f] ==> ModeSet(params, inter, on, m) == m
  {
    OneMode(k, on, m);
    hide SetModes;
  }

  /** Several modes in one sequence are set one after the other; `h` sets and `l` resets. */
  lemma {:induction false} ModesInOrder(s: TermState, a: seq<Param>, b: seq<Param>, inter: seq<Byte>, final: Byte)
    requires final == 0x68 || final == 0x6c
    ensures Csi(s, a + b, inter, final) == Csi(Csi(s, a, inter, final), b, inter, final)
    ensures Csi(s, a, inter, final) == s.(modes := ModeSet(a, inter, final == 0x68, s.modes))
  {
    ModeSetConcat(a, b, inter, final == 0x68, s.modes);
    hide ModeSet;
  }

  lemma {:induction false} ModeSetConcat(a: seq<Param>, b: seq<Param>, inter: seq<Byte>, on: bool, m: TerminalModes)
    ensures ModeSet(a + b, inter, on, m) == ModeSet(b, inter, on, ModeSet(a, inter, on, m))
    decreases |b|
  {
    if b == [] {
      assert a + b == a;
    } else {
      ModeSetConcat(a, b[..|b| - 1], inter, on, m);
      assert (a + b)[..|a + b| - 1] == a + b[..|b| - 1];
      hide SetMode;
    }
  }

  // ----- Titles

  lemma SplitSnoc(raw: seq<Byte>, b: Byte)
    ensures var front := SplitOnSemicolon(raw);
            && front != []
            && SplitOnSemicolon(raw + [b])
               == if b == 0x3b then front + [[]] else front[..|front| - 1] + [front[|front| - 1] + [b]]
  {
    SplitNotEmpty(raw);
    assert (raw + [b])[..|raw|] == raw;
  }

  lemma SplitNotEmpty(raw: seq<Byte>)
    ensures SplitOnSemicolon(raw) != []
  {
  }

  lemma JoinSnoc(parts: seq<seq<Byte>>, last: seq<Byte>)
    ensures JoinWithSemicolons(parts + [last])
            == if parts == [] then last else JoinWithSemicolons(parts) + [0x3b] + last
  {
    if parts == [] {
      assert parts + [last] == [last];
    } else {
      assert (parts + [last])[..|parts|] == parts;
    }
  }

  /** Splitting at semicolons and joining again changes nothing. */
  lemma {:induction false} JoinUndoesSplit(raw: seq<Byte>)
    ensures JoinWithSemicolons(SplitOnSemicolon(raw)) == raw
  {
    hide JoinWithSemicolons, SplitOnSemicolon;
    if raw == [] {
      NothingSplits();
    } else {
      var n := |raw| - 1;
      JoinUndoesSplit(raw[..n]);
      JoinSplitSnoc(raw[..n], raw[n]);
      assert raw[..n] + [raw[n]] == raw;
    }
  }

  lemma NothingSplits()
    ensures JoinWithSemicolons(SplitOnSemicolon([])) == []
  {
    assert SplitOnSemicolon([]) == [[]];
    assert JoinWithSemicolons([[]]) == [];
  }

  lemma JoinSplitSnoc(raw: seq<Byte>, b: Byte)
    ensures JoinWithSemicolons(SplitOnSemicolon(raw + [b])) == JoinWithSemicolons(SplitOnSemicolon(raw)) + [b]
  {
    hide JoinWithSemicolons, SplitOnSemicolon;
    SplitSnoc(raw, b);
    var parts := SplitOnSemicolon(raw);
    var front, last := parts[..|parts| - 1], parts[|parts| - 1];
    assert front + [last] == parts;
    if b == 0x3b {
      JoinSnoc(parts, []);
      assert JoinWithSemicolons(parts) + [0x3b] + [] == JoinWithSemicolons(parts) + [0x3b];
    } else {
      JoinSnoc(front, last);
      JoinSnoc(front, last + [b]);
      assert JoinWithSemicolons(front) + [0x3b] + (last + [b]) == JoinWithSemicolons(front) + [0x3b] + last + [b];
    }
  }

  lemma {:induction false} SelectorSplits(selector: Byte, text: seq<Byte>)
    requires selector != 0x3b
    ensures SplitOnSemicolon([selector, 0x3b] + text) == [[selector]] + SplitOnSemicolon(text)
    decreases |text|
  {
    if text == [] {
      SplitSnoc([], selector);
      SplitSnoc([selector], 0x3b);
      assert [] + [selector] == [selector] && [selector] + [0x3b] == [selector, 0x3b] && [selector, 0x3b] + text == [selector, 0x3b];
      assert SplitOnSemicolon([]) == [[]] && SplitOnSemicolon([selector]) == [[selector]];
    } else {
      var n := |text| - 1;
      hide SplitOnSemicolon;
      SelectorSplits(selector, text[..n]);
      SelectorSnoc(selector, text[..n], text[n]);
      assert text[..n] + [text[n]] == text;
    }
  }

  lemma SelectorSnoc(selector: Byte, text: seq<Byte>, b: Byte)
    requires SplitOnSemicolon([selector, 0x3b] + text) == [[selector]] + SplitOnSemicolon(text)
    ensures SplitOnSemicolon([selector, 0x3b] + (text + [b])) == [[selector]] + SplitOnSemicolon(text + [b])
  {
    hide SplitOnSemicolon;
    var head: seq<Byte> := [selector, 0x3b];
    var parts, longer := SplitOnSemicolon(text), SplitOnSemicolon(head + text);
    SplitSnoc(head + text, b);
    SplitSnoc(text, b);
    assert head + text + [b] == head + (text + [b]);
    assert longer[|longer| - 1] == parts[|parts| - 1] && longer[..|longer| - 1] == [[selector]] + parts[..|parts| - 1];
    if b == 0x3b {
      assert [[selector]] + parts + [[]] == [[selector]] + (parts + [[]]);
    } else {
      assert [[selector]] + parts[..|parts| - 1] + [parts[|parts| - 1] + [b]] == [[selector]] + (parts[..|parts| - 1] + [parts[|parts| - 1] + [b]]);
    }
  }

  /** OSC 0 and OSC 2 set the title to all that follows the first semicolon, if that is UTF-8. */
  lemma TitleIsTheRest(isUtf8: seq<Byte> -> bool, s: TermState, selector: Byte, text: seq<Byte>)
    requires selector != 0x3b
    ensures Perform(isUtf8, s, OscDispatch(SplitOnSemicolon([selector, 0x3b] + text)))
            == if (selector == 0x30 || selector == 0x32) && isUtf8(text) then s.(title := Some(text)) else s
  {
    SelectorSplits(selector, text);
    JoinUndoesSplit(text);
    hide JoinWithSemicolons, SplitOnSemicolon;
    assert ([[selector]] + SplitOnSemicolon(text))[1..] == SplitOnSemicolon(text);
    assert [selector] == [0x30] <==> selector == 0x30;
    assert [selector] == [0x32] <==> selector == 0x32;
  }

  // ----- Safe splits

  /** After a byte of a control function of ECMA-48 a split counts as safe exactly when the byte had an effect. */
  lemma SafeExactlyAtEffects(isUtf8: seq<Byte> -> bool, t: Tracked<Lexer>, b: Byte)
    ensures Advance(AsLibrary(isUtf8), t, [b]).safe <==> Step(t.parser, b).1 != []
  {
    assert [b][..0] == [];
    assert Advance(AsLibrary(isUtf8), t, []) == t;
    NoDeviceControls(t.parser, b);
    hide Step, PerformAll;
  }

  lemma NoDeviceControls(l: Lexer, b: Byte)
    ensures forall a :: a in Step(l, b).1 ==> !a.Hook? && !a.Put?
  {
  }

  /** Inside a device control string no split is safe; its end is one again. */
  lemma DeviceControlsAreUnsafe<P>(lib: Library<P>, t: Tracked<P>, b: Byte, a: Action)
    requires lib.step(t.parser, b).1 == [a]
    ensures Advance(lib, t, [b]).safe <==> !a.Hook? && !a.Put?
  {
    assert [b][..0] == [];
    assert Advance(lib, t, []) == t;
    hide PerformAll;
  }
}
