/**
 Printing a terminal state back as control functions (crates/shared/proto/src/snapshot.rs),
 and what a terminal that receives them becomes.
 */
module SnapshotPrefix {
  import opened Base
  import opened Tracker
  import opened Ecma48

  function If<T>(b: bool, s: seq<T>): seq<T> {
    if b then s else []
  }

  function ColorParams(c: Color, foreground: bool): seq<U16> {
    match c
    case Palette(index) =>
      [(if foreground then (if index < 8 then 30 else 90) else (if index < 8 then 40 else 100)) + index % 8]
    case Indexed(index) => [if foreground then 38 else 48, 5, index]
    case Rgb(r, g, b) => [if foreground then 38 else 48, 2, r, g, b]
  }

  function OptionalColor(c: Option<Color>, foreground: bool): seq<U16> {
    if c.Some? then ColorParams(c.value, foreground) else []
  }

  /** The codes of the renditions that are on, in front of `rest`. */
  function FlagParams(s: SgrAttrs, rest: seq<U16>): seq<U16> {
    If(s.bold, [1]) + (If(s.faint, [2]) + (If(s.italic, [3]) + (If(s.underline, [4])
    + (If(s.blink, [5]) + (If(s.reverse, [7]) + (If(s.strikethrough, [9]) + rest))))))
  }

  function SgrParams(s: SgrAttrs): seq<U16> {
    FlagParams(s, OptionalColor(s.fg, true) + OptionalColor(s.bg, false))
  }

  function SgrControls(s: SgrAttrs): seq<Control> {
    if SgrParams(s) == [] then [] else [Sequence([], SgrParams(s), 0x6d)]
  }

  function PrivateMode(mode: U16, enabled: bool): Control {
    Sequence([0x3f], [mode], if enabled then 0x68 else 0x6c)
  }

  function ModeControls(m: TerminalModes): seq<Control> {
    [PrivateMode(1, m.cursorKeys), PrivateMode(6, m.origin), PrivateMode(7, m.autowrap),
     PrivateMode(1000, !m.mouse.Off?), PrivateMode(1002, m.mouse.ButtonEvent?),
     PrivateMode(1003, m.mouse.AnyEvent?), PrivateMode(1005, false), PrivateMode(1006, !m.mouse.Off?),
     PrivateMode(1049, m.altScreen), PrivateMode(2004, m.bracketedPaste)]
  }

  function CharsetControls(c: CharsetState): seq<Control> {
    [Designate(0x28, c.g[0]), Designate(0x29, c.g[1]), Designate(0x2a, c.g[2]), Designate(0x2b, c.g[3])]
    + If(c.gl <= 3, [Shift(0x0f)] + If(c.gl != 0, [EscapeFinal(0x6e)]))
  }

  function CursorControl(a: AnchorState): Control {
    Sequence([], [SatAdd16(a.row, 1), SatAdd16(a.col, 1)], 0x48)
  }

  /** The prefix as control functions. */
  function PrefixControls(a: AnchorState): seq<Control> {
    [Sequence([], [0], 0x6d), PrivateMode(25, true)]
    + SgrControls(a.sgr) + ModeControls(a.modes) + CharsetControls(a.charset) + [CursorControl(a)]
  }

  /** The prefix as bytes, as the daemon puts it in front of a snapshot. */
  function PrefixBytes(a: AnchorState): seq<Byte> {
    TextAll(PrefixControls(a))
  }

  // ----- The printer in the form of the source: a string that is appended to

  class Output {
    var text: seq<Byte>

    constructor ()
      ensures text == []
    {
      text := [];
    }

    method PushControl(c: Control)
      modifies this
      ensures text == old(text) + Text(c)
    {
      text := text + Text(c);
    }
  }

  method PushFlag(params: seq<U16>, b: bool, code: U16, ghost rest: seq<U16>) returns (more: seq<U16>)
    ensures more + rest == params + (If(b, [code]) + rest)
  {
    more := if b then params + [code] else params;
  }

  method CollectFlags(s: SgrAttrs, ghost rest: seq<U16>) returns (params: seq<U16>)
    ensures params + rest == FlagParams(s, rest)
  {
    hide If;
    ghost var r6 := If(s.strikethrough, [9]) + rest;
    ghost var r5 := If(s.reverse, [7]) + r6;
    ghost var r4 := If(s.blink, [5]) + r5;
    ghost var r3 := If(s.underline, [4]) + r4;
    ghost var r2 := If(s.italic, [3]) + r3;
    ghost var r1 := If(s.faint, [2]) + r2;
    ghost var r0 := If(s.bold, [1]) + r1;
    assert [] + r0 == r0;
    params := PushFlag([], s.bold, 1, r1);
    params := PushFlag(params, s.faint, 2, r2);
    params := PushFlag(params, s.italic, 3, r3);
    params := PushFlag(params, s.underline, 4, r4);
    params := PushFlag(params, s.blink, 5, r5);
    params := PushFlag(params, s.reverse, 7, r6);
    params := PushFlag(params, s.strikethrough, 9, rest);
  }

  method ApplySgr(out: Output, s: SgrAttrs)
    modifies out
    ensures out.text == old(out.text) + TextAll(SgrControls(s))
  {
    hide Text, TextAll, FlagParams, ColorParams;
    ghost var colours := OptionalColor(s.fg, true) + OptionalColor(s.bg, false);
    var flags := CollectFlags(s, colours);
    var params := flags;
    if s.fg.Some? { params := params + ColorParams(s.fg.value, true); }
    assert params == flags + OptionalColor(s.fg, true);
    if s.bg.Some? { params := params + ColorParams(s.bg.value, false); }
    assert params == flags + colours;
    PushSgr(out, params);
  }

  method PushSgr(out: Output, params: seq<U16>)
    modifies out
    ensures out.text == old(out.text) + TextAll(if params == [] then [] else [Sequence([], params, 0x6d)])
  {
    if params != [] {
      out.PushControl(Sequence([], params, 0x6d));
      TextAllOne(Sequence([], params, 0x6d));
    }
  }

  lemma TextAllNone()
    ensures TextAll([]) == []
  {
  }

  method ApplyControls(out: Output, cs: seq<Control>)
    modifies out
    ensures out.text == old(out.text) + TextAll(cs)
  {
    TextAllNone();
    hide Text, TextAll;
    assert cs[..0] == [] && out.text + [] == out.text;
    for i := 0 to |cs|
      invariant out.text == old(out.text) + TextAll(cs[..i])
    {
      ghost var before := TextAll(cs[..i]);
      out.PushControl(cs[i]);
      assert cs[..i + 1] == cs[..i] + [cs[i]];
      TextAllSnoc(cs[..i], cs[i]);
      assert old(out.text) + before + Text(cs[i]) == old(out.text) + (before + Text(cs[i]));
    }
    assert cs[..|cs|] == cs;
  }

  method ApplyCharset(out: Output, c: CharsetState)
    modifies out
    ensures out.text == old(out.text) + TextAll(CharsetControls(c))
  {
    hide Text;
    ghost var designations := [Designate(0x28, c.g[0]), Designate(0x29, c.g[1]), Designate(0x2a, c.g[2]), Designate(0x2b, c.g[3])];
    for index := 0 to 4
      invariant out.text == old(out.text) + TextAll(designations[..index])
    {
      out.PushControl(Designate(0x28 + index, c.g[index]));
      TextAllSnoc(designations[..index], designations[index]);
      assert designations[..index + 1] == designations[..index] + [designations[index]];
      assert designations[..index + 1][..index] == designations[..index];
    }
    assert designations[..4] == designations;
    hide TextAll;
    if c.gl <= 3 {
      out.PushControl(Shift(0x0f));
      TextAllSnoc(designations, Shift(0x0f));
      if c.gl != 0 {
        out.PushControl(EscapeFinal(0x6e));
        TextAllSnoc(designations + [Shift(0x0f)], EscapeFinal(0x6e));
        assert CharsetControls(c) == designations + [Shift(0x0f)] + [EscapeFinal(0x6e)];
      } else {
        assert CharsetControls(c) == designations + [Shift(0x0f)];
      }
    } else {
      assert CharsetControls(c) == designations;
    }
  }

  method RenderPrefixFromAnchor(a: AnchorState) returns (bytes: seq<Byte>)
    ensures bytes == PrefixBytes(a)
  {
    hide TextAll, Text, SgrControls, ModeControls, CharsetControls, CursorControl;
    var out := new Output();
    var start := [Sequence([], [0], 0x6d), PrivateMode(25, true)];
    ApplyControls(out, start);
    ApplySgr(out, a.sgr);
    TextAllConcat(start, SgrControls(a.sgr));
    ApplyControls(out, ModeControls(a.modes));
    TextAllConcat(start + SgrControls(a.sgr), ModeControls(a.modes));
    ApplyCharset(out, a.charset);
    TextAllConcat(start + SgrControls(a.sgr) + ModeControls(a.modes), CharsetControls(a.charset));
    out.PushControl(CursorControl(a));
    TextAllSnoc(start + SgrControls(a.sgr) + ModeControls(a.modes) + CharsetControls(a.charset), CursorControl(a));
    bytes := out.text;
  }

  lemma TextAllSnoc(cs: seq<Control>, c: Control)
    ensures TextAll(cs + [c]) == TextAll(cs) + Text(c)
  {
    assert (cs + [c])[..|cs|] == cs;
  }

  lemma TextAllOne(c: Control)
    ensures TextAll([c]) == Text(c)
  {
    TextAllSnoc([], c);
    assert [] + [c] == [c] && [] + Text(c) == Text(c);
  }

  lemma {:induction false} TextAllConcat(a: seq<Control>, b: seq<Control>)
    ensures TextAll(a + b) == TextAll(a) + TextAll(b)
    decreases |b|
  {
    hide Text;
    if b == [] {
      assert a + b == a;
    } else {
      var front, last := b[..|b| - 1], b[|b| - 1];
      TextAllConcat(a, front);
      TextAllSnoc(a + front, last);
      TextAllSnoc(front, last);
      hide TextAll;
      assert front + [last] == b && a + front + [last] == a + b;
    }
  }

  // ----- What the prefix does to a terminal

  /** Control functions applied in order. */
  function ApplyAll(isUtf8: seq<Byte> -> bool, s: TermState, cs: seq<Control>): TermState
    decreases |cs|
  {
    if cs == [] then s else ApplyAll(isUtf8, Perform(isUtf8, s, Meaning(cs[0])), cs[1..])
  }

  lemma {:induction false} ApplyAllConcat(isUtf8: seq<Byte> -> bool, s: TermState, a: seq<Control>, b: seq<Control>)
    ensures ApplyAll(isUtf8, s, a + b) == ApplyAll(isUtf8, ApplyAll(isUtf8, s, a), b)
    decreases |a|
  {
    if a == [] {
      assert a + b == b;
    } else {
      ApplyAllConcat(isUtf8, Perform(isUtf8, s, Meaning(a[0])), a[1..], b);
      assert (a + b)[1..] == a[1..] + b;
    }
  }

  lemma {:induction false} ApplyAllIsPerformAll(isUtf8: seq<Byte> -> bool, s: TermState, cs: seq<Control>)
    ensures ApplyAll(isUtf8, s, cs) == PerformAll(isUtf8, s, MeaningAll(cs))
    decreases |cs|
  {
    if cs != [] {
      var first := [Meaning(cs[0])];
      ApplyAllIsPerformAll(isUtf8, Perform(isUtf8, s, first[0]), cs[1..]);
      assert MeaningAll(cs) == first + MeaningAll(cs[1..]);
      PerformAllConcat(isUtf8, s, first, MeaningAll(cs[1..]));
      assert first[..0] == [];
      assert PerformAll(isUtf8, s, first[..0]) == s;
    }
  }

  /** SGR parameters that are one number each. */
  function Codes(params: seq<U16>, s: SgrAttrs): SgrAttrs {
    SgrItems(Singles(params), s)
  }

  lemma CodesStep(code: U16, rest: seq<U16>, s: SgrAttrs)
    requires code != 38 && code != 48
    ensures Codes([code] + rest, s) == Codes(rest, SgrCode(code, s))
  {
    assert Singles([code] + rest)[1..] == Singles(rest);
    assert Singles([code] + rest)[0] == [code];
  }

  lemma CodesIf(b: bool, code: U16, rest: seq<U16>, s: SgrAttrs, t: SgrAttrs)
    requires code != 38 && code != 48
    requires t == if b then SgrCode(code, s) else s
    ensures Codes(If(b, [code]) + rest, s) == Codes(rest, t)
  {
    if b {
      CodesStep(code, rest, s);
    } else {
      assert If(b, [code]) + rest == rest;
    }
  }

  lemma CodesFlags(f: SgrAttrs, rest: seq<U16>)
    ensures Codes(FlagParams(f, rest), DEFAULT_SGR) == Codes(rest, f.(fg := None, bg := None))
  {
    hide Codes, If;
    var s4 := DEFAULT_SGR.(bold := f.bold, faint := f.faint, italic := f.italic, underline := f.underline);
    FirstFlags(f, If(f.blink, [5]) + (If(f.reverse, [7]) + (If(f.strikethrough, [9]) + rest)));
    LastFlags(f, rest, s4);
  }

  lemma FirstFlags(f: SgrAttrs, rest: seq<U16>)
    ensures Codes(If(f.bold, [1]) + (If(f.faint, [2]) + (If(f.italic, [3]) + (If(f.underline, [4]) + rest))), DEFAULT_SGR)
            == Codes(rest, DEFAULT_SGR.(bold := f.bold, faint := f.faint, italic := f.italic, underline := f.underline))
  {
    hide Codes, If;
    var s1 := DEFAULT_SGR.(bold := f.bold);
    var s2 := s1.(faint := f.faint);
    var s3 := s2.(italic := f.italic);
    var r4 := If(f.underline, [4]) + rest;
    var r3 := If(f.italic, [3]) + r4;
    CodesIf(f.bold, 1, If(f.faint, [2]) + r3, DEFAULT_SGR, s1);
    CodesIf(f.faint, 2, r3, s1, s2);
    CodesIf(f.italic, 3, r4, s2, s3);
    CodesIf(f.underline, 4, rest, s3, s3.(underline := f.underline));
  }

  lemma LastFlags(f: SgrAttrs, rest: seq<U16>, s: SgrAttrs)
    requires !s.blink && !s.reverse && !s.strikethrough
    ensures Codes(If(f.blink, [5]) + (If(f.reverse, [7]) + (If(f.strikethrough, [9]) + rest)), s)
            == Codes(rest, s.(blink := f.blink, reverse := f.reverse, strikethrough := f.strikethrough))
  {
    hide Codes, If;
    var s5 := s.(blink := f.blink);
    var s6 := s5.(reverse := f.reverse);
    var r7 := If(f.strikethrough, [9]) + rest;
    CodesIf(f.blink, 5, If(f.reverse, [7]) + r7, s, s5);
    CodesIf(f.reverse, 7, r7, s5, s6);
    CodesIf(f.strikethrough, 9, rest, s6, s6.(strikethrough := f.strikethrough));
  }

  function WithColor(s: SgrAttrs, c: Option<Color>, foreground: bool): SgrAttrs {
    if c.None? then s else if foreground then s.(fg := c) else s.(bg := c)
  }

  lemma CodesColor(c: Option<Color>, foreground: bool, rest: seq<U16>, s: SgrAttrs)
    requires PaletteInRange(c)
    ensures Codes(OptionalColor(c, foreground) + rest, s) == Codes(rest, WithColor(s, c, foreground))
  {
    var params := OptionalColor(c, foreground);
    if c.None? {
      assert params + rest == rest;
    } else if c.value.Palette? {
      CodesStep(params[0], rest, s);
    } else {
      var items := Singles(params + rest);
      assert items[|params|..] == Singles(rest);
      assert items[0] == [params[0]] && items[1] == [params[1]] && items[2] == [params[2]];
      assert c.value.Rgb? ==> items[3] == [params[3]] && items[4] == [params[4]];
      assert ExtendedColor(items) == Some((c.value, |params|));
    }
  }

  /** The SGR sequence of the prefix rebuilds the rendition from a reset one. */
  lemma SgrRestored(isUtf8: seq<Byte> -> bool, s: TermState, sgr: SgrAttrs)
    requires s.sgr == DEFAULT_SGR
    requires PaletteInRange(sgr.fg) && PaletteInRange(sgr.bg)
    ensures ApplyAll(isUtf8, s, SgrControls(sgr)) == s.(sgr := sgr)
  {
    var params := SgrParams(sgr);
    var plain := sgr.(fg := None, bg := None);
    CodesNone(sgr);
    hide Codes, FlagParams, OptionalColor, SgrItems;
    CodesFlags(sgr, OptionalColor(sgr.fg, true) + OptionalColor(sgr.bg, false));
    CodesColor(sgr.fg, true, OptionalColor(sgr.bg, false), plain);
    assert OptionalColor(sgr.bg, false) + [] == OptionalColor(sgr.bg, false);
    CodesColor(sgr.bg, false, [], WithColor(plain, sgr.fg, true));
    assert Codes(params, DEFAULT_SGR) == sgr;
    if params == [] {
      CodesNone(s.sgr);
    } else {
      ApplyOne(isUtf8, s, Sequence([], params, 0x6d));
      CodesAreSgr(params, s.sgr);
    }
  }

  lemma CodesNone(s: SgrAttrs)
    ensures Codes([], s) == s
  {
  }

  lemma CodesAreSgr(params: seq<U16>, s: SgrAttrs)
    requires params != []
    ensures Sgr(Singles(params), s) == Codes(params, s)
  {
  }

  lemma ApplyOne(isUtf8: seq<Byte> -> bool, s: TermState, c: Control)
    ensures ApplyAll(isUtf8, s, [c]) == Perform(isUtf8, s, Meaning(c))
  {
    assert [c][1..] == [];
  }

  lemma ApplyMode(isUtf8: seq<Byte> -> bool, s: TermState, mode: U16, enabled: bool, after: TerminalModes, rest: seq<Control>)
    requires after == SetMode(mode, enabled, s.modes)
    ensures ApplyAll(isUtf8, s, [PrivateMode(mode, enabled)] + rest) == ApplyAll(isUtf8, s.(modes := after), rest)
  {
    PerformMode(isUtf8, s, mode, enabled);
    hide Perform, Meaning, SetMode;
    assert ([PrivateMode(mode, enabled)] + rest)[1..] == rest;
  }

  lemma PerformMode(isUtf8: seq<Byte> -> bool, s: TermState, mode: U16, enabled: bool)
    ensures Perform(isUtf8, s, Meaning(PrivateMode(mode, enabled))) == s.(modes := SetMode(mode, enabled, s.modes))
  {
    var one: seq<Param> := [[mode]];
    assert Singles([mode]) == one;
    OneMode(one, mode, enabled, s.modes);
    hide SetMode, SetModes;
  }

  lemma OneMode(one: seq<Param>, mode: U16, enabled: bool, m: TerminalModes)
    requires one == [[mode]]
    ensures SetModes(one, enabled, m) == SetMode(mode, enabled, m)
  {
    hide SetMode;
    assert one[..0] == [] && SetModes(one[..0], enabled, m) == m;
  }

  /** Only the `any event` mouse mode survives: 1003 is reset last whenever another one was set. */
  function RestoredModes(m: TerminalModes): TerminalModes {
    m.(mouse := MouseIf(m.mouse.AnyEvent?, AnyEvent))
  }

  lemma ModesRestored(isUtf8: seq<Byte> -> bool, s: TermState, m: TerminalModes)
    ensures ApplyAll(isUtf8, s, ModeControls(m)) == s.(modes := RestoredModes(m))
  {
    var c6 := [PrivateMode(1005, false)] + ([PrivateMode(1006, !m.mouse.Off?)]
              + ([PrivateMode(1049, m.altScreen)] + ([PrivateMode(2004, m.bracketedPaste)] + [])));
    var c3 := [PrivateMode(1000, !m.mouse.Off?)] + ([PrivateMode(1002, m.mouse.ButtonEvent?)]
              + ([PrivateMode(1003, m.mouse.AnyEvent?)] + c6));
    var c0 := [PrivateMode(1, m.cursorKeys)] + ([PrivateMode(6, m.origin)] + ([PrivateMode(7, m.autowrap)] + c3));
    assert ModeControls(m) == c0;
    var m3 := s.modes.(cursorKeys := m.cursorKeys, origin := m.origin, autowrap := m.autowrap);
    var m6 := m3.(mouse := MouseIf(m.mouse.AnyEvent?, AnyEvent));
    FirstModes(isUtf8, s, m, c3);
    MouseModes(isUtf8, s.(modes := m3), m.mouse, c6);
    LastModes(isUtf8, s.(modes := m6), m);
    hide ApplyAll, PrivateMode;
  }

  lemma FirstModes(isUtf8: seq<Byte> -> bool, s: TermState, m: TerminalModes, rest: seq<Control>)
    ensures ApplyAll(isUtf8, s, [PrivateMode(1, m.cursorKeys)] + ([PrivateMode(6, m.origin)]
                                + ([PrivateMode(7, m.autowrap)] + rest)))
            == ApplyAll(isUtf8, s.(modes := s.modes.(cursorKeys := m.cursorKeys, origin := m.origin,
                                                     autowrap := m.autowrap)), rest)
  {
    hide ApplyAll, PrivateMode;
    var m1 := s.modes.(cursorKeys := m.cursorKeys);
    var m2 := m1.(origin := m.origin);
    var c2 := [PrivateMode(7, m.autowrap)] + rest;
    ApplyMode(isUtf8, s, 1, m.cursorKeys, m1, [PrivateMode(6, m.origin)] + c2);
    ApplyMode(isUtf8, s.(modes := m1), 6, m.origin, m2, c2);
    ApplyMode(isUtf8, s.(modes := m2), 7, m.autowrap, m2.(autowrap := m.autowrap), rest);
  }

  lemma MouseModes(isUtf8: seq<Byte> -> bool, s: TermState, mouse: MouseMode, rest: seq<Control>)
    ensures ApplyAll(isUtf8, s, [PrivateMode(1000, !mouse.Off?)] + ([PrivateMode(1002, mouse.ButtonEvent?)]
                                + ([PrivateMode(1003, mouse.AnyEvent?)] + rest)))
            == ApplyAll(isUtf8, s.(modes := s.modes.(mouse := MouseIf(mouse.AnyEvent?, AnyEvent))), rest)
  {
    hide ApplyAll, PrivateMode;
    var m1 := s.modes.(mouse := MouseIf(!mouse.Off?, Normal));
    var m2 := m1.(mouse := MouseIf(mouse.ButtonEvent?, ButtonEvent));
    var c2 := [PrivateMode(1003, mouse.AnyEvent?)] + rest;
    ApplyMode(isUtf8, s, 1000, !mouse.Off?, m1, [PrivateMode(1002, mouse.ButtonEvent?)] + c2);
    ApplyMode(isUtf8, s.(modes := m1), 1002, mouse.ButtonEvent?, m2, c2);
    ApplyMode(isUtf8, s.(modes := m2), 1003, mouse.AnyEvent?, m2.(mouse := MouseIf(mouse.AnyEvent?, AnyEvent)), rest);
  }

  lemma LastModes(isUtf8: seq<Byte> -> bool, s: TermState, m: TerminalModes)
    ensures ApplyAll(isUtf8, s, [PrivateMode(1005, false)] + ([PrivateMode(1006, !m.mouse.Off?)]
                                + ([PrivateMode(1049, m.altScreen)] + ([PrivateMode(2004, m.bracketedPaste)] + []))))
            == s.(modes := s.modes.(altScreen := m.altScreen, bracketedPaste := m.bracketedPaste))
  {
    ApplyNone(isUtf8, s.(modes := s.modes.(altScreen := m.altScreen, bracketedPaste := m.bracketedPaste)));
    hide ApplyAll, PrivateMode;
    var c3 := [PrivateMode(2004, m.bracketedPaste)] + [];
    var c2 := [PrivateMode(1049, m.altScreen)] + c3;
    var m3 := s.modes.(altScreen := m.altScreen);
    ApplyMode(isUtf8, s, 1005, false, s.modes, [PrivateMode(1006, !m.mouse.Off?)] + c2);
    ApplyMode(isUtf8, s, 1006, !m.mouse.Off?, s.modes, c2);
    ApplyMode(isUtf8, s, 1049, m.altScreen, m3, c3);
    ApplyMode(isUtf8, s.(modes := m3), 2004, m.bracketedPaste, m3.(bracketedPaste := m.bracketedPaste), []);
  }

  lemma ApplyNone(isUtf8: seq<Byte> -> bool, s: TermState)
    ensures ApplyAll(isUtf8, s, []) == s
  {
  }

  lemma CharsetRestored(isUtf8: seq<Byte> -> bool, s: TermState, c: CharsetState)
    requires c.gl == 0
    ensures ApplyAll(isUtf8, s, CharsetControls(c)) == s.(charset := s.charset.(g := c.g))
  {
    var g0 := s.charset.g;
    var g1 := g0[0 := c.g[0]];
    var g2 := g1[1 := c.g[1]];
    var g3 := g2[2 := c.g[2]];
    var g4 := g3[3 := c.g[3]];
    assert g4 == c.g;
    var c4 := [Shift(0x0f)];
    var c3 := [Designate(0x2b, c.g[3])] + c4;
    var c2 := [Designate(0x2a, c.g[2])] + c3;
    var c1 := [Designate(0x29, c.g[1])] + c2;
    assert CharsetControls(c) == [Designate(0x28, c.g[0])] + c1;
    ApplyDesignate(isUtf8, s, 0, c.g[0], c1);
    ApplyDesignate(isUtf8, s.(charset := s.charset.(g := g1)), 1, c.g[1], c2);
    ApplyDesignate(isUtf8, s.(charset := s.charset.(g := g2)), 2, c.g[2], c3);
    ApplyDesignate(isUtf8, s.(charset := s.charset.(g := g3)), 3, c.g[3], c4);
    ApplyOne(isUtf8, s.(charset := s.charset.(g := g4)), Shift(0x0f));
  }

  lemma ApplyDesignate(isUtf8: seq<Byte> -> bool, s: TermState, k: nat, set_: Byte, rest: seq<Control>)
    requires k < 4
    ensures ApplyAll(isUtf8, s, [Designate(0x28 + k, set_)] + rest)
            == ApplyAll(isUtf8, s.(charset := s.charset.(g := s.charset.g[k := set_])), rest)
  {
    assert ([Designate(0x28 + k, set_)] + rest)[1..] == rest;
  }

  /** The state the prefix leaves behind, written out. */
  function Restored(a: AnchorState, s: TermState): TermState {
    TermState(Min(a.row, U16_MAX - 1), Min(a.col, U16_MAX - 1), a.sgr, RestoredModes(a.modes),
              s.charset.(g := a.charset.g), s.title)
  }

  /** An anchor taken from a reachable state. */
  predicate ReachableAnchor(a: AnchorState) {
    && PaletteInRange(a.sgr.fg) && PaletteInRange(a.sgr.bg)
    && a.charset.gl == 0 && a.charset.gr == 0
  }

  lemma PrefixEffect(isUtf8: seq<Byte> -> bool, a: AnchorState, s: TermState)
    requires ReachableAnchor(a)
    ensures PerformAll(isUtf8, s, MeaningAll(PrefixControls(a))) == Restored(a, s)
  {
    ApplyAllIsPerformAll(isUtf8, s, PrefixControls(a));
    var reset := s.(sgr := DEFAULT_SGR);
    var start := [Sequence([], [0], 0x6d), PrivateMode(25, true)];
    assert ApplyAll(isUtf8, s, start) == reset by {
      ResetEffect(isUtf8, s);
    }
    var s2 := reset.(sgr := a.sgr);
    var s3 := s2.(modes := RestoredModes(a.modes));
    var s4 := s3.(charset := s3.charset.(g := a.charset.g));
    SgrRestored(isUtf8, reset, a.sgr);
    ModesRestored(isUtf8, s2, a.modes);
    CharsetRestored(isUtf8, s3, a.charset);
    CursorEffect(isUtf8, s4, a);
    hide ApplyAll, Perform, Meaning, SgrControls, ModeControls, CharsetControls, CursorControl, RestoredModes;
    ApplyAllConcat(isUtf8, s, start, SgrControls(a.sgr));
    ApplyAllConcat(isUtf8, s, start + SgrControls(a.sgr), ModeControls(a.modes));
    ApplyAllConcat(isUtf8, s, start + SgrControls(a.sgr) + ModeControls(a.modes), CharsetControls(a.charset));
    ApplyAllConcat(isUtf8, s, start + SgrControls(a.sgr) + ModeControls(a.modes) + CharsetControls(a.charset),
                   [CursorControl(a)]);
  }

  lemma ResetEffect(isUtf8: seq<Byte> -> bool, s: TermState)
    ensures ApplyAll(isUtf8, s, [Sequence([], [0], 0x6d), PrivateMode(25, true)]) == s.(sgr := DEFAULT_SGR)
  {
    var reset := Sequence([], [0], 0x6d);
    var show := PrivateMode(25, true);
    var zero: seq<Param> := [[0]];
    assert Singles([0]) == zero && zero[1..] == [];
    assert SgrItems(zero[1..], DEFAULT_SGR) == DEFAULT_SGR;
    assert Sgr(zero, s.sgr) == DEFAULT_SGR;
    assert [reset, show] == [reset] + [show];
    ApplyAllConcat(isUtf8, s, [reset], [show]);
    ApplyOne(isUtf8, s, reset);
    assert [show] + [] == [show];
    ApplyMode(isUtf8, s.(sgr := DEFAULT_SGR), 25, true, s.modes, []);
  }

  lemma CursorEffect(isUtf8: seq<Byte> -> bool, s: TermState, a: AnchorState)
    ensures ApplyAll(isUtf8, s, [CursorControl(a)])
            == s.(row := Min(a.row, U16_MAX - 1), col := Min(a.col, U16_MAX - 1))
  {
    ApplyOne(isUtf8, s, CursorControl(a));
    var params := Singles([SatAdd16(a.row, 1), SatAdd16(a.col, 1)]);
    assert params[0] == [SatAdd16(a.row, 1)] && params[1] == [SatAdd16(a.col, 1)];
  }

  /** The anchors whose prefix carries everything but the title. */
  predicate Restorable(a: AnchorState) {
    a.col < U16_MAX && a.row < U16_MAX && (a.modes.mouse.Off? || a.modes.mouse.AnyEvent?)
  }

  /**
   Print, parse and perform: any terminal in a reachable state, fed the bytes of the prefix,
   ends in the ground state showing the anchor's cursor, rendition, modes and character sets,
   exactly when the anchor is `Restorable`. Its own title stays.
   */
  lemma PrefixRoundTrip(a: AnchorState, t: Tracked<Lexer>, isUtf8: seq<Byte> -> bool)
    requires ReachableAnchor(a) && FinalBytes(a.charset)
    requires Reachable(t.state) && t.parser == Ground
    ensures var after := Advance(AsLibrary(isUtf8), t, PrefixBytes(a));
            && after.parser == Ground
            && after.state == Restored(a, t.state)
            && (View(after.state) == a.(title := t.state.title) <==> Restorable(a))
  {
    var lib := AsLibrary(isUtf8);
    PrefixParses(a, isUtf8);
    AdvanceIsParse(lib, t, PrefixBytes(a));
    PrefixEffect(isUtf8, a, t.state);
  }

  /** The designations a parser can dispatch. */
  predicate FinalBytes(c: CharsetState) {
    forall i :: 0 <= i < 4 ==> 0x30 <= c.g[i] <= 0x7e
  }

  lemma PrefixParses(a: AnchorState, isUtf8: seq<Byte> -> bool)
    requires FinalBytes(a.charset)
    ensures Parse(AsLibrary(isUtf8), Ground, PrefixBytes(a)) == (Ground, MeaningAll(PrefixControls(a)))
  {
    CharsetWellFormed(a.charset);
    SimpleWellFormed(a);
    hide ModeControls, CharsetControls, SgrControls, CursorControl, Parse, WellFormed, PrivateMode;
    var start := [Sequence([], [0], 0x6d), PrivateMode(25, true)];
    AllWellFormed(start, SgrControls(a.sgr));
    AllWellFormed(start + SgrControls(a.sgr), ModeControls(a.modes));
    AllWellFormed(start + SgrControls(a.sgr) + ModeControls(a.modes), CharsetControls(a.charset));
    AllWellFormed(start + SgrControls(a.sgr) + ModeControls(a.modes) + CharsetControls(a.charset), [CursorControl(a)]);
    ParseTextAll(isUtf8, PrefixControls(a));
  }

  lemma SimpleWellFormed(a: AnchorState)
    ensures forall x :: x in [Sequence([], [0], 0x6d), PrivateMode(25, true)] ==> WellFormed(x)
    ensures forall x :: x in SgrControls(a.sgr) ==> WellFormed(x)
    ensures forall x :: x in ModeControls(a.modes) ==> WellFormed(x)
    ensures forall x :: x in [CursorControl(a)] ==> WellFormed(x)
  {
    hide SgrParams;
  }

  lemma CharsetWellFormed(c: CharsetState)
    requires FinalBytes(c)
    ensures forall x :: x in CharsetControls(c) ==> WellFormed(x)
  {
  }

  lemma AllWellFormed(a: seq<Control>, b: seq<Control>)
    requires forall x :: x in a ==> WellFormed(x)
    requires forall x :: x in b ==> WellFormed(x)
    ensures forall x :: x in a + b ==> WellFormed(x)
  {
  }

  // ----- A state the prefix does not carry

  /** `ESC [ ? 1000 h`: the mouse mode becomes Normal, and the prefix of that state leaves it off. */
  lemma NormalMouseIsLost(isUtf8: seq<Byte> -> bool)
    ensures var lib := AsLibrary(isUtf8);
            var server := Advance(lib, Fresh(lib), [0x1b, 0x5b, 0x3f, 0x31, 0x30, 0x30, 0x30, 0x68]);
            var client := Advance(lib, Fresh(lib), PrefixBytes(View(server.state)));
            && server.parser == Ground && server.state.modes.mouse == Normal
            && client.state.modes.mouse == Off
  {
    var lib := AsLibrary(isUtf8);
    var bytes: seq<Byte> := [0x1b, 0x5b, 0x3f, 0x31, 0x30, 0x30, 0x30, 0x68];
    var server := Advance(lib, Fresh(lib), bytes);
    MouseText();
    ParseControl(isUtf8, PrivateMode(1000, true));
    AdvanceIsParse(lib, Fresh(lib), bytes);
    NormalMouse(isUtf8);
    hide Advance, Parse, Text, Meaning, PerformAll;
    AdvanceKeepsReachable(lib, Fresh(lib), bytes);
    PrefixRoundTrip(View(server.state), Fresh(lib), isUtf8);
  }

  lemma MouseText()
    ensures Text(PrivateMode(1000, true)) == [0x1b, 0x5b, 0x3f, 0x31, 0x30, 0x30, 0x30, 0x68]
  {
    assert Decimal.Digits(1) == [0x31];
    assert Decimal.Digits(10) == [0x31, 0x30];
    assert Decimal.Digits(100) == [0x31, 0x30, 0x30];
    assert Decimal.Digits(1000) == [0x31, 0x30, 0x30, 0x30];
    assert ParamText([1000]) == Decimal.Digits(1000);
  }

  lemma NormalMouse(isUtf8: seq<Byte> -> bool)
    ensures PerformAll(isUtf8, INITIAL, [Meaning(PrivateMode(1000, true))])
            == INITIAL.(modes := INITIAL.modes.(mouse := Normal))
  {
    ApplyOne(isUtf8, INITIAL, PrivateMode(1000, true));
    ApplyAllIsPerformAll(isUtf8, INITIAL, [PrivateMode(1000, true)]);
    ApplyMode(isUtf8, INITIAL, 1000, true, SetMode(1000, true, INITIAL.modes), []);
    ApplyNone(isUtf8, INITIAL.(modes := SetMode(1000, true, INITIAL.modes)));
    assert [PrivateMode(1000, true)] + [] == [PrivateMode(1000, true)];
    assert MeaningAll([PrivateMode(1000, true)]) == [Meaning(PrivateMode(1000, true))];
  }
}
