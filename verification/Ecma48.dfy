/**
 A concrete escape-sequence parser for the control functions of ECMA-48 that the rendered
 prefix uses (C0, ESC with intermediates, CSI, OSC strings), and the text form of those
 control functions. Strings other than OSC are swallowed up to the next ESC.
 */
module Ecma48 {
  import opened Base
  import Decimal
  import opened Tracker

  datatype Lexer =
    | Ground
    | Escape
    | EscapeIntermediate(inter: seq<Byte>)
    | CsiEntry
    | CsiParam(params: seq<Param>, sub: Param, value: U16, inter: seq<Byte>)
    | CsiIntermediate(params: seq<Param>, inter: seq<Byte>)
    | CsiIgnore
    | OscString(raw: seq<Byte>)
    | OtherString

  function SplitOnSemicolon(raw: seq<Byte>): seq<seq<Byte>> {
    if raw == [] then [[]]
    else
      var front := SplitOnSemicolon(raw[..|raw| - 1]);
      if raw[|raw| - 1] == 0x3b || front == [] then front + [[]]
      else front[..|front| - 1] + [front[|front| - 1] + [raw[|raw| - 1]]]
  }

  function EndOfString(l: Lexer): seq<Action> {
    if l.OscString? then [OscDispatch(SplitOnSemicolon(l.raw))] else []
  }

  function StepCsiParam(l: Lexer, b: Byte): (Lexer, seq<Action>)
    requires l.CsiParam?
  {
    var CsiParam(params, sub, value, inter) := l;
    if Decimal.IsDigit(b) then (l.(value := Min(value * 10 + (b - 0x30), U16_MAX)), [])
    else if b == 0x3a then (CsiParam(params, sub + [value], 0, inter), [])
    else if b == 0x3b then (CsiParam(params + [sub + [value]], [], 0, inter), [])
    else if 0x3c <= b <= 0x3f then (CsiIgnore, [])
    else if 0x20 <= b <= 0x2f then (CsiIntermediate(params + [sub + [value]], inter + [b]), [])
    else if 0x40 <= b <= 0x7e then (Ground, [CsiDispatch(params + [sub + [value]], inter, b)])
    else (l, [])
  }

  /** A private marker counts only as the very first byte after the introducer. */
  function StepCsiEntry(b: Byte): (Lexer, seq<Action>) {
    if 0x3c <= b <= 0x3f then (CsiParam([], [], 0, [b]), [])
    else if b >= 0x7f then (CsiEntry, [])
    else StepCsiParam(CsiParam([], [], 0, []), b)
  }

  function StepCsiIntermediate(l: Lexer, b: Byte): (Lexer, seq<Action>)
    requires l.CsiIntermediate?
  {
    if 0x20 <= b <= 0x2f then (l.(inter := l.inter + [b]), [])
    else if 0x30 <= b <= 0x3f then (CsiIgnore, [])
    else if 0x40 <= b <= 0x7e then (Ground, [CsiDispatch(l.params, l.inter, b)])
    else (l, [])
  }

  function Step(l: Lexer, b: Byte): (Lexer, seq<Action>) {
    if b == 0x1b then (Escape, EndOfString(l))
    else if b == 0x18 || b == 0x1a then (Ground, EndOfString(l) + [Execute(b)])
    else
      match l
      case Ground => (Ground, if b < 0x20 then [Execute(b)] else [Print(b)])
      case Escape =>
        if b < 0x20 then (Escape, [Execute(b)])
        else if b <= 0x2f then (EscapeIntermediate([b]), [])
        else if b == 0x5b then (CsiEntry, [])
        else if b == 0x5d then (OscString([]), [])
        else if b == 0x50 || b == 0x58 || b == 0x5e || b == 0x5f then (OtherString, [])
        else if b <= 0x7e then (Ground, [EscDispatch([], b)])
        else (Escape, [])
      case EscapeIntermediate(inter) =>
        if b < 0x20 then (l, [Execute(b)])
        else if b <= 0x2f then (EscapeIntermediate(inter + [b]), [])
        else if b <= 0x7e then (Ground, [EscDispatch(inter, b)])
        else (l, [])
      case CsiEntry => if b < 0x20 then (l, [Execute(b)]) else StepCsiEntry(b)
      case CsiParam(_, _, _, _) => if b < 0x20 then (l, [Execute(b)]) else StepCsiParam(l, b)
      case CsiIntermediate(_, _) => if b < 0x20 then (l, [Execute(b)]) else StepCsiIntermediate(l, b)
      case CsiIgnore =>
        if b < 0x20 then (l, [Execute(b)]) else if 0x40 <= b <= 0x7e then (Ground, []) else (l, [])
      case OscString(raw) =>
        if b == 0x07 then (Ground, EndOfString(l))
        else if b < 0x20 then (l, [])
        else (OscString(raw + [b]), [])
      case OtherString => (l, [])
  }

  function AsLibrary(isUtf8: seq<Byte> -> bool): Library<Lexer> {
    Library(Ground, (l, b) => Step(l, b), isUtf8)
  }

  // ----- Control functions as values, with a text and a meaning

  datatype Control =
    | Sequence(marker: seq<Byte>, params: seq<U16>, final: Byte)
    | Designate(selector: Byte, set_: Byte)
    | EscapeFinal(final: Byte)
    | Shift(code: Byte)

  function ParamText(params: seq<U16>): seq<Byte>
    requires params != []
  {
    var last := Decimal.Digits(params[|params| - 1]);
    if |params| == 1 then last else ParamText(params[..|params| - 1]) + [0x3b] + last
  }

  /** A `char` below 256 as UTF-8. */
  function CharBytes(b: Byte): seq<Byte> {
    if b < 0x80 then [b] else [0xc0 + b / 64, 0x80 + b % 64]
  }

  predicate WellFormed(c: Control) {
    match c
    case Sequence(marker, params, final) =>
      (marker == [] || marker == [0x3f]) && params != [] && 0x40 <= final <= 0x7e
    case Designate(selector, set_) => 0x28 <= selector <= 0x2b && 0x30 <= set_ <= 0x7e
    case EscapeFinal(final) => 0x60 <= final <= 0x7e
    case Shift(code) => code < 0x18
  }

  function Text(c: Control): seq<Byte> {
    match c
    case Sequence(marker, params, final) =>
      [0x1b, 0x5b] + marker + (if params == [] then [] else ParamText(params)) + [final]
    case Designate(selector, set_) => [0x1b, selector] + CharBytes(set_)
    case EscapeFinal(final) => [0x1b, final]
    case Shift(code) => [code]
  }

  function Singles(params: seq<U16>): seq<Param> {
    seq(|params|, i requires 0 <= i < |params| => [params[i]])
  }

  function Meaning(c: Control): Action {
    match c
    case Sequence(marker, params, final) => CsiDispatch(Singles(params), marker, final)
    case Designate(selector, set_) => EscDispatch([selector], set_)
    case EscapeFinal(final) => EscDispatch([], final)
    case Shift(code) => Execute(code)
  }

  function TextAll(cs: seq<Control>): seq<Byte> {
    if cs == [] then [] else TextAll(cs[..|cs| - 1]) + Text(cs[|cs| - 1])
  }

  function MeaningAll(cs: seq<Control>): seq<Action> {
    seq(|cs|, i requires 0 <= i < |cs| => Meaning(cs[i]))
  }

  lemma ParseOne(lib: Library<Lexer>, l: Lexer, b: Byte)
    ensures Parse(lib, l, [b]) == lib.step(l, b)
  {
    assert [b][..0] == [];
    assert Parse(lib, l, [b][..0]) == (l, []);
    var (after, more) := lib.step(l, b);
    assert [] + more == more;
  }

  /** A list of one-number parameters, one longer. */
  lemma SinglesSnoc(params: seq<U16>, n: U16)
    ensures Singles(params + [n]) == Singles(params) + [[] + [n]]
  {
    assert [] + [n] == [n];
  }

  lemma ParseSnoc(lib: Library<Lexer>, l: Lexer, bytes: seq<Byte>, b: Byte)
    ensures Parse(lib, l, bytes + [b]) ==
            (lib.step(Parse(lib, l, bytes).0, b).0, Parse(lib, l, bytes).1 + lib.step(Parse(lib, l, bytes).0, b).1)
  {
    assert (bytes + [b])[..|bytes|] == bytes;
  }

  /** Reading back a printed number gives the number. */
  lemma {:induction false} ParseDigits(isUtf8: seq<Byte> -> bool, params: seq<Param>, sub: Param, inter: seq<Byte>, n: U16)
    ensures Parse(AsLibrary(isUtf8), CsiParam(params, sub, 0, inter), Decimal.Digits(n))
            == (CsiParam(params, sub, n, inter), [])
    decreases n
  {
    var lib := AsLibrary(isUtf8);
    var start := CsiParam(params, sub, 0, inter);
    if n < 10 {
      ParseOne(lib, start, 0x30 + n);
    } else {
      ParseDigits(isUtf8, params, sub, inter, n / 10);
      ParseSnoc(lib, start, Decimal.Digits(n / 10), 0x30 + n % 10);
      assert Step(CsiParam(params, sub, n / 10, inter), 0x30 + n % 10) == (CsiParam(params, sub, n, inter), []);
    }
  }

  lemma {:induction false} ParseParams(isUtf8: seq<Byte> -> bool, marker: seq<Byte>, params: seq<U16>)
    requires params != []
    ensures Parse(AsLibrary(isUtf8), CsiParam([], [], 0, marker), ParamText(params))
            == (CsiParam(Singles(params[..|params| - 1]), [], params[|params| - 1], marker), [])
    decreases |params|
  {
    var lib := AsLibrary(isUtf8);
    var start := CsiParam([], [], 0, marker);
    var front, last := params[..|params| - 1], params[|params| - 1];
    if |params| == 1 {
      ParseDigits(isUtf8, [], [], marker, last);
      assert Singles(front) == [];
    } else {
      ParseParams(isUtf8, marker, front);
      var head := ParamText(front) + [0x3b];
      ParseSnoc(lib, start, ParamText(front), 0x3b);
      var before := CsiParam(Singles(front[..|front| - 1]), [], front[|front| - 1], marker);
      var mid := CsiParam(Singles(front), [], 0, marker);
      SinglesSnoc(front[..|front| - 1], front[|front| - 1]);
      assert front[..|front| - 1] + [front[|front| - 1]] == front;
      assert Step(before, 0x3b) == (mid, []);
      assert Parse(lib, start, head) == (mid, []);
      ParseDigits(isUtf8, Singles(front), [], marker, last);
      ParseConcat(lib, start, head, Decimal.Digits(last));
    }
  }

  lemma {:induction false} ParamTextStart(params: seq<U16>)
    requires params != []
    ensures ParamText(params) != [] && Decimal.IsDigit(ParamText(params)[0])
    decreases |params|
  {
    if |params| > 1 {
      ParamTextStart(params[..|params| - 1]);
    }
  }

  /** After the introducer a digit starts the first parameter. */
  lemma ParseFromEntry(isUtf8: seq<Byte> -> bool, text: seq<Byte>)
    requires text != [] && Decimal.IsDigit(text[0])
    ensures Parse(AsLibrary(isUtf8), CsiEntry, text) == Parse(AsLibrary(isUtf8), CsiParam([], [], 0, []), text)
  {
    var lib := AsLibrary(isUtf8);
    assert [text[0]] + text[1..] == text;
    ParseConcat(lib, CsiEntry, [text[0]], text[1..]);
    ParseConcat(lib, CsiParam([], [], 0, []), [text[0]], text[1..]);
    ParseOne(lib, CsiEntry, text[0]);
    ParseOne(lib, CsiParam([], [], 0, []), text[0]);
  }

  lemma ParseIntroduced(isUtf8: seq<Byte> -> bool, marker: seq<Byte>, params: seq<U16>)
    requires (marker == [] || marker == [0x3f]) && params != []
    ensures Parse(AsLibrary(isUtf8), Ground, [0x1b, 0x5b] + marker + ParamText(params))
            == (CsiParam(Singles(params[..|params| - 1]), [], params[|params| - 1], marker), [])
  {
    var lib := AsLibrary(isUtf8);
    var opening: seq<Byte> := [0x1b, 0x5b];
    ParseOne(lib, Ground, 0x1b);
    ParseSnoc(lib, Ground, [0x1b], 0x5b);
    assert opening == [0x1b] + [0x5b];
    assert Parse(lib, Ground, opening) == (CsiEntry, []);
    ParseParams(isUtf8, marker, params);
    if marker == [] {
      ParamTextStart(params);
      ParseFromEntry(isUtf8, ParamText(params));
      assert opening + marker == opening;
    } else {
      ParseSnoc(lib, Ground, opening, 0x3f);
      assert Step(CsiEntry, 0x3f) == (CsiParam([], [], 0, marker), []);
      assert Parse(lib, Ground, opening + [0x3f]) == (CsiParam([], [], 0, marker), []);
    }
    hide Step, ParamText, Parse;
    ParseConcat(lib, Ground, opening + marker, ParamText(params));
  }

  lemma ParseSequence(isUtf8: seq<Byte> -> bool, c: Control)
    requires c.Sequence? && WellFormed(c)
    ensures Parse(AsLibrary(isUtf8), Ground, Text(c)) == (Ground, [Meaning(c)])
  {
    var lib := AsLibrary(isUtf8);
    var Sequence(marker, params, final) := c;
    var intro: seq<Byte> := [0x1b, 0x5b] + marker;
    var last := CsiParam(Singles(params[..|params| - 1]), [], params[|params| - 1], marker);
    assert Step(last, final) == (Ground, [Meaning(c)]) by {
      SinglesSnoc(params[..|params| - 1], params[|params| - 1]);
      assert params[..|params| - 1] + [params[|params| - 1]] == params;
    }
    ParseIntroduced(isUtf8, marker, params);
    ParseSnoc(lib, Ground, intro + ParamText(params), final);
    hide Step, ParamText, Parse;
    assert [] + [Meaning(c)] == [Meaning(c)];
    assert Text(c) == intro + ParamText(params) + [final];
  }

  lemma ParseControl(isUtf8: seq<Byte> -> bool, c: Control)
    requires WellFormed(c)
    ensures Parse(AsLibrary(isUtf8), Ground, Text(c)) == (Ground, [Meaning(c)])
  {
    var lib := AsLibrary(isUtf8);
    assert [] + [Meaning(c)] == [Meaning(c)];
    match c
    case Sequence(_, _, _) =>
      ParseSequence(isUtf8, c);
    case Designate(selector, set_) =>
      ParseOne(lib, Ground, 0x1b);
      ParseSnoc(lib, Ground, [0x1b], selector);
      assert Parse(lib, Ground, [0x1b] + [selector]) == (EscapeIntermediate([selector]), []);
      ParseSnoc(lib, Ground, [0x1b] + [selector], set_);
      assert [0x1b] + [selector] + [set_] == Text(c);
    case EscapeFinal(final) =>
      ParseOne(lib, Ground, 0x1b);
      assert Parse(lib, Ground, [0x1b]) == (Escape, []);
      ParseSnoc(lib, Ground, [0x1b], final);
      assert [0x1b] + [final] == Text(c);
    case Shift(code) =>
      ParseOne(lib, Ground, code);
  }

  /** Printing control functions and parsing the text gives their meanings back, in order. */
  lemma {:induction false} ParseTextAll(isUtf8: seq<Byte> -> bool, cs: seq<Control>)
    requires forall c :: c in cs ==> WellFormed(c)
    ensures Parse(AsLibrary(isUtf8), Ground, TextAll(cs)) == (Ground, MeaningAll(cs))
  {
    hide Text, Meaning, Step, AsLibrary, WellFormed;
    if cs == [] {
      assert TextAll(cs) == [] && MeaningAll(cs) == [];
      assert Parse(AsLibrary(isUtf8), Ground, []) == (Ground, []);
    } else {
      hide Parse, TextAll, MeaningAll;
      var front, last := cs[..|cs| - 1], cs[|cs| - 1];
      ParseTextAll(isUtf8, front);
      ParseControl(isUtf8, last);
      ParseBoth(isUtf8, TextAll(front), MeaningAll(front), Text(last), [Meaning(last)]);
      AllSnoc(front, last);
      assert front + [last] == cs;
    }
  }

  lemma AllSnoc(front: seq<Control>, last: Control)
    ensures TextAll(front + [last]) == TextAll(front) + Text(last)
    ensures MeaningAll(front + [last]) == MeaningAll(front) + [Meaning(last)]
  {
    hide Text;
    assert (front + [last])[..|front|] == front;
  }

  /** Two texts that each leave the lexer at rest, one after the other. */
  lemma ParseBoth(isUtf8: seq<Byte> -> bool, first: seq<Byte>, firstActions: seq<Action>,
                  second: seq<Byte>, secondActions: seq<Action>)
    requires Parse(AsLibrary(isUtf8), Ground, first) == (Ground, firstActions)
    requires Parse(AsLibrary(isUtf8), Ground, second) == (Ground, secondActions)
    ensures Parse(AsLibrary(isUtf8), Ground, first + second) == (Ground, firstActions + secondActions)
  {
    ParseConcat(AsLibrary(isUtf8), Ground, first, second);
    hide Parse, Step, AsLibrary;
  }
}
