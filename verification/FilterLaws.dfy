/**
 What the output filter makes of each kind of input, one after the other, and the text of its
 replies (crates/server/pty/src/terminal.rs).
 */
module FilterLaws {
  import opened Base
  import opened OutputFilter
  import opened Tracker
  import Ecma48

  /**
   A reply is one cursor position report: a terminal that reads it sees final `R`, the row and
   then the column, both counted from one.
   */
  lemma ReplyIsAReport(isUtf8: seq<Byte> -> bool, col: U16, row: U16)
    ensures Parse(Ecma48.AsLibrary(isUtf8), Ecma48.Ground, CursorPositionReport(col, row))
            == (Ecma48.Ground,
                [CsiDispatch([[if row < U16_MAX then row + 1 else U16_MAX], [if col < U16_MAX then col + 1 else U16_MAX]], [], 0x52)])
  {
    var c: Ecma48.Control := Ecma48.Sequence([], [SatAdd16(row, 1), SatAdd16(col, 1)], 0x52);
    ReportText(c, col, row);
    Ecma48.ParseControl(isUtf8, c);
    assert Ecma48.Singles([SatAdd16(row, 1), SatAdd16(col, 1)]) == [[SatAdd16(row, 1)], [SatAdd16(col, 1)]];
    hide Parse, Ecma48.Text, CursorPositionReport;
  }

  lemma ReportText(c: Ecma48.Control, col: U16, row: U16)
    requires c == Ecma48.Sequence([], [SatAdd16(row, 1), SatAdd16(col, 1)], 0x52)
    ensures Ecma48.Text(c) == CursorPositionReport(col, row)
  {
    var params := [SatAdd16(row, 1), SatAdd16(col, 1)];
    assert params[..1] == [params[0]];
    assert Ecma48.ParamText([params[0]]) == Ecma48.Decimal.Digits(params[0]);
    hide Ecma48.Decimal.Digits;
    assert [0x1b, 0x5b] + [] == [0x1b, 0x5b];
    var a, b := Ecma48.Decimal.Digits(params[0]), Ecma48.Decimal.Digits(params[1]);
    assert Ecma48.ParamText(params) == a + [0x3b] + b;
    assert [0x1b, 0x5b] + (a + [0x3b] + b) + [0x52] == [0x1b, 0x5b] + a + [0x3b] + b + [0x52];
  }

  /** Replies to several queries are so many reports. */
  lemma {:induction false} RepliesAddUp(s: seq<Byte>, a: nat, b: nat)
    ensures Repeat(s, 0) == [] && Repeat(s, 1) == s
    ensures Repeat(s, a + b) == Repeat(s, a) + Repeat(s, b)
    decreases b
  {
    assert Repeat(s, 0) + s == s;
    if b > 0 {
      RepliesAddUp(s, a, b - 1);
      assert Repeat(s, a) + Repeat(s, b - 1) + s == Repeat(s, a) + (Repeat(s, b - 1) + s);
    }
  }

  // ----- Each kind of input, in front of any other

  function Before(filtered: seq<Byte>, answered: nat, title: Option<seq<Byte>>, rest: Outcome): Outcome {
    Outcome(filtered + rest.filtered, rest.pending, answered + rest.answered,
            if rest.title.Some? then rest.title else title, rest.skip)
  }

  /** A byte that is not ESC is passed on. */
  lemma PlainByteIsPassedOn(isUtf8: seq<Byte> -> bool, b: Byte, rest: seq<Byte>, skip: bool)
    requires b != ESC
    ensures Scan(isUtf8, [b] + rest, skip) == Before([b], 0, None, Scan(isUtf8, rest, skip))
  {
    var input := [b] + rest;
    assert Decide(input) == Emit by {
      assert input[0] != CURSOR_POSITION_QUERY[0] && input[0] != WIN32_INPUT_MODE_PREFIX[0];
      assert input[0] != FOCUS_EVENT_MODE_PREFIX[0] && input[0] != OSC_PREFIX[0];
    }
    hide Decide;
    assert input[1..] == rest;
  }

  /** So is an ESC that begins none of the sequences the filter knows, whole or unfinished. */
  lemma OtherEscapeIsPassedOn(isUtf8: seq<Byte> -> bool, rest: seq<Byte>, skip: bool)
    requires !StartsSequence([ESC] + rest)
    ensures Scan(isUtf8, [ESC] + rest, skip) == Before([ESC], 0, None, Scan(isUtf8, rest, skip))
  {
    var input := [ESC] + rest;
    DecideIsGrammar(input);
    hide Decide, StartsSequence;
    assert input[1..] == rest;
  }

  /** A cursor query is cut out and answered once, unless its answer was to be skipped; only one is skipped. */
  lemma QueryIsAnswered(isUtf8: seq<Byte> -> bool, rest: seq<Byte>, skip: bool)
    requires rest != []
    ensures Scan(isUtf8, CURSOR_POSITION_QUERY + rest, skip)
            == Before([], if skip then 0 else 1, None, Scan(isUtf8, rest, false))
  {
    var input := CURSOR_POSITION_QUERY + rest;
    assert Decide(input) == Answer;
    hide Decide;
    assert input[4..] == rest;
  }

  /** A mode switch of either kind is cut out and leaves no trace. */
  lemma ModeSwitchIsStripped(isUtf8: seq<Byte> -> bool, switch: seq<Byte>, rest: seq<Byte>, skip: bool)
    requires IsModeSwitch(switch)
    ensures Scan(isUtf8, switch + rest, skip) == Before([], 0, None, Scan(isUtf8, rest, skip))
  {
    var input := switch + rest;
    SwitchDecision(switch, rest);
    hide Decide;
    assert input[8..] == rest;
  }

  lemma SwitchDecision(switch: seq<Byte>, rest: seq<Byte>)
    requires IsModeSwitch(switch)
    ensures Decide(switch + rest) == Strip(8)
  {
    var input := switch + rest;
    assert input[..7] == switch[..7] && input[7] == switch[7];
    assert input[2] == switch[..7][2] == 0x3f && input[3] == switch[..7][3];
  }

  /** A title is cut out; its text becomes the title if it is UTF-8 and no later title follows. */
  lemma TitleIsCaptured(isUtf8: seq<Byte> -> bool, selector: Byte, text: seq<Byte>, end: seq<Byte>, rest: seq<Byte>, skip: bool)
    requires selector == 0x30 || selector == 0x32
    requires end == [BEL] || end == [ESC, BACKSLASH]
    requires forall i :: 0 <= i < |text| ==> !TerminatorAt(text + end, i)
    ensures Scan(isUtf8, [0x1b, 0x5d, selector, 0x3b] + text + end + rest, skip)
            == Before([], 0, if isUtf8(text) then Some(text) else None, Scan(isUtf8, rest, skip))
  {
    var input := [0x1b, 0x5d, selector, 0x3b] + text + end + rest;
    TitleDecision(selector, text, end, rest);
    hide Decide;
    assert input[4 + |text| + |end|..] == rest;
  }

  lemma TitleDecision(selector: Byte, text: seq<Byte>, end: seq<Byte>, rest: seq<Byte>)
    requires selector == 0x30 || selector == 0x32
    requires end == [BEL] || end == [ESC, BACKSLASH]
    requires forall i :: 0 <= i < |text| ==> !TerminatorAt(text + end, i)
    ensures Decide([0x1b, 0x5d, selector, 0x3b] + text + end + rest) == Title(4 + |text| + |end|, text)
  {
    var input := [0x1b, 0x5d, selector, 0x3b] + text + end + rest;
    var body := text + end + rest;
    assert input[4..] == body && input[..2] == OSC_PREFIX;
    FirstTerminator(text, end, rest);
    assert body[..|text|] == text;
    assert input[1] != CURSOR_POSITION_QUERY[1] && input[1] != WIN32_INPUT_MODE_PREFIX[1];
    hide Terminator;
  }

  lemma FirstTerminator(text: seq<Byte>, end: seq<Byte>, rest: seq<Byte>)
    requires end == [BEL] || end == [ESC, BACKSLASH]
    requires forall i :: 0 <= i < |text| ==> !TerminatorAt(text + end, i)
    ensures Terminator(text + end + rest, 0) == Some((|text|, |end|))
  {
    var body := text + end + rest;
    forall i | 0 <= i < |text|
      ensures !TerminatorAt(body, i)
    {
      assert !TerminatorAt(text + end, i);
      assert body[i] == (text + end)[i] && body[i + 1] == (text + end)[i + 1];
    }
    assert body[|text|] == end[0];
    assert |end| > 1 ==> body[|text| + 1] == end[1];
    assert TerminatorAt(body, |text|);
  }

  /** An unfinished sequence at the end is held back, and nothing else happens. */
  lemma UnfinishedIsHeld(isUtf8: seq<Byte> -> bool, tail: seq<Byte>, skip: bool)
    requires tail != [] && Unfinished(tail)
    ensures Scan(isUtf8, tail, skip) == Outcome([], tail, 0, None, skip)
  {
    DecideIsGrammar(tail);
    hide Decide, Unfinished;
  }

  /** The read `ESC [ 6 n x`, with the cursor in the given place: one report is owed, and `x` is passed on. */
  method AnswerOneQuery(p: ServerOutputProcessor, col: U16, row: U16) returns (filtered: seq<Byte>, response: seq<Byte>)
    requires p.pending == [] && p.pendingResponse == [] && !p.skipNextCursorPositionResponse
    modifies p
    ensures filtered == [0x78] && p.pending == [] && p.pendingResponse == []
    ensures Parse(Ecma48.AsLibrary(p.isUtf8), Ecma48.Ground, response)
            == (Ecma48.Ground, [CsiDispatch([[SatAdd16(row, 1)], [SatAdd16(col, 1)]], [], 0x52)])
  {
    hide Scan, Decide, CursorPositionReport, Repeat, Parse;
    ghost var isUtf8 := p.isUtf8;
    QueryIsAnswered(isUtf8, [0x78], false);
    PlainByteIsPassedOn(isUtf8, 0x78, [], false);
    ScanStops(isUtf8, [], false);
    assert [0x78] + [] == [0x78];
    RepliesAddUp(CursorPositionReport(col, row), 0, 1);
    ReplyIsAReport(isUtf8, col, row);
    var read := CURSOR_POSITION_QUERY + [0x78];
    assert [] + read == read;
    filtered := p.Process(read, col, row);
    response := p.TakePendingResponse();
  }
}
