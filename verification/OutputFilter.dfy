/**
 The filter between the PTY and the scrollback ring (crates/server/pty/src/terminal.rs).
 It answers cursor-position queries, swallows ConPTY mode switches and window titles,
 and holds back a sequence that a read has cut in half.
 */
module OutputFilter {
  import opened Base
  import Decimal

  const ESC: Byte := 0x1b
  const BEL: Byte := 0x07
  const BACKSLASH: Byte := 0x5c
  const CURSOR_POSITION_QUERY: seq<Byte> := [0x1b, 0x5b, 0x36, 0x6e]
  const WIN32_INPUT_MODE_PREFIX: seq<Byte> := [0x1b, 0x5b, 0x3f, 0x39, 0x30, 0x30, 0x31]
  const FOCUS_EVENT_MODE_PREFIX: seq<Byte> := [0x1b, 0x5b, 0x3f, 0x31, 0x30, 0x30, 0x34]
  const OSC_PREFIX: seq<Byte> := [0x1b, 0x5d]

  // ----- Recognising one sequence at the head of the remaining input

  datatype SequenceMatch = NoMatch | Incomplete | Consumed(count: nat)

  predicate IsSetOrReset(b: Byte) {
    b == 0x68 || b == 0x6c
  }

  function SplitPrefixedControlSequence(bytes: seq<Byte>, prefix: seq<Byte>): SequenceMatch {
    if bytes <= prefix then Incomplete
    else if prefix <= bytes then
      if |bytes| == |prefix| then Incomplete
      else if IsSetOrReset(bytes[|prefix|]) then Consumed(|prefix| + 1)
      else NoMatch
    else NoMatch
  }

  /** A title ends with BEL, or with the two bytes of ST. */
  predicate TerminatorAt(bytes: seq<Byte>, i: nat)
    requires i < |bytes|
  {
    || bytes[i] == BEL
    || (bytes[i] == ESC && i + 1 < |bytes| && bytes[i + 1] == BACKSLASH)
  }

  /** The first terminator at or after `from`, with its length. */
  function Terminator(bytes: seq<Byte>, from: nat): (r: Option<(nat, nat)>)
    requires from <= |bytes|
    ensures r.None? <==> forall i :: from <= i < |bytes| ==> !TerminatorAt(bytes, i)
    ensures r.Some? ==>
              && from <= r.value.0 < |bytes|
              && TerminatorAt(bytes, r.value.0)
              && r.value.1 == (if bytes[r.value.0] == BEL then 1 else 2)
              && r.value.0 + r.value.1 <= |bytes|
              && forall i :: from <= i < r.value.0 ==> !TerminatorAt(bytes, i)
    decreases |bytes| - from
  {
    if from == |bytes| then None
    else if TerminatorAt(bytes, from) then Some((from, if bytes[from] == BEL then 1 else 2))
    else Terminator(bytes, from + 1)
  }

  method FindOscTerminator(bytes: seq<Byte>) returns (r: Option<(nat, nat)>)
    ensures r == Terminator(bytes, 0)
  {
    var index := 0;
    while index < |bytes|
      invariant 0 <= index <= |bytes|
      invariant Terminator(bytes, 0) == Terminator(bytes, index)
    {
      if bytes[index] == BEL {
        return Some((index, 1));
      } else if bytes[index] == ESC {
        if index + 1 < |bytes| && bytes[index + 1] == BACKSLASH {
          return Some((index, 2));
        }
        if index + 1 == |bytes| {
          return None;
        }
      }
      index := index + 1;
    }
    return None;
  }

  datatype TitleMatch = NoTitle | TitleIncomplete | TitleConsumed(count: nat, text: seq<Byte>)

  predicate IsTitleSelector(b: Byte) {
    b == 0x30 || b == 0x32
  }

  function SplitOscTitleSequence(bytes: seq<Byte>): TitleMatch {
    if bytes <= OSC_PREFIX then TitleIncomplete
    else if !(OSC_PREFIX <= bytes) then NoTitle
    else if |bytes| == 2 then TitleIncomplete
    else if !IsTitleSelector(bytes[2]) then NoTitle
    else if |bytes| == 3 then TitleIncomplete
    else if bytes[3] != 0x3b then NoTitle
    else
      match Terminator(bytes[4..], 0)
      case None => TitleIncomplete
      case Some((len, term)) => TitleConsumed(4 + len + term, bytes[4..][..len])
  }

  /** What one turn of the processing loop does with the remaining input. */
  datatype Decision =
    | Hold
    | Answer
    | Strip(count: nat)
    | Title(count: nat, text: seq<Byte>)
    | Emit
  {
    /** How many input bytes the turn uses up; a held-back tail uses none. */
    function Length(): nat {
      match this
      case Hold => 0
      case Answer => 4
      case Strip(count) => count
      case Title(count, _) => count
      case Emit => 1
    }
  }

  function Decide(remaining: seq<Byte>): (d: Decision)
    requires remaining != []
    ensures d.Length() <= |remaining|
    ensures !d.Hold? ==> d.Length() > 0
  {
    if remaining <= CURSOR_POSITION_QUERY then Hold
    else if CURSOR_POSITION_QUERY <= remaining then Answer
    else
      match SplitPrefixedControlSequence(remaining, WIN32_INPUT_MODE_PREFIX)
      case Consumed(n) => Strip(n)
      case Incomplete => Hold
      case NoMatch =>
        match SplitPrefixedControlSequence(remaining, FOCUS_EVENT_MODE_PREFIX)
        case Consumed(n) => Strip(n)
        case Incomplete => Hold
        case NoMatch =>
          match SplitOscTitleSequence(remaining)
          case TitleConsumed(n, text) => Title(n, text)
          case TitleIncomplete => Hold
          case NoTitle => Emit
  }

  // ----- The same decisions, from the grammar of the recognised sequences

  predicate IsModeSwitch(s: seq<Byte>) {
    && |s| == 8
    && (s[..7] == WIN32_INPUT_MODE_PREFIX || s[..7] == FOCUS_EVENT_MODE_PREFIX)
    && IsSetOrReset(s[7])
  }

  /** OSC 0 or 2, `;`, a text without terminators, one terminator, nothing after it. */
  predicate IsTitleSequence(s: seq<Byte>) {
    && |s| >= 5
    && s[..2] == OSC_PREFIX
    && IsTitleSelector(s[2])
    && s[3] == 0x3b
    && exists i :: 0 <= i < |s[4..]| && TerminatorAt(s[4..], i)
                   && 4 + i + (if s[4..][i] == BEL then 1 else 2) == |s|
                   && forall j :: 0 <= j < i ==> !TerminatorAt(s[4..], j)
  }

  predicate IsRecognised(s: seq<Byte>) {
    s == CURSOR_POSITION_QUERY || IsModeSwitch(s) || IsTitleSequence(s)
  }

  lemma TerminatorStable(a: seq<Byte>, b: seq<Byte>)
    requires Terminator(a, 0).Some?
    ensures Terminator(a + b, 0) == Terminator(a, 0)
  {
    var k := Terminator(a, 0).value.0;
    assert TerminatorAt(a + b, k);
    forall i | 0 <= i < k
      ensures !TerminatorAt(a + b, i)
    {
      assert !TerminatorAt(a, i);
    }
  }

  /** The key fact: a decision other than holding back is not changed by later bytes. */
  lemma DecideStable(a: seq<Byte>, b: seq<Byte>)
    requires a != [] && !Decide(a).Hold?
    ensures Decide(a + b) == Decide(a)
  {
    PrefixStable(a, b, CURSOR_POSITION_QUERY);
    if !Decide(a).Answer? {
      SplitStable(a, b, WIN32_INPUT_MODE_PREFIX);
      if SplitPrefixedControlSequence(a, WIN32_INPUT_MODE_PREFIX).NoMatch? {
        SplitStable(a, b, FOCUS_EVENT_MODE_PREFIX);
        if SplitPrefixedControlSequence(a, FOCUS_EVENT_MODE_PREFIX).NoMatch? {
          TitleStable(a, b);
        }
      }
    }
  }

  lemma PrefixStable(a: seq<Byte>, b: seq<Byte>, p: seq<Byte>)
    requires !(a <= p)
    ensures !(a + b <= p)
    ensures p <= a + b <==> p <= a
  {
    assert (a + b)[..|a|] == a;
    assert |p| <= |a| ==> (a + b)[..|p|] == a[..|p|];
    var k := Min(|a|, |p|);
    assert p[..k] == a[..k] ==> a <= p || p <= a;
    assert p <= a + b ==> (a + b)[..k] == p[..k];
  }

  lemma SplitStable(a: seq<Byte>, b: seq<Byte>, p: seq<Byte>)
    requires !SplitPrefixedControlSequence(a, p).Incomplete?
    ensures SplitPrefixedControlSequence(a + b, p) == SplitPrefixedControlSequence(a, p)
  {
    PrefixStable(a, b, p);
  }

  lemma TitleStable(a: seq<Byte>, b: seq<Byte>)
    requires !SplitOscTitleSequence(a).TitleIncomplete?
    ensures SplitOscTitleSequence(a + b) == SplitOscTitleSequence(a)
  {
    PrefixStable(a, b, OSC_PREFIX);
    if SplitOscTitleSequence(a).TitleConsumed? {
      TerminatorStable(a[4..], b);
      assert (a + b)[4..] == a[4..] + b;
    }
  }

  lemma DecideRecognised(s: seq<Byte>)
    requires IsRecognised(s)
    ensures if s == CURSOR_POSITION_QUERY then Decide(s) == Hold else Decide(s).Length() == |s| && !Decide(s).Emit?
  {
    if IsTitleSequence(s) {
      assert s[0] == OSC_PREFIX[0] && s[1] == OSC_PREFIX[1];
      assert !(s <= WIN32_INPUT_MODE_PREFIX) by { assert WIN32_INPUT_MODE_PREFIX[1] != s[1]; }
      assert !(s <= FOCUS_EVENT_MODE_PREFIX) by { assert FOCUS_EVENT_MODE_PREFIX[1] != s[1]; }
      assert !(s <= CURSOR_POSITION_QUERY) by { assert CURSOR_POSITION_QUERY[1] != s[1]; }
    } else if IsModeSwitch(s) {
      assert s[0..7][3] == s[3];
      assert s[2] == 0x3f by { assert s[..7][2] == s[2]; }
    }
  }

  /** Whatever the loop consumes (and does not emit) is exactly one recognised sequence. */
  lemma ConsumedIsRecognised(r: seq<Byte>)
    requires r != []
    requires !Decide(r).Hold? && !Decide(r).Emit?
    ensures IsRecognised(r[..Decide(r).Length()])
  {
    var n := Decide(r).Length();
    var s := r[..n];
    if Decide(r).Title? {
      assert s[4..] == r[4..][..n - 4];
      var i := Terminator(r[4..], 0).value.0;
      assert TerminatorAt(s[4..], i);
      forall j | 0 <= j < i
        ensures !TerminatorAt(s[4..], j)
      {
        assert !TerminatorAt(r[4..], j);
      }
    } else if Decide(r).Strip? {
      assert s[..7] == r[..7];
    }
  }

  /** Bytes that complete an incomplete sequence. */
  lemma HeldIsCompletable(r: seq<Byte>) returns (rest: seq<Byte>)
    requires r != [] && Decide(r).Hold?
    ensures IsRecognised(r + rest) && (rest != [] || r == CURSOR_POSITION_QUERY)
  {
    if r <= CURSOR_POSITION_QUERY {
      rest := CURSOR_POSITION_QUERY[|r|..];
      assert r + rest == CURSOR_POSITION_QUERY;
    } else if r <= WIN32_INPUT_MODE_PREFIX {
      rest := WIN32_INPUT_MODE_PREFIX[|r|..] + [0x68];
      assert (r + rest)[..7] == WIN32_INPUT_MODE_PREFIX;
    } else if r <= FOCUS_EVENT_MODE_PREFIX {
      rest := FOCUS_EVENT_MODE_PREFIX[|r|..] + [0x68];
      assert (r + rest)[..7] == FOCUS_EVENT_MODE_PREFIX;
    } else {
      rest := CompleteTitle(r);
    }
  }

  lemma CompleteTitle(r: seq<Byte>) returns (rest: seq<Byte>)
    requires r != [] && SplitOscTitleSequence(r).TitleIncomplete?
    ensures IsTitleSequence(r + rest) && rest != []
  {
    var full: seq<Byte> := [0x1b, 0x5d, 0x30, 0x3b];
    if |r| < 4 {
      rest := full[|r|..] + [BEL];
      var s := r + rest;
      assert s[4..] == [BEL];
      assert TerminatorAt(s[4..], 0);
      assert s[..2] == OSC_PREFIX;
    } else {
      rest := [BEL];
      var s := r + rest;
      var i := |r| - 4;
      assert s[4..] == r[4..] + rest;
      assert TerminatorAt(s[4..], i);
      assert s[4..][i] == BEL;
      forall j | 0 <= j < i
        ensures !TerminatorAt(s[4..], j)
      {
        assert !TerminatorAt(r[4..], j);
      }
      assert s[..2] == r[..2] == OSC_PREFIX;
    }
  }

  /**
   The loop against the grammar, in both directions: a tail is held back exactly when it
   can still grow into a recognised sequence (a complete query at the very end counts,
   because the source tests for a prefix of the query first), and a byte is passed on
   exactly when no recognised sequence starts there and none can.
   */
  lemma DecideMatchesGrammar(r: seq<Byte>)
    requires r != []
    ensures Decide(r).Hold? <==>
            exists rest :: IsRecognised(r + rest) && (rest != [] || r == CURSOR_POSITION_QUERY)
    ensures forall n :: 0 <= n <= |r| && IsRecognised(r[..n]) && r != CURSOR_POSITION_QUERY ==>
                          Decide(r).Length() == n && !Decide(r).Emit?
  {
    if Decide(r).Hold? {
      var rest := HeldIsCompletable(r);
    }
    forall rest | IsRecognised(r + rest) && (rest != [] || r == CURSOR_POSITION_QUERY)
      ensures Decide(r).Hold?
    {
      DecideRecognised(r + rest);
      if !Decide(r).Hold? {
        DecideStable(r, rest);
      }
    }
    forall n | 0 <= n <= |r| && IsRecognised(r[..n]) && r != CURSOR_POSITION_QUERY
      ensures Decide(r).Length() == n && !Decide(r).Emit?
    {
      var s := r[..n];
      assert s + r[n..] == r;
      DecideRecognised(s);
      if s == CURSOR_POSITION_QUERY {
        assert Decide(r) == Answer;
      } else {
        DecideStable(s, r[n..]);
      }
    }
  }

  // ----- The processor

  /** Everything a stretch of input produces. */
  datatype Outcome = Outcome(
    filtered: seq<Byte>,
    pending: seq<Byte>,
    answered: nat,
    title: Option<seq<Byte>>,
    skip: bool)

  function Later<T>(first: Option<T>, second: Option<T>): Option<T> {
    if second.Some? then second else first
  }

  /** One outcome followed by another. */
  function Then(x: Outcome, y: Outcome): Outcome {
    Outcome(x.filtered + y.filtered, y.pending, x.answered + y.answered, Later(x.title, y.title), y.skip)
  }

  lemma ThenIsAssociative(x: Outcome, y: Outcome, z: Outcome)
    ensures Then(Then(x, y), z) == Then(x, Then(y, z))
  {
    assert x.filtered + y.filtered + z.filtered == x.filtered + (y.filtered + z.filtered);
  }

  /** What a single decision contributes, before the rest of the input. */
  function Effect(isUtf8: seq<Byte> -> bool, d: Decision, head: Byte, skip: bool): Outcome
    requires !d.Hold?
  {
    match d
    case Answer => Outcome([], [], if skip then 0 else 1, None, false)
    case Strip(_) => Outcome([], [], 0, None, skip)
    case Title(_, text) => Outcome([], [], 0, if isUtf8(text) then Some(text) else None, skip)
    case Emit => Outcome([head], [], 0, None, skip)
  }

  /** The filter as one pass over a whole input. */
  function Scan(isUtf8: seq<Byte> -> bool, input: seq<Byte>, skip: bool): Outcome
    decreases |input|
  {
    if input == [] then Outcome([], [], 0, None, skip)
    else if Decide(input).Hold? then Outcome([], input, 0, None, skip)
    else
      var step := Effect(isUtf8, Decide(input), input[0], skip);
      Then(step, Scan(isUtf8, input[Decide(input).Length()..], step.skip))
  }

  /** One turn of the loop, seen from what has been produced so far. */
  lemma ScanStep(isUtf8: seq<Byte> -> bool, done: Outcome, remaining: seq<Byte>, skip: bool)
    requires remaining != [] && !Decide(remaining).Hold?
    ensures var d := Decide(remaining);
            var step := Effect(isUtf8, d, remaining[0], skip);
            Then(done, Scan(isUtf8, remaining, skip))
            == Then(Then(done, step), Scan(isUtf8, remaining[d.Length()..], step.skip))
  {
    hide Decide;
    var d := Decide(remaining);
    var step := Effect(isUtf8, d, remaining[0], skip);
    ThenIsAssociative(done, step, Scan(isUtf8, remaining[d.Length()..], step.skip));
  }

  lemma ScanStops(isUtf8: seq<Byte> -> bool, remaining: seq<Byte>, skip: bool)
    requires remaining == [] || Decide(remaining).Hold?
    ensures Scan(isUtf8, remaining, skip) == Outcome([], remaining, 0, None, skip)
  {
    hide Decide;
  }

  /** The reply to a cursor-position query: ESC [ row+1 ; col+1 R. */
  function CursorPositionReport(col: U16, row: U16): seq<Byte> {
    [0x1b, 0x5b] + Decimal.Digits(SatAdd16(row, 1)) + [0x3b] + Decimal.Digits(SatAdd16(col, 1)) + [0x52]
  }

  function Repeat(s: seq<Byte>, n: nat): seq<Byte> {
    if n == 0 then [] else Repeat(s, n - 1) + s
  }

  class ServerOutputProcessor {
    /** UTF-8 validation of a title, as the standard library does it. */
    const isUtf8: seq<Byte> -> bool
    var pending: seq<Byte>
    var pendingResponse: seq<Byte>
    var pendingTitle: Option<seq<Byte>>
    var skipNextCursorPositionResponse: bool

    constructor (isUtf8: seq<Byte> -> bool, skip: bool)
      ensures this.isUtf8 == isUtf8
      ensures pending == [] && pendingResponse == [] && pendingTitle == None
      ensures skipNextCursorPositionResponse == skip
    {
      this.isUtf8 := isUtf8;
      pending, pendingResponse, pendingTitle := [], [], None;
      skipNextCursorPositionResponse := skip;
    }

    method Process(bytes: seq<Byte>, col: U16, row: U16) returns (filtered: seq<Byte>)
      modifies this
      ensures var o := Scan(isUtf8, old(pending) + bytes, old(skipNextCursorPositionResponse));
              && filtered == o.filtered
              && pending == o.pending
              && skipNextCursorPositionResponse == o.skip
              && pendingTitle == Later(old(pendingTitle), o.title)
              && pendingResponse == old(pendingResponse) + Repeat(CursorPositionReport(col, row), o.answered)
    {
      hide Decide, Scan, CursorPositionReport;
      var input := pending + bytes;
      pending := [];
      filtered := [];
      var index := 0;
      ghost var answered, title := 0, None;
      assert input[0..] == input;
      ghost var whole := Scan(isUtf8, input, skipNextCursorPositionResponse);
      while index < |input|
        invariant 0 <= index <= |input|
        invariant pending == []
        invariant whole == Then(Outcome(filtered, [], answered, title, skipNextCursorPositionResponse),
                                Scan(isUtf8, input[index..], skipNextCursorPositionResponse))
        invariant pendingTitle == Later(old(pendingTitle), title)
        invariant pendingResponse == old(pendingResponse) + Repeat(CursorPositionReport(col, row), answered)
      {
        var remaining := input[index..];
        var decision := Decide(remaining);
        if decision.Hold? {
          ScanStops(isUtf8, remaining, skipNextCursorPositionResponse);
          pending := remaining;
          break;
        }
        assert input[index + decision.Length()..] == remaining[decision.Length()..];
        ghost var done := Outcome(filtered, [], answered, title, skipNextCursorPositionResponse);
        ghost var step := Effect(isUtf8, decision, input[index], skipNextCursorPositionResponse);
        ScanStep(isUtf8, done, remaining, skipNextCursorPositionResponse);
        match decision {
          case Answer =>
            if skipNextCursorPositionResponse {
              skipNextCursorPositionResponse := false;
            } else {
              pendingResponse := pendingResponse + CursorPositionReport(col, row);
              answered := answered + 1;
            }
          case Strip(_) =>
          case Title(_, text) =>
            if isUtf8(text) {
              pendingTitle := Some(text);
              title := Some(text);
            }
          case Emit =>
            filtered := filtered + [input[index]];
        }
        index := index + decision.Length();
        assert Outcome(filtered, [], answered, title, skipNextCursorPositionResponse) == Then(done, step);
      }
      if index == |input| {
        ScanStops(isUtf8, input[index..], skipNextCursorPositionResponse);
      }
    }

    method TakePendingResponse() returns (response: seq<Byte>)
      modifies this`pendingResponse
      ensures response == old(pendingResponse) && pendingResponse == []
    {
      response := pendingResponse;
      pendingResponse := [];
    }

    method TakePendingTitle() returns (title: Option<seq<Byte>>)
      modifies this`pendingTitle
      ensures title == old(pendingTitle) && pendingTitle == None
    {
      title := pendingTitle;
      pendingTitle := None;
    }
  }

  // ----- Independence of read boundaries

  lemma {:induction false} ScanAppend(isUtf8: seq<Byte> -> bool, a: seq<Byte>, b: seq<Byte>, skip: bool)
    ensures var x := Scan(isUtf8, a, skip);
            Scan(isUtf8, a + b, skip) == Then(x, Scan(isUtf8, x.pending + b, x.skip))
    decreases |a|
  {
    hide Decide;
    if a == [] {
      assert a + b == b;
    } else if !Decide(a).Hold? {
      DecideStable(a, b);
      var n := Decide(a).Length();
      var step := Effect(isUtf8, Decide(a), a[0], skip);
      var x := Scan(isUtf8, a[n..], step.skip);
      var y := Scan(isUtf8, x.pending + b, x.skip);
      assert (a + b)[n..] == a[n..] + b;
      calc {
        Scan(isUtf8, a + b, skip);
        Then(step, Scan(isUtf8, a[n..] + b, step.skip));
        { ScanAppend(isUtf8, a[n..], b, step.skip); }
        Then(step, Then(x, y));
        { ThenIsAssociative(step, x, y); }
        Then(Then(step, x), y);
      }
    }
  }

  /** A run of the reader: each read is filtered behind what the previous one held back. */
  function Reads(isUtf8: seq<Byte> -> bool, chunks: seq<seq<Byte>>, skip: bool): Outcome {
    if chunks == [] then Outcome([], [], 0, None, skip)
    else
      var x := Reads(isUtf8, chunks[..|chunks| - 1], skip);
      Then(x, Scan(isUtf8, x.pending + chunks[|chunks| - 1], x.skip))
  }

  /**
   However a byte stream is cut into reads, the bytes passed on, the bytes still held back,
   the number of queries answered, the last title and the skip flag are those of one read of
   the whole stream. Nothing is assumed about the cursor, so it may move between reads.
   */
  lemma {:induction false} ReadBoundariesDoNotMatter(isUtf8: seq<Byte> -> bool, chunks: seq<seq<Byte>>, skip: bool)
    ensures Reads(isUtf8, chunks, skip) == Scan(isUtf8, Flatten(chunks), skip)
  {
    if chunks != [] {
      var front, last := chunks[..|chunks| - 1], chunks[|chunks| - 1];
      ReadBoundariesDoNotMatter(isUtf8, front, skip);
      FlattenSnoc(front, last);
      assert chunks == front + [last];
      ScanAppend(isUtf8, Flatten(front), last, skip);
    }
  }

  /** Output without control sequences passes through untouched and at once. */
  lemma {:induction false} PlainOutputIsTransparent(isUtf8: seq<Byte> -> bool, input: seq<Byte>, skip: bool)
    requires ESC !in input
    ensures Scan(isUtf8, input, skip) == Outcome(input, [], 0, None, skip)
    decreases |input|
  {
    if input != [] {
      assert input[0] != ESC;
      assert Decide(input) == Emit by {
        assert input[0] != CURSOR_POSITION_QUERY[0];
        assert input[0] != WIN32_INPUT_MODE_PREFIX[0];
        assert input[0] != FOCUS_EVENT_MODE_PREFIX[0];
        assert input[0] != OSC_PREFIX[0];
      }
      PlainOutputIsTransparent(isUtf8, input[1..], skip);
      assert [input[0]] + input[1..] == input;
    }
  }

  // ----- When filtering changes nothing, and when filtering twice is filtering once

  /** The start of a recognised sequence that later bytes can complete. */
  ghost predicate Unfinished(r: seq<Byte>) {
    exists rest :: IsRecognised(r + rest) && (rest != [] || r == CURSOR_POSITION_QUERY)
  }

  /** A recognised sequence starts here, whole or unfinished. */
  ghost predicate StartsSequence(r: seq<Byte>) {
    Unfinished(r) || exists n :: 0 <= n <= |r| && IsRecognised(r[..n])
  }

  lemma DecideIsGrammar(r: seq<Byte>)
    requires r != []
    ensures Decide(r).Hold? <==> Unfinished(r)
    ensures Decide(r).Emit? <==> !StartsSequence(r)
  {
    DecideMatchesGrammar(r);
    hide Decide, IsRecognised;
    if !Decide(r).Hold? && !Decide(r).Emit? {
      ConsumedIsRecognised(r);
    }
    if StartsSequence(r) && !Unfinished(r) {
      var n :| 0 <= n <= |r| && IsRecognised(r[..n]);
      assert r[..n] + r[n..] == r;
    }
  }

  /** The bytes that are passed on. */
  function Emitted(input: seq<Byte>): seq<Byte>
    decreases |input|
  {
    if input == [] || Decide(input).Hold? then []
    else (if Decide(input).Emit? then [input[0]] else []) + Emitted(input[Decide(input).Length()..])
  }

  lemma {:induction false} FilteredIsEmitted(isUtf8: seq<Byte> -> bool, input: seq<Byte>, skip: bool)
    ensures Scan(isUtf8, input, skip).filtered == Emitted(input)
    decreases |input|
  {
    hide Decide;
    if input != [] && !Decide(input).Hold? {
      FilteredIsEmitted(isUtf8, input[Decide(input).Length()..], Effect(isUtf8, Decide(input), input[0], skip).skip);
    }
  }

  /** No recognised sequence starts anywhere, and none is left unfinished at the end. */
  ghost predicate Clean(y: seq<Byte>) {
    forall i :: 0 <= i < |y| ==> !StartsSequence(y[i..])
  }

  lemma {:induction false} EmittedIsShorter(y: seq<Byte>)
    ensures |Emitted(y)| <= |y|
    decreases |y|
  {
    hide Decide;
    if y != [] && !Decide(y).Hold? {
      EmittedIsShorter(y[Decide(y).Length()..]);
    }
  }

  /** The fixpoints of the filter are exactly the outputs free of its grammar. */
  lemma {:induction false} FixpointsAreClean(isUtf8: seq<Byte> -> bool, y: seq<Byte>, skip: bool)
    ensures Scan(isUtf8, y, skip).filtered == y <==> Clean(y)
    decreases |y|
  {
    FilteredIsEmitted(isUtf8, y, skip);
    if y != [] {
      DecideIsGrammar(y);
      hide Decide, StartsSequence, Unfinished, Scan;
      assert y[0..] == y;
      var n := Decide(y).Length();
      EmittedIsShorter(y[n..]);
      if Decide(y).Emit? {
        FilteredIsEmitted(isUtf8, y[1..], skip);
        FixpointsAreClean(isUtf8, y[1..], skip);
        CleanStep(y);
        assert [y[0]] + Emitted(y[1..]) == y <==> Emitted(y[1..]) == y[1..];
      } else {
        assert !StartsSequence(y) ==> false;
        assert |Emitted(y)| < |y|;
      }
    }
  }

  lemma CleanStep(y: seq<Byte>)
    requires y != []
    ensures Clean(y) <==> !StartsSequence(y) && Clean(y[1..])
  {
    hide StartsSequence;
    assert y[0..] == y;
    forall i | 0 <= i < |y| - 1
      ensures y[1..][i..] == y[i + 1..]
    {
    }
    if Clean(y) {
      forall i | 0 <= i < |y[1..]|
        ensures !StartsSequence(y[1..][i..])
      {
        assert !StartsSequence(y[i + 1..]);
      }
    }
    if !StartsSequence(y) && Clean(y[1..]) {
      forall i | 0 <= i < |y|
        ensures !StartsSequence(y[i..])
      {
        if i > 0 {
          assert !StartsSequence(y[1..][i - 1..]);
        }
      }
    }
  }

  /** How many bytes in a row are passed on at the head of the input. */
  function Stretch(input: seq<Byte>): (n: nat)
    ensures n <= |input|
    ensures forall i :: 0 <= i < n ==> Decide(input[i..]).Emit?
    ensures n < |input| ==> !Decide(input[n..]).Emit?
    decreases |input|
  {
    if input == [] || !Decide(input).Emit? then (assert input[0..] == input; 0)
    else
      var n := Stretch(input[1..]);
      assert forall i :: 0 < i <= n ==> input[i..] == input[1..][i - 1..];
      assert n + 1 < |input| ==> input[n + 1..] == input[1..][n..];
      assert input[0..] == input;
      n + 1
  }

  /** No more than this many bytes after a cut decide whether something joins up across it. */
  const LOOK_AHEAD: nat := 7

  /** At most the first `k` bytes that are passed on. */
  function FirstEmitted(input: seq<Byte>, k: nat): (r: seq<Byte>)
    ensures |r| <= k
    decreases |input|
  {
    if k == 0 || input == [] || Decide(input).Hold? then []
    else if Decide(input).Emit? then [input[0]] + FirstEmitted(input[1..], k - 1)
    else FirstEmitted(input[Decide(input).Length()..], k)
  }

  lemma {:induction false} FirstEmittedIsPrefix(input: seq<Byte>, k: nat)
    ensures FirstEmitted(input, k) == Emitted(input)[..Min(k, |Emitted(input)|)]
    decreases |input|
  {
    hide Decide;
    if k > 0 && input != [] && !Decide(input).Hold? {
      FirstEmittedIsPrefix(input[Decide(input).Length()..], if Decide(input).Emit? then k - 1 else k);
    }
  }

  /** What more than seven bytes leave unfinished is a title, and stays one. */
  lemma LongHoldIsTitle(r: seq<Byte>, more: seq<Byte>)
    requires |r| > LOOK_AHEAD && Decide(r).Hold?
    ensures !Decide(r + more).Emit?
  {
    assert !(r <= CURSOR_POSITION_QUERY) && !(r <= WIN32_INPUT_MODE_PREFIX) && !(r <= FOCUS_EVENT_MODE_PREFIX);
    assert SplitOscTitleSequence(r).TitleIncomplete?;
    assert r[..2] == OSC_PREFIX;
    assert (r + more)[..2] == r[..2] && (r + more)[2] == r[2] && (r + more)[3] == r[3];
    assert !SplitOscTitleSequence(r + more).NoTitle?;
  }

  lemma SevenBytesDecide(before: seq<Byte>, after: seq<Byte>)
    requires before != []
    ensures StartsSequence(before + after) <==> StartsSequence(before + after[..Min(LOOK_AHEAD, |after|)])
  {
    if |after| <= LOOK_AHEAD {
      assert after[..|after|] == after;
    } else {
      var near, far := before + after[..LOOK_AHEAD], after[LOOK_AHEAD..];
      assert near + far == before + after;
      DecideIsGrammar(near);
      DecideIsGrammar(near + far);
      if Decide(near).Hold? {
        LongHoldIsTitle(near, far);
      } else {
        DecideStable(near, far);
      }
    }
  }

  lemma JoinsNearby(before: seq<Byte>, input: seq<Byte>)
    requires before != []
    ensures Joins(before, Emitted(input)) <==> Joins(before, FirstEmitted(input, LOOK_AHEAD))
  {
    SevenBytesDecide(before, Emitted(input));
    FirstEmittedIsPrefix(input, LOOK_AHEAD);
    hide Emitted, FirstEmitted, Unfinished, StartsSequence;
  }

  /** An unfinished sequence before a cut that goes on, or is completed, with what is passed on after it. */
  ghost predicate Joins(before: seq<Byte>, after: seq<Byte>) {
    Unfinished(before) && StartsSequence(before + after)
  }

  /**
   At every place where the filter cuts something out of the input or holds its tail back,
   nothing left standing before the cut joins up with the first seven bytes passed on after it.
   */
  ghost predicate NothingJoins(input: seq<Byte>)
    decreases |input|
  {
    if input == [] || Decide(input).Hold? then true
    else if Decide(input).Emit? then
      var n := Stretch(input);
      assert input[0..] == input;
      && (forall i :: 0 <= i < n ==> !Joins(input[i..n], FirstEmitted(input[n..], LOOK_AHEAD)))
      && NothingJoins(input[n..])
    else NothingJoins(input[Decide(input).Length()..])
  }

  /** Filtering what has been filtered changes nothing if and only if nothing joins across a cut. */
  lemma FilteringTwiceIff(isUtf8: seq<Byte> -> bool, input: seq<Byte>, skip: bool, again: bool)
    ensures var once := Scan(isUtf8, input, skip).filtered;
            Scan(isUtf8, once, again).filtered == once <==> NothingJoins(input)
  {
    FilteredIsEmitted(isUtf8, input, skip);
    FixpointsAreClean(isUtf8, Emitted(input), again);
    CleanIff(input);
  }

  lemma {:induction false} CleanIff(input: seq<Byte>)
    ensures Clean(Emitted(input)) <==> NothingJoins(input)
    decreases |input|
  {
    if input != [] && !Decide(input).Hold? {
      if Decide(input).Emit? {
        var n := Stretch(input);
        assert n > 0 by { assert input[0..] == input; }
        EmittedStretch(input, n);
        CleanIff(input[n..]);
        var rest := Emitted(input[n..]);
        CleanConcat(input[..n], rest);
        hide Decide, StartsSequence, Unfinished, Emitted;
        forall i | 0 <= i < n
          ensures !StartsSequence(input[..n][i..] + rest) <==> !Joins(input[i..n], FirstEmitted(input[n..], LOOK_AHEAD))
        {
          StretchJoins(input, n, i, rest);
          JoinsNearby(input[i..n], input[n..]);
        }
      } else {
        hide Decide, Clean;
        CleanIff(input[Decide(input).Length()..]);
        assert Emitted(input) == Emitted(input[Decide(input).Length()..]);
      }
    }
  }

  /** A byte that was passed on is swallowed the second time only if its stretch ends in an unfinished sequence. */
  lemma StretchJoins(input: seq<Byte>, n: nat, i: nat, rest: seq<Byte>)
    requires i < n <= |input| && Decide(input[i..]).Emit?
    ensures input[..n][i..] == input[i..n]
    ensures StartsSequence(input[i..n] + rest) <==> Joins(input[i..n], rest)
  {
    var u := input[i..n];
    assert input[i..] == u + input[n..];
    if !Decide(u).Hold? {
      DecideStable(u, input[n..]);
      DecideStable(u, rest);
    }
    hide Decide, StartsSequence, Unfinished;
    DecideIsGrammar(u);
    DecideIsGrammar(u + rest);
  }

  lemma {:induction false} EmittedStretch(input: seq<Byte>, n: nat)
    requires n <= |input| && forall i :: 0 <= i < n ==> Decide(input[i..]).Emit?
    ensures Emitted(input) == input[..n] + Emitted(input[n..])
    decreases n
  {
    hide Decide;
    assert input[0..] == input;
    if n > 0 {
      forall i | 0 <= i < n - 1
        ensures Decide(input[1..][i..]).Emit?
      {
        assert input[1..][i..] == input[i + 1..];
      }
      EmittedStretch(input[1..], n - 1);
      assert input[1..][n - 1..] == input[n..];
      assert input[..n] == [input[0]] + input[1..][..n - 1];
    }
  }

  lemma {:induction false} CleanConcat(a: seq<Byte>, b: seq<Byte>)
    ensures Clean(a + b) <==> Clean(b) && forall i :: 0 <= i < |a| ==> !StartsSequence(a[i..] + b)
  {
    hide StartsSequence;
    forall i | 0 <= i < |a|
      ensures (a + b)[i..] == a[i..] + b
    {
    }
    forall i | 0 <= i < |b|
      ensures b[i..] == (a + b)[|a| + i..]
    {
    }
    if Clean(a + b) {
      forall i | 0 <= i < |b| ensures !StartsSequence(b[i..]) {
        assert !StartsSequence((a + b)[|a| + i..]);
      }
      forall i | 0 <= i < |a| ensures !StartsSequence(a[i..] + b) {
        assert !StartsSequence((a + b)[i..]);
      }
    }
    if Clean(b) && forall i :: 0 <= i < |a| ==> !StartsSequence(a[i..] + b) {
      forall i | 0 <= i < |a + b| ensures !StartsSequence((a + b)[i..]) {
        if i >= |a| {
          assert !StartsSequence(b[i - |a|..]);
        }
      }
    }
  }

  /** What stands before a cut is short: at most seven bytes of a fixed sequence, never a title's text. */
  lemma OnlyShortRemainders(before: seq<Byte>, cut: seq<Byte>)
    requires before != [] && cut != [] && Unfinished(before)
    requires Decide(before + cut).Emit?
    ensures before <= CURSOR_POSITION_QUERY[..3] || before <= WIN32_INPUT_MODE_PREFIX || before <= FOCUS_EVENT_MODE_PREFIX
            || before <= [0x1b, 0x5d, 0x30] || before <= [0x1b, 0x5d, 0x32]
    ensures |before| <= 7
  {
    DecideIsGrammar(before);
    hide Unfinished, IsRecognised;
    var r := before + cut;
    assert r[..|before|] == before;
    assert !(CURSOR_POSITION_QUERY <= r);
    if |before| >= 3 && before[..2] == OSC_PREFIX {
      assert r[2] == before[2];
      assert |before| >= 4 ==> r[3] == before[3];
      assert OSC_PREFIX <= r;
    }
  }

  /** A query between ESC and `[6n`: once it is cut out, the two are a query. */
  lemma FilterIsNotIdempotent(isUtf8: seq<Byte> -> bool) returns (input: seq<Byte>)
    ensures input == [ESC] + (CURSOR_POSITION_QUERY + [0x5b, 0x36, 0x6e])
    ensures var once := Scan(isUtf8, input, false).filtered;
            once == CURSOR_POSITION_QUERY && Scan(isUtf8, once, false).filtered == []
  {
    hide Scan, Decide;
    var tail: seq<Byte> := [0x5b, 0x36, 0x6e];
    input := [ESC] + (CURSOR_POSITION_QUERY + tail);
    PlainOutputIsTransparent(isUtf8, tail, false);
    QueryThen(isUtf8, tail);
    EscapeThen(isUtf8, CURSOR_POSITION_QUERY + tail);
    LoneQueryIsHeld(isUtf8);
  }

  /** Two ESC: the second is held back, and alone the first is held back too. */
  lemma HoldingJoins(isUtf8: seq<Byte> -> bool)
    ensures Scan(isUtf8, [ESC, ESC], false).filtered == [ESC] && Scan(isUtf8, [ESC], false).filtered == []
  {
    assert Decide([ESC]) == Hold;
    hide Decide;
    assert [ESC] + [ESC] == [ESC, ESC];
    EscapeThen(isUtf8, [ESC]);
  }

  lemma LoneQueryIsHeld(isUtf8: seq<Byte> -> bool)
    ensures Scan(isUtf8, CURSOR_POSITION_QUERY, false) == Outcome([], CURSOR_POSITION_QUERY, 0, None, false)
  {
    assert Decide(CURSOR_POSITION_QUERY) == Hold;
  }

  lemma QueryThen(isUtf8: seq<Byte> -> bool, tail: seq<Byte>)
    requires tail != []
    ensures Scan(isUtf8, CURSOR_POSITION_QUERY + tail, false).filtered == Scan(isUtf8, tail, false).filtered
  {
    var input := CURSOR_POSITION_QUERY + tail;
    assert Decide(input) == Answer;
    hide Decide;
    assert input[4..] == tail;
  }

  lemma EscapeThen(isUtf8: seq<Byte> -> bool, rest: seq<Byte>)
    requires rest != [] && rest[0] == ESC
    ensures Scan(isUtf8, [ESC] + rest, false).filtered == [ESC] + Scan(isUtf8, rest, false).filtered
  {
    hide Decide;
    var input := [ESC] + rest;
    assert input[1..] == rest;
    DoubleEscape(input);
  }

  lemma DoubleEscape(input: seq<Byte>)
    requires |input| >= 2 && input[0] == input[1] == ESC
    ensures Decide(input) == Emit
  {
  }
}
