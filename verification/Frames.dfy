/**
 Live output frames: pieces of the output, each carrying the sequence number just past its
 last byte (crates/server/daemon-core/src/connection.rs, `live_output_frames`).
 */
module Frames {
  import opened Base

  const OUTPUT_CHUNK_BYTES: nat := 16 * 1024
  const OPEN_TERMINAL_MAX_BYTES: nat := 48 * 1024

  /** What the reader broadcasts after each push. */
  datatype Chunk = Chunk(seqAtEnd: nat, bytes: seq<Byte>)

  datatype Frame = Frame(seqNo: nat, bytes: seq<Byte>)
  {
    function Start(): int {
      seqNo - |bytes|
    }
  }

  /** A stretch of output cut into frames; `start` is the sequence number of its first byte. */
  function Cut(start: nat, bytes: seq<Byte>): seq<Frame>
    decreases |bytes|
  {
    if bytes == [] then []
    else
      var n := Min(OUTPUT_CHUNK_BYTES, |bytes|);
      [Frame(start + n, bytes[..n])] + Cut(start + n, bytes[n..])
  }

  lemma CutStep(start: nat, bytes: seq<Byte>)
    requires bytes != []
    ensures var n := Min(OUTPUT_CHUNK_BYTES, |bytes|);
            n > 0 && Cut(start, bytes) == [Frame(start + n, bytes[..n])] + Cut(start + n, bytes[n..])
  {
  }

  lemma CutNothing(start: nat)
    ensures Cut(start, []) == []
  {
  }

  /** The frames of a broadcast chunk; a chunk longer than its own sequence number has none. */
  function LiveFrames(c: Chunk): Option<seq<Frame>> {
    if c.bytes == [] then Some([])
    else if |c.bytes| > c.seqAtEnd then None
    else Some(Cut(c.seqAtEnd - |c.bytes|, c.bytes))
  }

  method LiveOutputFrames(c: Chunk) returns (r: Option<seq<Frame>>)
    ensures r == LiveFrames(c)
  {
    LiveFramesOf(c);
    hide Cut, LiveFrames;
    var total := |c.bytes|;
    if total == 0 {
      return Some([]);
    }
    if total > c.seqAtEnd {
      return None;
    }
    var start := c.seqAtEnd - total;
    var frames := [];
    var sent := 0;
    assert frames + Cut(start, c.bytes) == Cut(start, c.bytes) && c.bytes[sent..] == c.bytes;
    while sent < total
      invariant 0 <= sent <= total
      invariant frames + Cut(start + sent, c.bytes[sent..]) == Cut(start, c.bytes)
    {
      CutTurn(frames, start + sent, c.bytes, sent);
      var piece := c.bytes[sent..][..Min(OUTPUT_CHUNK_BYTES, |c.bytes| - sent)];
      frames := frames + [Frame(start + sent + |piece|, piece)];
      sent := sent + |piece|;
    }
    CutNothing(start + sent);
    assert c.bytes[sent..] == [] && frames + [] == frames;
    return Some(frames);
  }

  lemma LiveFramesOf(c: Chunk)
    ensures LiveFrames(c) == if c.bytes == [] then Some([])
                             else if |c.bytes| > c.seqAtEnd then None
                             else Some(Cut(c.seqAtEnd - |c.bytes|, c.bytes))
  {
  }

  /** One turn of the loop moves one piece from what is left to what is cut. */
  lemma CutTurn(frames: seq<Frame>, at: nat, bytes: seq<Byte>, sent: nat)
    requires sent < |bytes|
    ensures var piece := bytes[sent..][..Min(OUTPUT_CHUNK_BYTES, |bytes| - sent)];
            && piece != [] && sent + |piece| <= |bytes|
            && frames + [Frame(at + |piece|, piece)] + Cut(at + |piece|, bytes[sent + |piece|..])
               == frames + Cut(at, bytes[sent..])
  {
    var remaining := bytes[sent..];
    CutStep(at, remaining);
    hide Cut;
    var n := Min(OUTPUT_CHUNK_BYTES, |remaining|);
    assert remaining[n..] == bytes[sent + n..];
    var rest := Cut(at + n, bytes[sent + n..]);
    assert frames + ([Frame(at + n, remaining[..n])] + rest) == frames + [Frame(at + n, remaining[..n])] + rest;
  }

  // ----- Frames as slices of a history

  /** Non-empty slices of the history, in order and without overlap, none before `from`. */
  predicate Slices(history: seq<Byte>, frames: seq<Frame>, from: nat)
    decreases |frames|
  {
    frames == [] ||
    var f := frames[0];
    && f.bytes != [] && from <= f.Start() && f.seqNo <= |history|
    && f.bytes == history[f.Start()..f.seqNo]
    && Slices(history, frames[1..], f.seqNo)
  }

  /** Each frame starts where the one before it ended. */
  predicate Gapless(frames: seq<Frame>, from: nat)
    decreases |frames|
  {
    frames == [] || (frames[0].Start() == from && Gapless(frames[1..], frames[0].seqNo))
  }

  /** The sequence number after the last frame. */
  function End(frames: seq<Frame>, from: nat): nat {
    if frames == [] then from else frames[|frames| - 1].seqNo
  }

  /** No frame has bytes on both sides of `cut`. */
  predicate NoStraddle(frames: seq<Frame>, cut: nat) {
    forall i :: 0 <= i < |frames| ==> frames[i].seqNo <= cut || cut <= frames[i].Start()
  }

  /** The bytes of the frames that end after `cut`. */
  function BytesAfter(frames: seq<Frame>, cut: nat): seq<Byte> {
    if frames == [] then []
    else
      var front := BytesAfter(frames[..|frames| - 1], cut);
      var last := frames[|frames| - 1];
      if last.seqNo > cut then front + last.bytes else front
  }

  lemma {:induction false} SlicesSplit(history: seq<Byte>, a: seq<Frame>, b: seq<Frame>, from: nat)
    ensures Slices(history, a + b, from) <==> Slices(history, a, from) && Slices(history, b, End(a, from))
    decreases |a|
  {
    if a == [] {
      assert a + b == b;
    } else {
      assert (a + b)[1..] == a[1..] + b;
      SlicesSplit(history, a[1..], b, a[0].seqNo);
      assert End(a, from) == End(a[1..], a[0].seqNo);
    }
  }

  lemma {:induction false} GaplessSplit(a: seq<Frame>, b: seq<Frame>, from: nat)
    ensures Gapless(a + b, from) <==> Gapless(a, from) && Gapless(b, End(a, from))
    decreases |a|
  {
    if a == [] {
      assert a + b == b;
    } else {
      assert (a + b)[1..] == a[1..] + b;
      GaplessSplit(a[1..], b, a[0].seqNo);
      assert End(a, from) == End(a[1..], a[0].seqNo);
    }
  }

  lemma {:induction false} SlicesGrow(history: seq<Byte>, more: seq<Byte>, frames: seq<Frame>, from: nat)
    requires Slices(history, frames, from)
    ensures Slices(history + more, frames, from)
    decreases |frames|
  {
    if frames != [] {
      var f := frames[0];
      SlicesGrow(history, more, frames[1..], f.seqNo);
      assert (history + more)[f.Start()..f.seqNo] == history[f.Start()..f.seqNo];
    }
  }

  lemma {:induction false} SlicesFromEarlier(history: seq<Byte>, frames: seq<Frame>, from: nat, earlier: nat)
    requires Slices(history, frames, from) && earlier <= from
    ensures Slices(history, frames, earlier)
  {
  }

  lemma {:induction false} SlicesEnd(history: seq<Byte>, frames: seq<Frame>, from: nat)
    requires Slices(history, frames, from) && from <= |history|
    ensures from <= End(frames, from) <= |history|
    decreases |frames|
  {
    if frames != [] {
      SlicesEnd(history, frames[1..], frames[0].seqNo);
    }
  }

  /** Every piece of a cut chunk is a slice, the pieces follow each other, and they end with it. */
  lemma {:induction false} CutIsExact(history: seq<Byte>, start: nat, bytes: seq<Byte>)
    requires start + |bytes| <= |history| && bytes == history[start..start + |bytes|]
    ensures Slices(history, Cut(start, bytes), start)
    ensures Gapless(Cut(start, bytes), start)
    ensures End(Cut(start, bytes), start) == start + |bytes|
    decreases |bytes|
  {
    if bytes != [] {
      var n := Min(OUTPUT_CHUNK_BYTES, |bytes|);
      var rest := Cut(start + n, bytes[n..]);
      assert bytes[..n] == history[start..start + n];
      assert bytes[n..] == history[start + n..start + |bytes|];
      CutIsExact(history, start + n, bytes[n..]);
      assert Cut(start, bytes)[1..] == rest;
    }
  }

  /** Frames that start at or after `cut`, or end at or before it, do not straddle it. */
  lemma {:induction false} SlicesWithin(history: seq<Byte>, frames: seq<Frame>, from: nat, i: nat)
    requires Slices(history, frames, from) && i < |frames|
    ensures from <= frames[i].Start() && frames[i].seqNo <= End(frames, from)
    ensures frames[i].bytes != []
    decreases |frames|
  {
    if i > 0 {
      SlicesWithin(history, frames[1..], frames[0].seqNo, i - 1);
      assert frames[1..][i - 1] == frames[i];
    } else if |frames| > 1 {
      SlicesWithin(history, frames[1..], frames[0].seqNo, |frames| - 2);
    }
  }

  lemma StraddleSplit(a: seq<Frame>, b: seq<Frame>, cut: nat)
    ensures NoStraddle(a + b, cut) <==> NoStraddle(a, cut) && NoStraddle(b, cut)
  {
    if NoStraddle(a + b, cut) {
      forall i | 0 <= i < |a|
        ensures a[i].seqNo <= cut || cut <= a[i].Start()
      {
        assert (a + b)[i] == a[i];
      }
      forall i | 0 <= i < |b|
        ensures b[i].seqNo <= cut || cut <= b[i].Start()
      {
        assert (a + b)[|a| + i] == b[i];
      }
    }
  }

  /**
   The frames past a cut are exactly the history past it: with no gap and no straddling
   frame, nothing is missing and nothing comes twice.
   */
  lemma {:induction false} BytesAfterCut(history: seq<Byte>, frames: seq<Frame>, from: nat, cut: nat)
    requires Slices(history, frames, from) && Gapless(frames, from) && NoStraddle(frames, cut)
    requires from <= cut <= |history|
    ensures from <= End(frames, from) <= |history|
    ensures BytesAfter(frames, cut) == history[cut..Max(cut, End(frames, from))]
    decreases |frames|
  {
    SlicesEnd(history, frames, from);
    if frames != [] {
      var front, last := frames[..|frames| - 1], frames[|frames| - 1];
      assert frames == front + [last];
      StraddleSplit(front, [last], cut);
      SlicesSplit(history, front, [last], from);
      GaplessSplit(front, [last], from);
      BytesAfterCut(history, front, from, cut);
      hide Slices, Gapless;
      OneMore(history, last, End(front, from), cut);
    }
  }

  lemma OneMore(history: seq<Byte>, last: Frame, mid: nat, cut: nat)
    requires Slices(history, [last], mid) && Gapless([last], mid) && NoStraddle([last], cut)
    requires mid <= |history| && cut <= |history|
    ensures mid <= last.seqNo <= |history|
    ensures history[cut..Max(cut, mid)] + (if last.seqNo > cut then last.bytes else [])
            == history[cut..Max(cut, last.seqNo)]
  {
    assert [last][0] == last;
    assert last.Start() == mid;
    if last.seqNo > cut {
      assert cut <= mid;
    }
  }

  /** No frame is empty or larger than the limit, and only the last is smaller. */
  lemma {:induction false} PiecesAreFull(start: nat, bytes: seq<Byte>)
    ensures var frames := Cut(start, bytes);
            && (forall i :: 0 <= i < |frames| ==> 0 < |frames[i].bytes| <= OUTPUT_CHUNK_BYTES)
            && (forall i :: 0 <= i < |frames| - 1 ==> |frames[i].bytes| == OUTPUT_CHUNK_BYTES)
    decreases |bytes|
  {
    if bytes != [] {
      var n := Min(OUTPUT_CHUNK_BYTES, |bytes|);
      CutStep(start, bytes);
      PiecesAreFull(start + n, bytes[n..]);
      CutNothing(start + n);
      hide Cut;
    }
  }
}
