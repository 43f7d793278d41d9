/** Reading history backwards page by page (crates/server/pty/src/ring.rs), while the terminal keeps printing. */
module Paging {
  import opened Base
  import opened Tracker
  import opened Ring
  import opened Frames
  import Ecma48

  /** The retained window at the moment a page is read. */
  datatype Retained = Retained(history: seq<Byte>, tail: nat)

  type Window = r: Retained | r.tail <= |r.history| witness Retained([], 0)

  datatype Request = Request(window: Window, maxBytes: nat)

  /** What pushing does to a window: history grows at the end, the tail only moves up. */
  predicate GrowsTo(w: Window, w': Window) {
    w.history <= w'.history && w.tail <= w'.tail
  }

  predicate Growing(rs: seq<Request>) {
    forall i, j :: 0 <= i <= j < |rs| ==> GrowsTo(rs[i].window, rs[j].window)
  }

  function NextPage(r: Request, before: Option<nat>): (page: HistorySlice)
    ensures r.window.tail <= page.startSeq <= page.endSeq <= |r.window.history|
    ensures page.bytes == r.window.history[page.startSeq..page.endSeq]
  {
    PageOf(r.window.history, r.window.tail, before, r.maxBytes)
  }

  /** Each page is asked for before the start of the previous one. */
  function Pages(rs: seq<Request>, before: Option<nat>): (pages: seq<HistorySlice>)
    ensures |pages| == |rs|
    decreases |rs|
  {
    if rs == [] then []
    else
      var page := NextPage(rs[0], before);
      [page] + Pages(rs[1..], Some(page.startSeq))
  }

  /** The pages put back in stream order. */
  function Joined(pages: seq<HistorySlice>): seq<Byte> {
    if pages == [] then [] else Joined(pages[1..]) + pages[0].bytes
  }

  /** A page continues where it was asked to exactly when the tail has not passed that point. */
  lemma PageEndsWhereAsked(w: Window, before: nat, maxBytes: nat)
    ensures NextPage(Request(w, maxBytes), Some(before)).endSeq == before
            <==> w.tail <= before <= |w.history|
  {
  }

  /**
   With pushes between the pages, the pages read so far are one contiguous slice of the
   history for as long as the tail has not passed the point the next page is asked from.
   */
  lemma {:induction false} PagesAreContiguous(rs: seq<Request>, before: Option<nat>)
    requires rs != [] && Growing(rs)
    requires before.Some? ==> rs[0].window.tail <= before.value <= |rs[0].window.history|
    requires var pages := Pages(rs, before);
             forall i :: 0 < i < |rs| ==> rs[i].window.tail <= pages[i - 1].startSeq
    ensures var pages := Pages(rs, before);
            var end := if before.Some? then before.value else |rs[0].window.history|;
            var start := pages[|pages| - 1].startSeq;
            && start <= end <= |rs[|rs| - 1].window.history|
            && Joined(pages) == rs[|rs| - 1].window.history[start..end]
    decreases |rs|
  {
    PagesStep(rs, before);
    hide PageOf, NextPage, Pages;
    var pages := Pages(rs, before);
    var page := pages[0];
    assert GrowsTo(rs[0].window, rs[|rs| - 1].window);
    assert Joined(pages) == Joined(pages[1..]) + page.bytes;
    if |rs| == 1 {
      assert Joined(pages[1..]) == [];
    } else {
      var rest := rs[1..];
      var more := Pages(rest, Some(page.startSeq));
      hide Joined;
      assert rest[0].window.tail <= page.startSeq by { assert rs[1].window.tail <= pages[0].startSeq; }
      GrowingRest(rs);
      forall i | 0 < i < |rest|
        ensures rest[i].window.tail <= more[i - 1].startSeq
      {
        assert rs[i + 1].window.tail <= pages[i].startSeq;
      }
      PagesAreContiguous(rest, Some(page.startSeq));
      SliceJoin(rs[0].window.history, rs[|rs| - 1].window.history, more[|more| - 1].startSeq, page.startSeq, page.endSeq);
    }
  }

  lemma PagesStep(rs: seq<Request>, before: Option<nat>)
    requires rs != []
    ensures var pages := Pages(rs, before);
            && pages[0] == NextPage(rs[0], before)
            && pages[1..] == Pages(rs[1..], Some(pages[0].startSeq))
            && pages[0].endSeq == Min(Max(if before.Some? then before.value else |rs[0].window.history|, rs[0].window.tail),
                                      |rs[0].window.history|)
            && (pages[0].hasMore <==> pages[0].startSeq > rs[0].window.tail)
            && pages[0].startSeq == Max(rs[0].window.tail, pages[0].endSeq - rs[0].maxBytes)
  {
    PagesHead(rs, before);
    hide Pages;
  }

  lemma PagesHead(rs: seq<Request>, before: Option<nat>)
    requires rs != []
    ensures Pages(rs, before)[0] == NextPage(rs[0], before)
    ensures Pages(rs, before)[1..] == Pages(rs[1..], Some(NextPage(rs[0], before).startSeq))
  {
    hide NextPage;
    var page := NextPage(rs[0], before);
    var rest := Pages(rs[1..], Some(page.startSeq));
    assert ([page] + rest)[1..] == rest;
  }

  lemma GrowingRest(rs: seq<Request>)
    requires |rs| > 1 && Growing(rs)
    ensures Growing(rs[1..]) && GrowsTo(rs[0].window, rs[1].window)
  {
    forall i, j | 0 <= i <= j < |rs[1..]|
      ensures GrowsTo(rs[1..][i].window, rs[1..][j].window)
    {
      assert GrowsTo(rs[i + 1].window, rs[j + 1].window);
    }
  }

  lemma SliceJoin(early: seq<Byte>, late: seq<Byte>, a: nat, b: nat, c: nat)
    requires early <= late && a <= b <= c <= |early|
    ensures late[a..b] + early[b..c] == late[a..c]
  {
    assert early == late[..|early|];
  }

  /**
   Over a window that does not move, pages of any sizes of at least one byte reach the tail
   within as many pages as the window has bytes; `hasMore` is false on the last page and on
   no earlier one, and the pages rebuild the window.
   */
  lemma {:induction false} PagingRebuildsWindow(w: Window, sizes: seq<nat>, before: nat) returns (k: nat)
    requires w.tail <= before <= |w.history|
    requires forall i :: 0 <= i < |sizes| ==> sizes[i] >= 1
    requires |sizes| >= Max(1, before - w.tail)
    ensures k < |sizes|
    ensures var pages := Pages(Requests(w, sizes), Some(before));
            && !pages[k].hasMore
            && (forall i :: 0 <= i < k ==> pages[i].hasMore)
            && Joined(pages[..k + 1]) == w.history[w.tail..before]
    decreases |sizes|
  {
    var rs := Requests(w, sizes);
    var pages := Pages(rs, Some(before));
    PagesStep(rs, Some(before));
    RequestsStep(w, sizes);
    hide PageOf, NextPage, Pages, Requests;
    var page := pages[0];
    if !page.hasMore {
      k := 0;
      JoinedOne(pages);
      hide Joined;
    } else {
      hide Joined;
      var k' := PagingRebuildsWindow(w, sizes[1..], page.startSeq);
      k := k' + 1;
      var more := Pages(rs[1..], Some(page.startSeq));
      forall i | 0 <= i < k
        ensures pages[i].hasMore
      {
        assert i > 0 ==> pages[i] == more[i - 1];
      }
      JoinedStep(pages, k + 1);
      SliceJoin(w.history, w.history, w.tail, page.startSeq, before);
    }
  }

  lemma JoinedOne(pages: seq<HistorySlice>)
    requires pages != []
    ensures Joined(pages[..1]) == pages[0].bytes
  {
    assert pages[..1][1..] == [];
  }

  lemma JoinedStep(pages: seq<HistorySlice>, n: nat)
    requires 0 < n <= |pages|
    ensures Joined(pages[..n]) == Joined(pages[1..][..n - 1]) + pages[0].bytes
  {
    assert pages[..n][1..] == pages[1..][..n - 1];
  }

  lemma RequestsStep(w: Window, sizes: seq<nat>)
    requires sizes != []
    ensures Requests(w, sizes)[0] == Request(w, sizes[0])
    ensures Requests(w, sizes)[1..] == Requests(w, sizes[1..])
  {
  }

  function Requests(w: Window, sizes: seq<nat>): seq<Request> {
    seq(|sizes|, i requires 0 <= i < |sizes| => Request(w, sizes[i]))
  }

  /**
   A snapshot, any pushes, then a delta from the snapshot's head: it succeeds if and only if the
   tail has not passed that head, and then the two join without a gap or a repeat.
   */
  method SnapshotThenSince<P>(ring: ScrollbackRing<P>, chunks: seq<seq<Byte>>) returns (s: Snapshot, delta: Option<DeltaSlice>)
    requires ring.Valid()
    modifies ring, ring.tracker
    ensures ring.Valid() && ring.history == old(ring.history) + Flatten(chunks)
    ensures old(ring.tailOffset) <= |old(ring.history)| && ring.tailOffset >= old(ring.tailOffset)
    ensures s.headSeq == |old(ring.history)| && s.bytes == old(ring.history)[old(ring.tailOffset)..]
    ensures s.anchorState == StateAt(ring.tracker.lib, ring.history, old(ring.tailOffset))
    ensures delta.Some? <==> ring.tailOffset <= s.headSeq
    ensures delta.Some? ==> s.bytes + delta.value.bytes == ring.history[old(ring.tailOffset)..]
                            && delta.value.headSeq == |ring.history|
  {
    hide ScrollbackRing.Valid, StateAt, Flatten;
    s := ring.TakeSnapshot();
    ghost var before := ring.history;
    PushAll(ring, chunks);
    delta := ring.Since(s.headSeq);
    DeltaContinues(ring.tracker.lib, before, ring.history, old(ring.tailOffset));
  }

  method PushAll<P>(ring: ScrollbackRing<P>, chunks: seq<seq<Byte>>)
    requires ring.Valid()
    modifies ring, ring.tracker
    ensures ring.Valid() && ring.history == old(ring.history) + Flatten(chunks)
    ensures ring.tailOffset >= old(ring.tailOffset)
  {
    hide ScrollbackRing.Valid;
    for i := 0 to |chunks|
      invariant ring.Valid() && ring.tailOffset >= old(ring.tailOffset)
      invariant ring.history == old(ring.history) + Flatten(chunks[..i])
    {
      FlattenSnoc(chunks[..i], chunks[i]);
      assert chunks[..i + 1] == chunks[..i] + [chunks[i]];
      ring.Push(chunks[i]);
    }
    assert chunks[..|chunks|] == chunks;
  }

  lemma DeltaContinues<P>(lib: Library<P>, then_: seq<Byte>, now: seq<Byte>, start: nat)
    requires start <= |then_| && then_ <= now
    ensures then_[start..] + now[|then_|..] == now[start..]
    ensures StateAt(lib, now, start) == StateAt(lib, then_, start)
  {
    assert then_ == now[..|then_|];
    assert now[..start] == then_[..start];
  }

  // ----- The flag an open reports: one byte asked for before the start of its snapshot

  /** The window's start, as the history determines it. */
  function TailOf<P>(lib: Library<P>, cap: nat, history: seq<Byte>): (tail: nat)
    ensures tail <= |history|
  {
    var placed := Placed(lib, IntervalFor(cap), history);
    PlacedIncreasing(lib, IntervalFor(cap), history);
    KeptIsSuffix(placed, |history|, cap);
    Kept(placed, |history|, cap)[0]
  }

  function KeptOf<P>(lib: Library<P>, cap: nat, history: seq<Byte>): seq<nat> {
    Kept(Placed(lib, IntervalFor(cap), history), |history|, cap)
  }

  /** Where the snapshot of an open starts. */
  function OpenStart<P>(lib: Library<P>, cap: nat, history: seq<Byte>): (start: nat)
    ensures start <= |history|
  {
    BoundedStart(lib, IntervalFor(cap), history, OPEN_TERMINAL_MAX_BYTES)
  }

  /** The flag: the snapshot was taken at `before`, the page asked for when the history was `now`. */
  function OpenFlag<P>(lib: Library<P>, cap: nat, before: seq<Byte>, now: seq<Byte>): bool {
    NextPage(Request(Retained(now, TailOf(lib, cap, now)), 1), Some(OpenStart(lib, cap, before))).hasMore
  }

  /** Asking for one byte misses exactly one older byte. */
  lemma ProbeMissesOne(w: Window, start: nat)
    requires start <= |w.history|
    ensures NextPage(Request(w, 1), Some(start)).hasMore <==> start > w.tail + 1
  {
  }

  lemma TwoStepsApart(offs: seq<nat>, interval: nat, i: nat, j: nat)
    requires Apart(offs, interval) && i + 1 < j < |offs|
    ensures offs[i] + 2 * interval <= offs[j]
  {
    assert offs[i] + interval <= offs[i + 1] && offs[i + 1] + interval <= offs[j];
  }

  lemma StartOfOpen<P>(lib: Library<P>, cap: nat, history: seq<Byte>)
    ensures var newest := LastPlaced(lib, IntervalFor(cap), history);
            || OpenStart(lib, cap, history) == newest
            || (OpenStart(lib, cap, history) == |history| && |history| - newest > OPEN_TERMINAL_MAX_BYTES)
  {
    hide LastPlaced;
  }

  /**
   An open starts at an anchor, or far past all of them; so the window starts one byte before it
   only with two anchors one byte apart, the newer of them at the head.
   */
  lemma OneByteBefore<P>(lib: Library<P>, cap: nat, before: seq<Byte>, now: seq<Byte>)
    requires before <= now && OpenStart(lib, cap, before) == TailOf(lib, cap, now) + 1
    ensures cap == 1 && now == before && KeptOf(lib, cap, now) == [|now| - 1, |now|]
  {
    var interval := IntervalFor(cap);
    var early, late := Placed(lib, interval, before), Placed(lib, interval, now);
    var start, tail := OpenStart(lib, cap, before), TailOf(lib, cap, now);
    var kept := Kept(late, |now|, cap);
    PlacedGrows(lib, interval, before, now);
    PlacedApart(lib, interval, now);
    PlacedApart(lib, interval, before);
    KeptIsSuffix(late, |now|, cap);
    StartOfOpen(lib, cap, before);
    hide Placed, Kept, OpenStart;
    var t := |late| - |kept|;
    assert late[t] == tail == kept[0];
    assert t < |early|;
    var newest := early[|early| - 1];
    assert newest == LastPlaced(lib, interval, before);
    assert late[t] == early[t];
    assert t < |early| - 1 ==> early[t] + interval <= newest;
    assert tail <= newest;
    assert start == newest == late[|early| - 1];
    assert t < |early| - 1 && interval == 1;
    if t + 1 < |early| - 1 {
      TwoStepsApart(early, interval, t, |early| - 1);
      assert false;
    }
    assert kept[1] == late[t + 1] == start;
    assert |kept| > 1 && |now| - tail <= cap;
    assert |now| == start == |before| && now == before;
    assert |late| == |early|;
    assert kept == [tail, start];
  }

  /**
   The flag says whether older output is retained at every capacity but 1, whatever is pushed
   between the snapshot and the page. At capacity 1 it is wrong exactly when nothing is pushed
   in between and the two last places of the output are the two kept anchors.
   */
  lemma OlderBytesProbe<P>(lib: Library<P>, cap: nat, before: seq<Byte>, now: seq<Byte>)
    requires before <= now
    ensures (OpenFlag(lib, cap, before, now) <==> OpenStart(lib, cap, before) > TailOf(lib, cap, now))
            <==> !(cap == 1 && now == before && KeptOf(lib, cap, now) == [|now| - 1, |now|])
  {
    var start, tail := OpenStart(lib, cap, before), TailOf(lib, cap, now);
    ProbeMissesOne(Retained(now, tail), start);
    if start == tail + 1 {
      OneByteBefore(lib, cap, before, now);
    }
    if cap == 1 && now == before && KeptOf(lib, cap, now) == [|now| - 1, |now|] {
      NewestAtHead(lib, now);
    }
    hide OpenStart, NextPage, PageOf, Placed, Kept;
  }

  lemma NewestAtHead<P>(lib: Library<P>, history: seq<Byte>)
    requires |history| > 0 && KeptOf(lib, 1, history) == [|history| - 1, |history|]
    ensures TailOf(lib, 1, history) == |history| - 1 && OpenStart(lib, 1, history) == |history|
  {
    KeptIsSuffix(Placed(lib, IntervalFor(1), history), |history|, 1);
    hide Placed, Kept;
  }

  /** An open on a ring, with whatever is pushed between its snapshot and its page. */
  method ProbeOlderBytes<P>(ring: ScrollbackRing<P>, chunks: seq<seq<Byte>>) returns (start: nat, hasMore: bool)
    requires ring.Valid()
    modifies ring, ring.tracker
    ensures ring.Valid() && ring.history == old(ring.history) + Flatten(chunks)
    ensures start == OpenStart(ring.tracker.lib, ring.cap, old(ring.history))
    ensures ring.tailOffset == TailOf(ring.tracker.lib, ring.cap, ring.history)
    ensures (hasMore <==> start > ring.tailOffset)
            <==> !(ring.cap == 1 && Flatten(chunks) == []
                   && KeptOf(ring.tracker.lib, 1, ring.history) == [|ring.history| - 1, |ring.history|])
  {
    ghost var lib, cap, before := ring.tracker.lib, ring.cap, ring.history;
    hide ScrollbackRing.Valid, Flatten, TailOf, OpenStart, KeptOf, NextPage;
    start := SnapshotStart(ring);
    PushAll(ring, chunks);
    hasMore := OlderPage(ring, start);
    OlderBytesProbe(lib, cap, before, ring.history);
    SameWhenNothing(before, Flatten(chunks));
  }

  method SnapshotStart<P>(ring: ScrollbackRing<P>) returns (start: nat)
    requires ring.Valid()
    ensures start == OpenStart(ring.tracker.lib, ring.cap, ring.history)
  {
    IntervalOfRing(ring);
    StartOfSnapshot(ring.tracker.lib, ring.cap, ring.history);
    hide ScrollbackRing.Valid, StateAt, OpenStart;
    var s := ring.SnapshotWithMaxBytes(OPEN_TERMINAL_MAX_BYTES);
    start := s.headSeq - |s.bytes|;
  }

  method OlderPage<P>(ring: ScrollbackRing<P>, start: nat) returns (hasMore: bool)
    requires ring.Valid()
    ensures ring.tailOffset == TailOf(ring.tracker.lib, ring.cap, ring.history)
    ensures hasMore == NextPage(Request(Retained(ring.history, TailOf(ring.tracker.lib, ring.cap, ring.history)), 1), Some(start)).hasMore
  {
    TailOfRing(ring);
    hide ScrollbackRing.Valid, TailOf, PageOf;
    var page := ring.HistoryPage(Some(start), 1);
    hasMore := page.hasMore;
  }

  lemma SameWhenNothing(before: seq<Byte>, more: seq<Byte>)
    ensures before + more == before <==> more == []
  {
    assert |before + more| == |before| + |more|;
    assert before + [] == before;
  }

  lemma IntervalOfRing<P>(ring: ScrollbackRing<P>)
    requires ring.Valid()
    ensures ring.anchorInterval == IntervalFor(ring.cap)
  {
  }

  lemma StartOfSnapshot<P>(lib: Library<P>, cap: nat, history: seq<Byte>)
    ensures OpenStart(lib, cap, history) == BoundedStart(lib, IntervalFor(cap), history, OPEN_TERMINAL_MAX_BYTES)
  {
  }

  lemma TailOfRing<P>(ring: ScrollbackRing<P>)
    requires ring.Valid()
    ensures ring.tailOffset == TailOf(ring.tracker.lib, ring.cap, ring.history)
  {
    assert Offsets(ring.anchors)[0] == ring.anchors[0].offset;
  }

  /** One printed byte in a ring of capacity 1: one older byte is retained, and the flag denies it. */
  lemma FlagWrongAtCapacityOne<P>(lib: Library<P>, b: Byte)
    requires SafeAt(lib, [b], 1)
    ensures KeptOf(lib, 1, [b]) == [0, 1]
    ensures OpenStart(lib, 1, [b]) == 1 && TailOf(lib, 1, [b]) == 0 && !OpenFlag(lib, 1, [b], [b])
  {
    assert [b][..0] == [] && Placed(lib, 1, [b][..0]) == [0];
    assert Placed(lib, 1, [b]) == [0] + [1];
    assert Kept([0, 1], 1, 1) == [0, 1];
    hide SafeAt;
    NewestAtHead(lib, [b]);
    ProbeMissesOne(Retained([b], 0), 1);
  }

  /** The run: a ring of capacity 1, the byte `a`, an open. */
  method OpenAtCapacityOne(isUtf8: seq<Byte> -> bool) returns (ring: ScrollbackRing<Ecma48.Lexer>, start: nat, hasMore: bool)
    ensures ring.Valid() && ring.cap == 1 && ring.history == [0x61]
    ensures ring.tailOffset == 0 && start == 1 && !hasMore
  {
    var made := NewRing(Ecma48.AsLibrary(isUtf8), 80, 24, Some(1));
    ring := made.value;
    LetterIsSafe(isUtf8);
    hide ScrollbackRing.Valid, SafeAt;
    ring.Push([0x61]);
    FlagWrongAtCapacityOne(ring.tracker.lib, 0x61);
    var none: seq<seq<Byte>> := [];
    assert Flatten(none) == [];
    start, hasMore := ProbeOlderBytes(ring, none);
  }

  lemma LetterIsSafe(isUtf8: seq<Byte> -> bool)
    ensures SafeAt(Ecma48.AsLibrary(isUtf8), [0x61], 1)
  {
    var lib := Ecma48.AsLibrary(isUtf8);
    assert [0x61][..1] == [0x61] && [0x61][..0] == [];
    assert Advance(lib, Fresh(lib), []) == Fresh(lib);
    assert Ecma48.Step(Ecma48.Ground, 0x61) == (Ecma48.Ground, [Print(0x61)]);
    assert AdvanceByte(lib, Fresh(lib), 0x61).safe;
  }

  /** A page holds as many bytes as asked for, or all there are before its end. */
  lemma PageSize(w: Window, before: Option<nat>, maxBytes: nat)
    ensures var page := NextPage(Request(w, maxBytes), before);
            && |page.bytes| == page.endSeq - page.startSeq == Min(maxBytes, page.endSeq - w.tail)
            && (before.None? ==> page.endSeq == |w.history|)
            && (page.hasMore <==> page.startSeq > w.tail)
  {
  }
}
