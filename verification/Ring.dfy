/**
 The scrollback ring (crates/server/pty/src/ring.rs): a bounded suffix of everything a
 terminal has ever printed, cut only at anchors, each of which holds the terminal state at
 its offset. All of it is measured against `history`, the whole output since the start.
 */
module Ring {
  import opened Base
  import opened Tracker

  const DEFAULT_CAPACITY_BYTES: nat := 4 * 1024 * 1024
  const DEFAULT_ANCHOR_INTERVAL: nat := 64 * 1024
  const MAX_CAPACITY_BYTES: nat := 64 * 1024 * 1024

  /** How far apart anchors are kept in a ring of this capacity. */
  function IntervalFor(cap: nat): (n: nat)
    ensures n > 0 && (n == 1 <==> cap <= 1)
  {
    Min(DEFAULT_ANCHOR_INTERVAL, Max(cap, 1))
  }

  datatype Anchor = Anchor(offset: nat, state: AnchorState)

  datatype Snapshot = Snapshot(cols: U16, rows: U16, anchorState: AnchorState, bytes: seq<Byte>, headSeq: nat)

  datatype HistorySlice = HistorySlice(startSeq: nat, endSeq: nat, bytes: seq<Byte>, hasMore: bool)

  datatype DeltaSlice = DeltaSlice(bytes: seq<Byte>, headSeq: nat)

  /** The tracker after the first `n` bytes of a history. */
  function TrackedAt<P>(lib: Library<P>, history: seq<Byte>, n: nat): Tracked<P>
    requires n <= |history|
  {
    Advance(lib, Fresh(lib), history[..n])
  }

  function StateAt<P>(lib: Library<P>, history: seq<Byte>, n: nat): AnchorState
    requires n <= |history|
  {
    View(TrackedAt(lib, history, n).state)
  }

  /** May the output be cut after its first `n` bytes? */
  predicate SafeAt<P>(lib: Library<P>, history: seq<Byte>, n: nat)
    requires n <= |history|
  {
    TrackedAt(lib, history, n).safe
  }

  // ----- Where anchors are, and which are still there, as functions of the history

  /** Every anchor ever placed: the start, then greedily the first safe split an interval later. */
  function Placed<P>(lib: Library<P>, interval: nat, history: seq<Byte>): (offs: seq<nat>)
    ensures offs != [] && offs[0] == 0 && offs[|offs| - 1] <= |history|
    decreases |history|
  {
    if history == [] then [0]
    else
      var before := Placed(lib, interval, history[..|history| - 1]);
      if |history| - before[|before| - 1] >= interval && SafeAt(lib, history, |history|)
      then before + [|history|]
      else before
  }

  /** The anchors left once the front is dropped for as long as the window is over capacity. */
  function Kept(offs: seq<nat>, head: nat, cap: nat): (r: seq<nat>)
    requires offs != []
    ensures r != []
  {
    if |offs| > 1 && head - offs[0] > cap then Kept(offs[1..], head, cap) else offs
  }

  predicate StrictlyIncreasing(offs: seq<nat>) {
    forall i, j :: 0 <= i < j < |offs| ==> offs[i] < offs[j]
  }

  lemma {:induction false} PlacedIncreasing<P>(lib: Library<P>, interval: nat, history: seq<Byte>)
    requires interval > 0
    ensures StrictlyIncreasing(Placed(lib, interval, history))
    decreases |history|
  {
    if history != [] {
      PlacedIncreasing(lib, interval, history[..|history| - 1]);
    }
  }

  /** Any two anchors are at least the interval apart. */
  lemma {:induction false} PlacedApart<P>(lib: Library<P>, interval: nat, history: seq<Byte>)
    ensures Apart(Placed(lib, interval, history), interval)
    decreases |history|
  {
    hide SafeAt;
    if history != [] {
      PlacedApart(lib, interval, history[..|history| - 1]);
      var early := Placed(lib, interval, history[..|history| - 1]);
      if |history| - early[|early| - 1] >= interval && SafeAt(lib, history, |history|) {
        ApartSnoc(early, interval, |history|);
      }
    }
  }

  predicate Apart(offs: seq<nat>, interval: nat) {
    forall i, j :: 0 <= i < j < |offs| ==> offs[i] + interval <= offs[j]
  }

  lemma ApartSnoc(offs: seq<nat>, interval: nat, n: nat)
    requires offs != [] && Apart(offs, interval) && offs[|offs| - 1] + interval <= n
    ensures Apart(offs + [n], interval)
  {
    var longer := offs + [n];
    forall i, j | 0 <= i < j < |longer|
      ensures longer[i] + interval <= longer[j]
    {
      if j == |offs| && i < |offs| - 1 {
        assert offs[i] + interval <= offs[|offs| - 1];
      }
    }
  }

  /** More output only adds anchors, past all the output so far. */
  lemma {:induction false} PlacedGrows<P>(lib: Library<P>, interval: nat, before: seq<Byte>, now: seq<Byte>)
    requires before <= now
    ensures var early, late := Placed(lib, interval, before), Placed(lib, interval, now);
            early <= late && forall i :: |early| <= i < |late| ==> late[i] > |before|
    decreases |now|
  {
    hide SafeAt;
    if |now| == |before| {
      assert now == before;
    } else {
      assert before <= now[..|now| - 1];
      PlacedGrows(lib, interval, before, now[..|now| - 1]);
    }
  }

  lemma {:induction false} PlacedAreSafe<P>(lib: Library<P>, interval: nat, history: seq<Byte>, i: nat)
    requires i < |Placed(lib, interval, history)|
    ensures Placed(lib, interval, history)[i] <= |history|
    ensures SafeAt(lib, history, Placed(lib, interval, history)[i])
    decreases |history|
  {
    if history != [] {
      var before := history[..|history| - 1];
      if i < |Placed(lib, interval, before)| {
        PlacedAreSafe(lib, interval, before, i);
        assert before[..Placed(lib, interval, before)[i]] == history[..Placed(lib, interval, before)[i]];
      }
    }
  }

  /** Greedy placement leaves no safe split behind: none lies an interval or more past the last anchor. */
  lemma {:induction false} NoSafeSplitPastLast<P>(lib: Library<P>, interval: nat, history: seq<Byte>, n: nat)
    requires interval > 0 && n <= |history|
    requires var offs := Placed(lib, interval, history); n >= offs[|offs| - 1] + interval
    ensures !SafeAt(lib, history, n)
    decreases |history|
  {
    if history != [] {
      if n < |history| {
        var before := history[..|history| - 1];
        NoSafeSplitPastLast(lib, interval, before, n);
        assert before[..n] == history[..n];
      }
    }
  }

  lemma {:induction false} KeptIsSuffix(offs: seq<nat>, head: nat, cap: nat)
    requires offs != []
    ensures var r := Kept(offs, head, cap);
            && |r| <= |offs| && r == offs[|offs| - |r|..]
            && (head - r[0] <= cap || |r| == 1)
    decreases |offs|
  {
    if |offs| > 1 && head - offs[0] > cap {
      KeptIsSuffix(offs[1..], head, cap);
    }
  }

  lemma {:induction false} KeptThenKept(offs: seq<nat>, more: seq<nat>, head: nat, head': nat, cap: nat)
    requires offs != [] && head <= head'
    ensures Kept(Kept(offs, head, cap) + more, head', cap) == Kept(offs + more, head', cap)
    decreases |offs|
  {
    if |offs| > 1 && head - offs[0] > cap {
      KeptThenKept(offs[1..], more, head, head', cap);
      assert (offs + more)[1..] == offs[1..] + more;
    }
  }

  /**
   Eviction is exact: the window starts at the earliest anchor whose suffix fits the
   capacity, or at the newest anchor when none fits.
   */
  lemma {:induction false} KeptIsEarliestFit(offs: seq<nat>, head: nat, cap: nat, i: nat)
    requires offs != [] && StrictlyIncreasing(offs) && i < |offs|
    ensures var r := Kept(offs, head, cap);
            && (head - offs[i] <= cap ==> r[0] <= offs[i] && head - r[0] <= cap)
            && (head - offs[|offs| - 1] > cap ==> r == [offs[|offs| - 1]])
    decreases |offs|
  {
    if |offs| > 1 && head - offs[0] > cap {
      if i > 0 {
        KeptIsEarliestFit(offs[1..], head, cap, i - 1);
      } else {
        KeptIsEarliestFit(offs[1..], head, cap, |offs| - 2);
      }
    }
  }

  /** The page of history that ends at `before`, or as near to it as the window allows. */
  function PageOf(history: seq<Byte>, tail: nat, before: Option<nat>, maxBytes: nat): HistorySlice
    requires tail <= |history|
  {
    var end := Min(Max(if before.Some? then before.value else |history|, tail), |history|);
    var start := Max(tail, end - maxBytes);
    HistorySlice(start, end, history[start..end], start > tail)
  }

  // ----- The representation, on values

  function Offsets(anchors: seq<Anchor>): (offs: seq<nat>)
    ensures |offs| == |anchors|
  {
    seq(|anchors|, i requires 0 <= i < |anchors| => anchors[i].offset)
  }

  /** The anchors are at increasing offsets and hold the tracker's view of the history there. */
  ghost predicate AnchorsHold<P>(lib: Library<P>, history: seq<Byte>, anchors: seq<Anchor>) {
    && StrictlyIncreasing(Offsets(anchors))
    && forall i :: 0 <= i < |anchors| ==>
         anchors[i].offset <= |history| && anchors[i].state == StateAt(lib, history, anchors[i].offset)
  }

  /** What also holds between placing an anchor and evicting. */
  ghost predicate Represents<P>(lib: Library<P>, history: seq<Byte>, anchors: seq<Anchor>,
                          tail: nat, bytes: seq<Byte>, tracked: Tracked<P>) {
    && tail <= |history|
    && bytes == history[tail..]
    && tracked == TrackedAt(lib, history, |history|)
    && anchors != [] && anchors[0].offset == tail
    && AnchorsHold(lib, history, anchors)
  }

  /** Which anchors are there is determined by the history, the capacity and the interval. */
  ghost predicate Refines<P>(lib: Library<P>, interval: nat, cap: nat, history: seq<Byte>, anchors: seq<Anchor>) {
    Offsets(anchors) == Kept(Placed(lib, interval, history), |history|, cap)
  }

  lemma Grow<P>(lib: Library<P>, history: seq<Byte>, anchors: seq<Anchor>,
                tail: nat, bytes: seq<Byte>, tracked: Tracked<P>, byte: Byte)
    requires Represents(lib, history, anchors, tail, bytes, tracked)
    ensures Represents(lib, history + [byte], anchors, tail, bytes + [byte], Advance(lib, tracked, [byte]))
  {
    var longer := history + [byte];
    assert history[..|history|] == history && longer[..|longer|] == longer;
    AdvanceConcat(lib, Fresh(lib), history, [byte]);
    hide Advance;
    forall i | 0 <= i < |anchors|
      ensures anchors[i].offset <= |longer| && anchors[i].state == StateAt(lib, longer, anchors[i].offset)
    {
      assert longer[..anchors[i].offset] == history[..anchors[i].offset];
    }
  }

  lemma Place<P>(lib: Library<P>, history: seq<Byte>, anchors: seq<Anchor>,
                 tail: nat, bytes: seq<Byte>, tracked: Tracked<P>)
    requires Represents(lib, history, anchors, tail, bytes, tracked)
    requires anchors[|anchors| - 1].offset < |history|
    ensures var more := anchors + [Anchor(|history|, View(tracked.state))];
            && Represents(lib, history, more, tail, bytes, tracked)
            && Offsets(more) == Offsets(anchors) + [|history|]
  {
    var more := anchors + [Anchor(|history|, View(tracked.state))];
    assert Offsets(more) == Offsets(anchors) + [|history|];
    assert Offsets(anchors)[|anchors| - 1] == anchors[|anchors| - 1].offset;
    hide Advance;
  }

  lemma Evict<P>(lib: Library<P>, history: seq<Byte>, anchors: seq<Anchor>,
                 tail: nat, bytes: seq<Byte>, tracked: Tracked<P>)
    requires Represents(lib, history, anchors, tail, bytes, tracked)
    requires |anchors| > 1
    ensures tail < anchors[1].offset <= |history|
    ensures |bytes| == |history| - tail
    ensures Represents(lib, history, anchors[1..], anchors[1].offset, bytes[anchors[1].offset - tail..], tracked)
    ensures Offsets(anchors[1..]) == Offsets(anchors)[1..]
    ensures |anchors| > 2 ==> anchors[1].offset < anchors[2].offset
  {
    var offs := Offsets(anchors);
    assert offs[0] == anchors[0].offset && offs[1] == anchors[1].offset;
    assert |anchors| > 2 ==> offs[2] == anchors[2].offset;
    assert Offsets(anchors[1..]) == offs[1..];
    hide Advance, Offsets;
  }

  lemma AdvanceSafe<P>(lib: Library<P>, history: seq<Byte>, anchors: seq<Anchor>,
                       tail: nat, bytes: seq<Byte>, tracked: Tracked<P>, byte: Byte)
    requires Represents(lib, history, anchors, tail, bytes, tracked)
    ensures Advance(lib, tracked, [byte]).safe == SafeAt(lib, history + [byte], |history + [byte]|)
  {
    assert history[..|history|] == history;
    assert (history + [byte])[..|history + [byte]|] == history + [byte];
    AdvanceConcat(lib, Fresh(lib), history, [byte]);
    hide Advance;
  }

  /** One more byte moves the kept anchors on by the anchor it may add. */
  lemma KeepRefining<P>(lib: Library<P>, interval: nat, cap: nat, history: seq<Byte>, byte: Byte, offs: seq<nat>)
    requires offs == Kept(Placed(lib, interval, history), |history|, cap)
    ensures var longer := history + [byte];
            var more := if |longer| - offs[|offs| - 1] >= interval && SafeAt(lib, longer, |longer|)
                        then offs + [|longer|] else offs;
            Kept(more, |longer|, cap) == Kept(Placed(lib, interval, longer), |longer|, cap)
  {
    hide SafeAt;
    var longer := history + [byte];
    var placed := Placed(lib, interval, history);
    PlacedStep(lib, interval, history, byte);
    hide Placed;
    KeptIsSuffix(placed, |history|, cap);
    hide Kept;
    assert offs[|offs| - 1] == placed[|placed| - 1];
    var place := |longer| - offs[|offs| - 1] >= interval && SafeAt(lib, longer, |longer|);
    var extra := if place then [|longer|] else [];
    KeptThenKept(placed, extra, |history|, |longer|, cap);
    assert offs + [] == offs && placed + [] == placed;
  }

  lemma PlacedStep<P>(lib: Library<P>, interval: nat, history: seq<Byte>, byte: Byte)
    ensures var longer := history + [byte];
            var placed := Placed(lib, interval, history);
            Placed(lib, interval, longer)
            == if |longer| - placed[|placed| - 1] >= interval && SafeAt(lib, longer, |longer|) then placed + [|longer|] else placed
  {
    hide SafeAt;
    var longer := history + [byte];
    assert longer[..|longer| - 1] == history;
  }

  /** The newest retained anchor is the newest ever placed. */
  lemma NewestIsKept<P>(lib: Library<P>, interval: nat, cap: nat, history: seq<Byte>, anchors: seq<Anchor>)
    requires Refines(lib, interval, cap, history, anchors)
    ensures anchors != [] && anchors[|anchors| - 1].offset == LastPlaced(lib, interval, history)
  {
    KeptIsSuffix(Placed(lib, interval, history), |history|, cap);
    assert Offsets(anchors)[|anchors| - 1] == anchors[|anchors| - 1].offset;
  }

  class ScrollbackRing<!P> {
    var bytes: seq<Byte>
    var anchors: seq<Anchor>
    var headSeq: nat
    var tailOffset: nat
    const tracker: AnchorTracker<P>
    var bytesSinceAnchor: nat
    const cap: nat
    const anchorInterval: nat
    var cols: U16
    var rows: U16
    ghost var history: seq<Byte>

    ghost predicate Consistent()
      reads this, tracker
    {
      && anchorInterval == IntervalFor(cap)
      && headSeq == |history|
      && anchors != []
      && anchors[|anchors| - 1].offset + bytesSinceAnchor == headSeq
      && Represents(tracker.lib, history, anchors, tailOffset, bytes, tracker.Value())
    }

    ghost predicate Valid()
      reads this, tracker
    {
      Consistent() && Refines(tracker.lib, anchorInterval, cap, history, anchors)
    }

    /** The source's `new` once the capacity check has passed. */
    constructor (lib: Library<P>, cols: U16, rows: U16, cap: nat)
      ensures Valid() && fresh(tracker)
      ensures tracker.lib == lib && history == [] && this.cap == cap
      ensures anchorInterval == IntervalFor(cap)
      ensures this.cols == cols && this.rows == rows
    {
      var t := new AnchorTracker(lib);
      tracker := t;
      bytes, headSeq, tailOffset, bytesSinceAnchor := [], 0, 0, 0;
      this.cap := cap;
      anchorInterval := IntervalFor(cap);
      this.cols, this.rows := cols, rows;
      history := [];
      anchors := [Anchor(0, View(t.state))];
      new;
      StartConsistent(lib);
      assert Offsets(anchors) == [0];
    }

    method SetDims(cols: U16, rows: U16)
      requires Valid()
      modifies this`cols, this`rows
      ensures Valid() && this.cols == cols && this.rows == rows
    {
      hide Refines, Represents;
      this.cols, this.rows := cols, rows;
    }

    /** Every byte is tracked, stored, possibly anchored, and makes room for itself. */
    method Push(chunk: seq<Byte>)
      requires Valid()
      modifies this, tracker
      ensures Valid()
      ensures history == old(history) + chunk && tailOffset >= old(tailOffset)
      ensures cols == old(cols) && rows == old(rows)
    {
      hide Refines, Represents;
      for i := 0 to |chunk|
        invariant Valid()
        invariant history == old(history) + chunk[..i] && tailOffset >= old(tailOffset)
        invariant cols == old(cols) && rows == old(rows)
      {
        assert chunk[..i + 1] == chunk[..i] + [chunk[i]];
        PushByte(chunk[i]);
      }
      assert chunk[..|chunk|] == chunk;
    }

    method PushByte(byte: Byte)
      requires Valid()
      modifies this, tracker
      ensures Valid()
      ensures history == old(history) + [byte] && tailOffset >= old(tailOffset)
      ensures cols == old(cols) && rows == old(rows)
    {
      hide Consistent, Refines, Kept, Placed, Offsets, SafeAt;
      WhatToKeep(byte);
      StoreByte(byte);
      MaybePlaceAnchor();
      MaybeEvict();
      StillRefines();
    }

    /** The anchors to keep after one more byte, from those there are. */
    lemma WhatToKeep(byte: Byte)
      requires Valid()
      ensures Consistent()
      ensures var longer := history + [byte];
              var offs := Offsets(anchors);
              Kept(if bytesSinceAnchor + 1 >= anchorInterval && SafeAt(tracker.lib, longer, |longer|) then offs + [|longer|] else offs,
                   |longer|, cap)
              == Kept(Placed(tracker.lib, anchorInterval, longer), |longer|, cap)
    {
      KeepRefining(tracker.lib, anchorInterval, cap, history, byte, Offsets(anchors));
      LastOffset(anchors);
      hide Represents, Kept, Placed, Offsets, SafeAt;
    }

    lemma StillRefines()
      requires Consistent()
      requires Offsets(anchors) == Kept(Placed(tracker.lib, anchorInterval, history), |history|, cap)
      ensures Valid()
    {
      hide Consistent, Kept, Placed, Offsets;
    }

    /** Tracking and storing, before the anchors are looked at. */
    method StoreByte(byte: Byte)
      requires Consistent()
      modifies this`bytes, this`headSeq, this`bytesSinceAnchor, this`history, tracker
      ensures Consistent()
      ensures history == old(history) + [byte] && bytesSinceAnchor == old(bytesSinceAnchor) + 1
      ensures tracker.atSafeSplit == SafeAt(tracker.lib, history, |history|)
    {
      hide Represents, Advance, SafeAt;
      Grow(tracker.lib, history, anchors, tailOffset, bytes, tracker.Value(), byte);
      AdvanceSafe(tracker.lib, history, anchors, tailOffset, bytes, tracker.Value(), byte);
      tracker.AdvanceBytes([byte]);
      bytes := bytes + [byte];
      headSeq := headSeq + 1;
      bytesSinceAnchor := bytesSinceAnchor + 1;
      history := history + [byte];
    }

    method MaybePlaceAnchor()
      requires Consistent() && bytesSinceAnchor > 0
      modifies this`anchors, this`bytesSinceAnchor
      ensures Consistent()
      ensures Offsets(anchors) ==
              if old(bytesSinceAnchor) >= anchorInterval && tracker.atSafeSplit
              then old(Offsets(anchors)) + [|history|]
              else old(Offsets(anchors))
    {
      hide Represents, Offsets;
      if bytesSinceAnchor < anchorInterval {
        return;
      }
      if !tracker.atSafeSplit {
        return;
      }
      Place(tracker.lib, history, anchors, tailOffset, bytes, tracker.Value());
      anchors := anchors + [Anchor(headSeq, View(tracker.state))];
      bytesSinceAnchor := 0;
    }

    method MaybeEvict()
      requires Consistent()
      modifies this`bytes, this`tailOffset, this`anchors
      ensures Consistent() && tailOffset >= old(tailOffset)
      ensures Offsets(anchors) == Kept(old(Offsets(anchors)), |history|, cap)
    {
      hide Represents, Kept, Offsets;
      while |bytes| > cap
        invariant Consistent() && tailOffset >= old(tailOffset)
        invariant Kept(Offsets(anchors), |history|, cap) == Kept(old(Offsets(anchors)), |history|, cap)
        decreases |bytes|
      {
        StopsEvicting(tracker.lib, history, anchors, tailOffset, bytes, tracker.Value(), cap);
        var target := EvictionTarget();
        if target.None? {
          break;
        }
        Evict(tracker.lib, history, anchors, tailOffset, bytes, tracker.Value());
        var toDrop := target.value - tailOffset;
        bytes := bytes[toDrop..];
        tailOffset := tailOffset + toDrop;
        DropStaleAnchors();
      }
      StopsEvicting(tracker.lib, history, anchors, tailOffset, bytes, tracker.Value(), cap);
    }

    /** Whenever a second anchor is there, evicting up to it frees bytes and stays inside the window. */
    function EvictionTarget(): (target: Option<nat>)
      requires Consistent()
      reads this, tracker
      ensures target.Some? <==> |anchors| > 1
      ensures target.Some? ==> target.value == anchors[1].offset && tailOffset < target.value <= headSeq
      ensures target.Some? ==> forall i :: 0 < i < |anchors| ==> target.value <= anchors[i].offset
    {
      SecondAnchor(tracker.lib, history, anchors);
      hide Represents, AnchorsHold;
      if |anchors| > 1 && anchors[1].offset > tailOffset then Some(anchors[1].offset) else None
    }

    method DropStaleAnchors()
      requires |anchors| > 1 && anchors[1].offset == tailOffset
      requires |anchors| > 2 ==> anchors[2].offset > tailOffset
      modifies this`anchors
      ensures anchors == old(anchors)[1..]
    {
      ghost var all := anchors;
      ghost var dropped := 0;
      while |anchors| > 1 && anchors[1].offset <= tailOffset
        invariant dropped <= 1
        invariant anchors == all[dropped..]
        decreases |anchors|
      {
        anchors := anchors[1..];
        dropped := dropped + 1;
      }
    }

    // ----- Reading the ring

    /** The bytes retained from `offset` on. */
    function From(offset: nat): seq<Byte>
      requires Consistent() && tailOffset <= offset <= headSeq
      reads this, tracker
      ensures From(offset) == history[offset..]
    {
      hide AnchorsHold, TrackedAt;
      bytes[offset - tailOffset..]
    }

    method TakeSnapshot() returns (s: Snapshot)
      requires Valid()
      ensures s.headSeq == |history| && s.cols == cols && s.rows == rows
      ensures tailOffset <= |history| && s.bytes == history[tailOffset..]
      ensures s.anchorState == StateAt(tracker.lib, history, tailOffset)
    {
      hide Refines, Offsets, StrictlyIncreasing;
      s := SnapshotFromAnchor(anchors[0]);
    }

    method SnapshotFromAnchor(a: Anchor) returns (s: Snapshot)
      requires Valid()
      requires tailOffset <= a.offset <= headSeq
      ensures s == Snapshot(cols, rows, a.state, history[a.offset..], |history|)
    {
      s := Snapshot(cols, rows, a.state, From(a.offset), headSeq);
    }

    /**
     At most `maxBytes` bytes, always the last ones of the history, with the state just
     before them: the newest anchor's suffix when that fits, otherwise nothing.
     */
    method SnapshotWithMaxBytes(maxBytes: nat) returns (s: Snapshot)
      requires Valid()
      ensures var start := BoundedStart(tracker.lib, anchorInterval, history, maxBytes);
              s == Snapshot(cols, rows, StateAt(tracker.lib, history, start), history[start..], |history|)
      ensures |s.bytes| <= maxBytes
    {
      NewestIsKept(tracker.lib, anchorInterval, cap, history, anchors);
      AnchorBounds(tracker.lib, history, anchors);
      assert history[..|history|] == history;
      hide Refines, Offsets, StrictlyIncreasing, LastPlaced, Advance;
      var i := |anchors|;
      while i > 0
        invariant 0 <= i <= |anchors|
        invariant forall j :: i <= j < |anchors| ==> headSeq - anchors[j].offset > maxBytes
      {
        i := i - 1;
        if headSeq - anchors[i].offset <= maxBytes {
          assert i == |anchors| - 1;
          s := SnapshotFromAnchor(anchors[i]);
          return;
        }
      }
      s := Snapshot(cols, rows, View(tracker.state), [], headSeq);
    }

    method Since(seq_: nat) returns (r: Option<DeltaSlice>)
      requires Valid()
      ensures r.Some? <==> tailOffset <= seq_ <= |history|
      ensures r.Some? ==> r.value == DeltaSlice(history[seq_..], |history|)
    {
      hide Refines, AnchorsHold;
      if seq_ < tailOffset || seq_ > headSeq {
        return None;
      }
      return Some(DeltaSlice(From(seq_), headSeq));
    }

    method HistoryPage(before: Option<nat>, maxBytes: nat) returns (page: HistorySlice)
      requires Valid()
      ensures tailOffset <= |history| && page == PageOf(history, tailOffset, before, maxBytes)
    {
      hide Refines, AnchorsHold, TrackedAt;
      var endOffset := Min(Max(if before.Some? then before.value else headSeq, tailOffset), headSeq);
      var pageLen := Min(endOffset - tailOffset, maxBytes);
      var startOffset := endOffset - pageLen;
      var startRel := startOffset - tailOffset;
      page := HistorySlice(startOffset, endOffset, bytes[startRel..startRel + pageLen], startOffset > tailOffset);
      assert history[tailOffset..][startRel..startRel + pageLen] == history[startOffset..endOffset];
    }
  }

  /** Where the eviction loop stops, all anchors are kept; where it goes on, the first is not. */
  lemma StopsEvicting<P>(lib: Library<P>, history: seq<Byte>, anchors: seq<Anchor>,
                         tail: nat, bytes: seq<Byte>, tracked: Tracked<P>, cap: nat)
    requires Represents(lib, history, anchors, tail, bytes, tracked)
    ensures |bytes| == |history| - tail
    ensures Kept(Offsets(anchors), |history|, cap)
            == if |bytes| > cap && |anchors| > 1 then Kept(Offsets(anchors)[1..], |history|, cap) else Offsets(anchors)
  {
    assert Offsets(anchors)[0] == anchors[0].offset;
    hide StateAt, TrackedAt, StrictlyIncreasing, Offsets;
  }

  lemma SecondAnchor<P>(lib: Library<P>, history: seq<Byte>, anchors: seq<Anchor>)
    requires AnchorsHold(lib, history, anchors)
    ensures |anchors| > 1 ==> anchors[0].offset < anchors[1].offset <= |history|
    ensures forall i :: 0 < i < |anchors| ==> anchors[1].offset <= anchors[i].offset
  {
    var offs := Offsets(anchors);
    forall i | 0 <= i < |anchors|
      ensures anchors[i].offset == offs[i]
    {
    }
    hide StateAt;
  }

  lemma LastOffset(anchors: seq<Anchor>)
    ensures anchors != [] ==> Offsets(anchors)[|anchors| - 1] == anchors[|anchors| - 1].offset
  {
  }

  lemma StartConsistent<P>(lib: Library<P>)
    ensures Represents(lib, [], [Anchor(0, View(INITIAL))], 0, [], Fresh(lib))
  {
  }

  lemma AnchorBounds<P>(lib: Library<P>, history: seq<Byte>, anchors: seq<Anchor>)
    requires AnchorsHold(lib, history, anchors)
    ensures forall i :: 0 <= i < |anchors| ==> anchors[0].offset <= anchors[i].offset <= anchors[|anchors| - 1].offset
    ensures forall i :: 0 <= i < |anchors| - 1 ==> anchors[i].offset < anchors[|anchors| - 1].offset
  {
    var offs := Offsets(anchors);
    forall i | 0 <= i < |anchors|
      ensures anchors[i].offset == offs[i]
    {
    }
    hide StateAt;
  }

  function LastPlaced<P>(lib: Library<P>, interval: nat, history: seq<Byte>): (n: nat)
    ensures n <= |history|
  {
    var offs := Placed(lib, interval, history);
    offs[|offs| - 1]
  }

  /**
   Whenever the window is over capacity, a single anchor is left and the bytes since it hold
   no safe split an interval or more away: only an unbroken sequence keeps the ring too long.
   */
  lemma OverCapacityMeansNoSafeSplit<P>(lib: Library<P>, interval: nat, cap: nat, history: seq<Byte>, n: nat)
    requires interval > 0
    requires var kept := Kept(Placed(lib, interval, history), |history|, cap);
             |history| - kept[0] > cap && kept[0] + interval <= n <= |history|
    ensures Kept(Placed(lib, interval, history), |history|, cap) == [LastPlaced(lib, interval, history)]
    ensures !SafeAt(lib, history, n)
  {
    KeptIsSuffix(Placed(lib, interval, history), |history|, cap);
    NoSafeSplitPastLast(lib, interval, history, n);
  }

  /** Where a snapshot of at most `maxBytes` bytes begins: at the newest anchor, or at the head. */
  function BoundedStart<P>(lib: Library<P>, interval: nat, history: seq<Byte>, maxBytes: nat): (start: nat)
    ensures start <= |history| && |history| - start <= maxBytes
  {
    var newest := LastPlaced(lib, interval, history);
    if |history| - newest <= maxBytes then newest else |history|
  }

  /** The capacity check of the source's `new`. */
  method NewRing<P>(lib: Library<P>, cols: U16, rows: U16, capacity: Option<nat>) returns (r: Option<ScrollbackRing<P>>)
    ensures r.Some? <==> capacity.None? || capacity.value <= MAX_CAPACITY_BYTES
    ensures r.Some? ==> r.value.Valid() && fresh(r.value) && fresh(r.value.tracker)
                        && r.value.tracker.lib == lib && r.value.history == []
                        && r.value.cap == (if capacity.Some? then capacity.value else DEFAULT_CAPACITY_BYTES)
  {
    var cap := if capacity.Some? then capacity.value else DEFAULT_CAPACITY_BYTES;
    if cap > MAX_CAPACITY_BYTES {
      return None;
    }
    var ring := new ScrollbackRing<P>(lib, cols, rows, cap);
    return Some(ring);
  }
}
