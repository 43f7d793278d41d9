/**
 The per-pair rate window of the relay worker (workers/relay-cloudflare/src/index.ts,
 `bumpRate`): bytes are counted in a window that restarts once it is a second old.
 */
module RateWindow {
  const WINDOW_MS := 1000

  datatype Window = Window(startedAt: int, bytes: nat)

  /** One attempt to pass `bytes` bytes at a time in milliseconds. */
  datatype Bump = Bump(at: int, bytes: nat)

  function Roll(w: Window, at: int): Window {
    if at - w.startedAt >= WINDOW_MS then Window(at, 0) else w
  }

  predicate Accepts(max: nat, w: Window, b: Bump) {
    Roll(w, b.at).bytes + b.bytes <= max
  }

  function After(max: nat, w: Window, b: Bump): Window {
    var rolled := Roll(w, b.at);
    if Accepts(max, w, b) then rolled.(bytes := rolled.bytes + b.bytes) else rolled
  }

  function Fold(max: nat, start: int, bumps: seq<Bump>): Window {
    if bumps == [] then Window(start, 0)
    else After(max, Fold(max, start, bumps[..|bumps| - 1]), bumps[|bumps| - 1])
  }

  /** The bytes let through at times from `from` to `to`, both included. */
  function AcceptedIn(max: nat, start: int, bumps: seq<Bump>, from: int, to: int): nat {
    if bumps == [] then 0
    else
      var front, last := bumps[..|bumps| - 1], bumps[|bumps| - 1];
      AcceptedIn(max, start, front, from, to)
      + if Accepts(max, Fold(max, start, front), last) && from <= last.at <= to then last.bytes else 0
  }

  /** A clock that does not run backwards. */
  predicate Ordered(start: int, bumps: seq<Bump>) {
    && (forall i :: 0 <= i < |bumps| ==> start <= bumps[i].at)
    && (forall i, j :: 0 <= i <= j < |bumps| ==> bumps[i].at <= bumps[j].at)
  }

  function LastTime(start: int, bumps: seq<Bump>): int {
    if bumps == [] then start else bumps[|bumps| - 1].at
  }

  /** The number of windows that can reach into an interval before one that starts at `s`. */
  function WindowsBefore(from: int, s: int): int {
    if s <= from then 0 else (s - from - 1) / WINDOW_MS + 1
  }

  /** What the current window says about the past. */
  predicate Inv(max: nat, start: int, bumps: seq<Bump>, from: int, to: int) {
    var w := Fold(max, start, bumps);
    var accepted := AcceptedIn(max, start, bumps, from, to);
    var last := LastTime(start, bumps);
    && w.bytes <= max
    && w.startedAt <= last < w.startedAt + WINDOW_MS
    && (last < from ==> accepted == 0)
    && accepted <= w.bytes + WindowsBefore(from, w.startedAt) * max
    && accepted <= (WindowsBefore(from, to) + 1) * max
  }

  lemma WindowsStep(from: int, s: int, s': int, max: nat)
    requires s' >= s + WINDOW_MS && from < s'
    ensures WindowsBefore(from, s) + 1 <= WindowsBefore(from, s')
    ensures (WindowsBefore(from, s) + 1) * max <= WindowsBefore(from, s') * max
  {
    if s > from {
      assert (s - from - 1) / WINDOW_MS + 1 <= (s' - from - 1) / WINDOW_MS;
    }
    Monotone(WindowsBefore(from, s) + 1, WindowsBefore(from, s'), max);
  }

  lemma WindowsMonotone(from: int, s: int, s': int, max: nat)
    requires s <= s'
    ensures 0 <= WindowsBefore(from, s) * max <= WindowsBefore(from, s') * max
  {
    Monotone(WindowsBefore(from, s), WindowsBefore(from, s'), max);
    Monotone(0, WindowsBefore(from, s), max);
  }

  lemma WindowsNonNegative(from: int, s: int, max: nat)
    ensures 0 <= WindowsBefore(from, s) * max
  {
    Monotone(0, WindowsBefore(from, s), max);
  }

  lemma Monotone(a: int, b: int, m: nat)
    requires a <= b
    ensures a * m <= b * m
  {
  }

  lemma PlusOne(a: int, m: int)
    ensures (a + 1) * m == a * m + m
  {
  }

  lemma {:induction false} KeepsInv(max: nat, start: int, bumps: seq<Bump>, from: int, to: int)
    requires Ordered(start, bumps)
    ensures Inv(max, start, bumps, from, to)
  {
    if bumps == [] {
      WindowsNonNegative(from, start, max);
      WindowsNonNegative(from, to, max);
      PlusOne(WindowsBefore(from, to), max);
      NothingYet(max, start, from, to);
    } else {
      var front, b := bumps[..|bumps| - 1], bumps[|bumps| - 1];
      KeepsInv(max, start, front, from, to);
      assert LastTime(start, front) <= b.at;
      OneMore(max, start, front, b, from, to);
      assert front + [b] == bumps;
    }
  }

  lemma NothingYet(max: nat, start: int, from: int, to: int)
    requires WindowsBefore(from, start) * max >= 0 && (WindowsBefore(from, to) + 1) * max >= 0
    ensures Inv(max, start, [], from, to)
  {
  }

  lemma OneMore(max: nat, start: int, front: seq<Bump>, b: Bump, from: int, to: int)
    requires Inv(max, start, front, from, to) && LastTime(start, front) <= b.at
    ensures Inv(max, start, front + [b], from, to)
  {
    var bumps := front + [b];
    assert bumps[..|bumps| - 1] == front;
    var w := Fold(max, start, front);
    var s, s' := w.startedAt, Roll(w, b.at).startedAt;
    var before := AcceptedIn(max, start, front, from, to);
    hide Fold, AcceptedIn;
    if s' != s && s' > from {
      WindowsStep(from, s, s', max);
      PlusOne(WindowsBefore(from, s), max);
      assert before <= WindowsBefore(from, s') * max;
    }
    WindowsNonNegative(from, s', max);
    WindowsNonNegative(from, to, max);
    if b.at <= to {
      WindowsMonotone(from, s', to, max);
    }
    PlusOne(WindowsBefore(from, to), max);
    Count(max, start, front, b, from, to);
    hide WindowsBefore;
  }

  lemma Count(max: nat, start: int, front: seq<Bump>, b: Bump, from: int, to: int)
    ensures var bumps := front + [b];
            && Fold(max, start, bumps) == After(max, Fold(max, start, front), b)
            && AcceptedIn(max, start, bumps, from, to)
               == AcceptedIn(max, start, front, from, to)
                  + (if Accepts(max, Fold(max, start, front), b) && from <= b.at <= to then b.bytes else 0)
            && LastTime(start, bumps) == b.at
  {
    var bumps := front + [b];
    assert bumps[..|bumps| - 1] == front;
  }

  /**
   Within any interval of `length` milliseconds a pair passes at most
   (floor((length - 1) / 1000) + 2) times the limit; so at most twice the limit in any second.
   */
  lemma RateIsBounded(max: nat, start: int, bumps: seq<Bump>, from: int, length: nat)
    requires Ordered(start, bumps)
    ensures AcceptedIn(max, start, bumps, from, from + length) <= ((length - 1) / WINDOW_MS + 2) * max
    ensures length <= 1000 ==> AcceptedIn(max, start, bumps, from, from + length) <= 2 * max
  {
    KeepsInv(max, start, bumps, from, from + length);
    assert length == 0 ==> (length - 1) / WINDOW_MS == -1;
    assert WindowsBefore(from, from + length) + 1 == (length - 1) / WINDOW_MS + 2;
    if length <= 1000 {
      assert (length - 1) / WINDOW_MS + 2 <= 2;
      Monotone((length - 1) / WINDOW_MS + 2, 2, max);
    }
  }

  /** Twice the limit does pass: a burst just before the window restarts, and one just after. */
  lemma TwoBurstsPass(max: nat, start: int)
    ensures AcceptedIn(max, start, [Bump(start + 999, max), Bump(start + 1000, max)], start + 999, start + 1000) == 2 * max
  {
    var first, second := Bump(start + 999, max), Bump(start + 1000, max);
    Count(max, start, [], first, start + 999, start + 1000);
    Count(max, start, [first], second, start + 999, start + 1000);
    assert [] + [first] == [first] && [first] + [second] == [first, second];
  }

  // ----- The window counts exactly what it let through

  lemma {:induction false} PastTheEnd(max: nat, start: int, bumps: seq<Bump>, from: int, to: int, later: int)
    requires Ordered(start, bumps) && LastTime(start, bumps) <= to <= later
    ensures AcceptedIn(max, start, bumps, from, to) == AcceptedIn(max, start, bumps, from, later)
  {
    if bumps != [] {
      var front := bumps[..|bumps| - 1];
      assert bumps[|bumps| - 1].at <= to;
      PastTheEnd(max, start, front, from, to, later);
    }
  }

  /** The counter holds what was let through since the window began, and the window began less than a second before. */
  lemma {:induction false} WindowCountsAccepted(max: nat, start: int, bumps: seq<Bump>)
    requires Ordered(start, bumps)
    ensures var w := Fold(max, start, bumps);
            && w.startedAt <= LastTime(start, bumps) < w.startedAt + WINDOW_MS
            && w.bytes == AcceptedIn(max, start, bumps, w.startedAt, LastTime(start, bumps))
  {
    if bumps != [] {
      var front, b := bumps[..|bumps| - 1], bumps[|bumps| - 1];
      var w := Fold(max, start, front);
      WindowCountsAccepted(max, start, front);
      assert front + [b] == bumps;
      Count(max, start, front, b, w.startedAt, b.at);
      Count(max, start, front, b, b.at, b.at);
      PastTheEnd(max, start, front, w.startedAt, LastTime(start, front), b.at);
      KeepsInv(max, start, front, b.at, b.at);
      hide AcceptedIn, Fold;
    }
  }

  /** An attempt is let through if and only if it fits what its window has left. */
  lemma AcceptedIff(max: nat, start: int, bumps: seq<Bump>, b: Bump)
    requires Ordered(start, bumps) && LastTime(start, bumps) <= b.at
    ensures var w := Fold(max, start, bumps);
            Accepts(max, w, b) <==>
            (if b.at >= w.startedAt + WINDOW_MS then 0 else AcceptedIn(max, start, bumps, w.startedAt, b.at)) + b.bytes <= max
  {
    var w := Fold(max, start, bumps);
    WindowCountsAccepted(max, start, bumps);
    PastTheEnd(max, start, bumps, w.startedAt, LastTime(start, bumps), b.at);
    hide AcceptedIn, Fold;
  }
}
