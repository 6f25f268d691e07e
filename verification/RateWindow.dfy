/** A fixed-window counter key (INCR, with PEXPIRE on the first hit) and what it
    implies for sliding intervals. */
module RateWindow {

  datatype Counter = Counter(count: int, until: nat)

  /** Value a GET yields: an expired key counts nothing. */
  function Current(c: Counter, now: nat): int { if now < c.until then c.count else 0 }

  function Incremented(c: Counter, now: nat, window: nat): Counter {
    if now < c.until then Counter(c.count + 1, c.until) else Counter(1, now + window)
  }

  /** Hit times grouped by the window they fell into. */
  type Windows = seq<seq<nat>>

  function Logged(ws: Windows, c: Counter, now: nat): Windows {
    if now < c.until && ws != [] then ws[..|ws| - 1] + [ws[|ws| - 1] + [now]] else ws + [[now]]
  }

  predicate WindowOk(w: seq<nat>, limit: int, window: nat) {
    && 0 < |w| <= limit
    && (forall i :: 0 <= i < |w| ==> w[0] <= w[i] < w[0] + window)
  }

  /** Windows open one after the other, each within its limit. */
  ghost predicate WindowsOk(ws: Windows, limit: int, window: nat) {
    && (forall i :: 0 <= i < |ws| ==> WindowOk(ws[i], limit, window))
    && (forall i :: 0 < i < |ws| && ws[i] != [] && ws[i - 1] != [] ==> ws[i - 1][0] + window <= ws[i][0])
  }

  /** The counter key and the log of its hits agree. */
  ghost predicate Tracks(ws: Windows, c: Counter, now: nat, limit: int, window: nat) {
    && WindowsOk(ws, limit, window)
    && (ws == [] ==> c.until <= now)
    && (ws != [] ==> ws[|ws| - 1] != [] && c.until == ws[|ws| - 1][0] + window && c.count == |ws[|ws| - 1]|
                     && ws[|ws| - 1][0] <= now)
  }

  lemma HitTracks(ws: Windows, c: Counter, now: nat, limit: int, window: nat)
    requires Tracks(ws, c, now, limit, window) && window > 0 && Current(c, now) < limit && limit > 0
    ensures Tracks(Logged(ws, c, now), Incremented(c, now, window), now, limit, window)
  {
    var vs := Logged(ws, c, now);
    if now < c.until {
      var w := ws[|ws| - 1];
      assert WindowOk(w, limit, window);
      assert vs[|vs| - 1] == w + [now];
      assert WindowOk(w + [now], limit, window);
    }
    forall i | 0 <= i < |vs| ensures WindowOk(vs[i], limit, window) {
      if i < |vs| - 1 { assert vs[i] == ws[i]; }
    }
    forall i | 0 < i < |vs| && vs[i] != [] && vs[i - 1] != [] ensures vs[i - 1][0] + window <= vs[i][0] {
      assert vs[i - 1] == ws[i - 1];
      if i < |ws| { assert WindowOk(ws[i], limit, window) && vs[i][0] == ws[i][0]; }
    }
  }

  // -------------------------------------------------------------- counting

  /** Hits in the half-open interval [from, to). */
  function HitsIn(w: seq<nat>, from: nat, to: nat): nat
    decreases |w|
  {
    if w == [] then 0
    else HitsIn(w[..|w| - 1], from, to) + (if from <= w[|w| - 1] < to then 1 else 0)
  }

  function AllHits(ws: Windows): seq<nat>
    decreases |ws|
  {
    if ws == [] then [] else AllHits(ws[..|ws| - 1]) + ws[|ws| - 1]
  }

  lemma {:induction false} HitsBounded(w: seq<nat>, from: nat, to: nat)
    ensures HitsIn(w, from, to) <= |w|
    ensures (forall i :: 0 <= i < |w| ==> !(from <= w[i] < to)) ==> HitsIn(w, from, to) == 0
    ensures w != [] && w[0] < from ==> HitsIn(w, from, to) <= |w| - 1
    decreases |w|
  {
    if w != [] { HitsBounded(w[..|w| - 1], from, to); }
  }

  lemma {:induction false} HitsConcat(a: seq<nat>, b: seq<nat>, from: nat, to: nat)
    ensures HitsIn(a + b, from, to) == HitsIn(a, from, to) + HitsIn(b, from, to)
    decreases |b|
  {
    if b == [] {
      assert a + b == a;
    } else {
      assert (a + b)[..|a + b| - 1] == a + b[..|b| - 1];
      HitsConcat(a, b[..|b| - 1], from, to);
    }
  }

  /** Windows that all begin before the interval's length ahead of it are silent. */
  lemma {:induction false} OldWindowsAreSilent(ws: Windows, limit: int, window: nat, from: nat, to: nat)
    requires WindowsOk(ws, limit, window) && ws != [] && ws[|ws| - 1] != [] && ws[|ws| - 1][0] + window <= from
    ensures HitsIn(AllHits(ws), from, to) == 0
    decreases |ws|
  {
    var front := ws[..|ws| - 1];
    var last := ws[|ws| - 1];
    assert WindowOk(last, limit, window);
    HitsConcat(AllHits(front), last, from, to);
    HitsBounded(last, from, to);
    if front != [] {
      assert WindowOk(ws[|ws| - 2], limit, window);
      OldWindowsAreSilent(front, limit, window, from, to);
    }
  }

  /** If the last window opened before the interval, at most its later hits count. */
  lemma OneWindowCounts(ws: Windows, limit: int, window: nat, from: nat, to: nat)
    requires WindowsOk(ws, limit, window) && ws != [] && ws[|ws| - 1] != [] && ws[|ws| - 1][0] < from
    ensures HitsIn(AllHits(ws), from, to) <= limit - 1
  {
    var front := ws[..|ws| - 1];
    var last := ws[|ws| - 1];
    assert WindowOk(last, limit, window);
    HitsConcat(AllHits(front), last, from, to);
    HitsBounded(last, from, to);
    if front != [] {
      assert WindowOk(ws[|ws| - 2], limit, window);
      OldWindowsAreSilent(front, limit, window, from, to);
    }
  }

  /** Any half-open interval as long as the window holds at most 2 * limit - 1 hits. */
  lemma {:induction false} SlidingBound(ws: Windows, limit: int, window: nat, from: nat)
    requires WindowsOk(ws, limit, window) && limit > 0
    ensures HitsIn(AllHits(ws), from, from + window) <= 2 * limit - 1
    decreases |ws|
  {
    if ws != [] {
      var front := ws[..|ws| - 1];
      var last := ws[|ws| - 1];
      assert WindowOk(last, limit, window);
      HitsConcat(AllHits(front), last, from, from + window);
      HitsBounded(last, from, from + window);
      if last[0] < from {
        OneWindowCounts(ws, limit, window, from, from + window);
      } else if last[0] >= from + window {
        SlidingBound(front, limit, window, from);
      } else if front != [] {
        assert WindowOk(ws[|ws| - 2], limit, window);
        assert front[|front| - 1][0] + window <= last[0];
        OneWindowCounts(front, limit, window, from, from + window);
      }
    }
  }
}
