/** The bounded FIFO window shared by RollingAverage and AnomalyDetector:
    both append a sample and then drop the single oldest one when the
    window has grown past its capacity. */
module Window {

  function Min(a: int, b: int): int { if a <= b then a else b }

  /** The last `n` samples of `h` (all of `h` when it is shorter). */
  function Last(h: seq<real>, n: nat): seq<real>
  {
    h[|h| - Min(|h|, n)..]
  }

  /** One `Add`: append `v`, then reslice away the first element if the
      window is now longer than `cap`. */
  function Slide(w: seq<real>, v: real, cap: nat): seq<real>
  {
    var appended := w + [v];
    if |appended| > cap then appended[1..] else appended
  }

  /** `Last` keeps exactly `Min(|h|, n)` samples, and they are the newest
      ones of `h`, in order. */
  lemma LastIsNewestSuffix(h: seq<real>, n: nat)
    ensures |Last(h, n)| == Min(|h|, n) <= n
    ensures forall k | 0 <= k < |Last(h, n)| :: Last(h, n)[k] == h[|h| - Min(|h|, n) + k]
    ensures |h| <= n ==> Last(h, n) == h
  {
  }

  /** FIFO eviction: on a window within its capacity, one `Add` leaves the
      last `Min(|w| + 1, cap)` samples of `w + [v]`, so the sample dropped
      (if any) is the oldest. */
  lemma SlideIsFifo(w: seq<real>, v: real, cap: nat)
    requires |w| <= cap
    ensures |Slide(w, v, cap)| == Min(|w| + 1, cap) <= cap
    ensures Slide(w, v, cap) == Last(w + [v], cap)
    ensures |w| < cap ==> Slide(w, v, cap) == w + [v]
    ensures 0 < |w| == cap ==> Slide(w, v, cap) == w[1..] + [v]
  {
    if |w| == cap && cap > 0 {
      assert (w + [v])[1..] == w[1..] + [v];
    }
  }

  /** The invariant both analytics types keep: if the window is the last
      `cap` samples of the history, then after one `Add` it is the last
      `cap` samples of the history extended by the new sample. */
  lemma {:induction false} SlideKeepsLast(h: seq<real>, v: real, cap: nat)
    ensures Slide(Last(h, cap), v, cap) == Last(h + [v], cap)
  {
    var h' := h + [v];
    if |h| < cap {
      assert Last(h, cap) == h;
      assert Last(h', cap) == h';
    } else if cap == 0 {
      assert Last(h, cap) == [];
    } else {
      var w := h[|h| - cap..];
      assert Last(h, cap) == w;
      assert (w + [v])[1..] == h[|h| - cap + 1..] + [v];
      assert h'[|h'| - cap..] == h[|h| - cap + 1..] + [v];
    }
  }

  /** The window left by adding the samples of `h` one by one, oldest
      first, to an empty window of capacity `cap`. */
  function Replay(h: seq<real>, cap: nat): seq<real>
  {
    if h == [] then [] else Slide(Replay(h[..|h| - 1], cap), h[|h| - 1], cap)
  }

  /** However many samples have been added, the window is the newest
      `cap` of them, in order: the oldest is always the one evicted. */
  lemma {:induction false} ReplayIsLast(h: seq<real>, cap: nat)
    ensures Replay(h, cap) == Last(h, cap)
  {
    if h != [] {
      var p, v := h[..|h| - 1], h[|h| - 1];
      ReplayIsLast(p, cap);
      SlideKeepsLast(p, v, cap);
      assert h == p + [v];
    }
  }
}
