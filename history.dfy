/**
 * The temperature sparkline (src/App.js): a rolling window of the last 30
 * temperatures, and the bar heights drawn from it, normalised into
 * [16, 64] pixels.
 */
module History {

  const Window: nat := 30

  const MinBar: real := 16.0
  const MaxBar: real := 64.0
  /** The height of every bar when there is nothing to normalise against. */
  const FlatBar: real := 24.0

  /** The last n elements of s, or all of s when it is shorter: JavaScript's s.slice(-n) for n >= 1. */
  function LastN<T>(s: seq<T>, n: nat): (r: seq<T>)
    requires n > 0
    ensures |r| == if |s| < n then |s| else n
    ensures r == s[|s| - |r|..]
  {
    if |s| <= n then s else s[|s| - n..]
  }

  /** The history update `[...h, temp].slice(-30)`. */
  function Push(h: seq<real>, temp: real): (r: seq<real>)
    ensures |r| == if |h| + 1 < Window then |h| + 1 else Window
    ensures r == h[|h| + 1 - |r|..] + [temp]
  {
    LastN(h + [temp], Window)
  }

  /** The history after recording each of xs in turn. */
  function PushAll(h: seq<real>, xs: seq<real>): (r: seq<real>)
    ensures |h| <= Window ==> |r| <= Window
    ensures xs != [] ==> |r| > 0 && r[|r| - 1] == xs[|xs| - 1]
    ensures xs == [] ==> r == h
  {
    if xs == [] then h else Push(PushAll(h, xs[..|xs| - 1]), xs[|xs| - 1])
  }

  lemma LastNAppend<T>(s: seq<T>, x: T, n: nat)
    requires n > 0
    ensures LastN(LastN(s, n) + [x], n) == LastN(s + [x], n)
  {
    if |s| > n {
      var t := s[|s| - n..];
      assert (t + [x])[1..] == (s + [x])[|s| + 1 - n..];
    }
  }

  /**
   * However many readings arrive, the history is the last 30 of all of
   * them, oldest first.
   */
  lemma {:induction false} PushAllKeepsLastWindow(h: seq<real>, xs: seq<real>)
    requires |h| <= Window
    ensures PushAll(h, xs) == LastN(h + xs, Window)
  {
    if xs != [] {
      var init, x := xs[..|xs| - 1], xs[|xs| - 1];
      assert xs == init + [x];
      PushAllKeepsLastWindow(h, init);
      calc {
        PushAll(h, xs);
        Push(PushAll(h, init), x);
        LastN(LastN(h + init, Window) + [x], Window);
        { LastNAppend(h + init, x, Window); }
        LastN(h + init + [x], Window);
        { assert h + init + [x] == h + xs; }
        LastN(h + xs, Window);
      }
    }
  }

  /** Math.min(...s). */
  function SeqMin(s: seq<real>): (m: real)
    requires |s| > 0
    ensures m in s
    ensures forall i :: 0 <= i < |s| ==> m <= s[i]
  {
    if |s| == 1 then s[0]
    else
      var rest := SeqMin(s[1..]);
      if s[0] <= rest then s[0] else rest
  }

  /** Math.max(...s). */
  function SeqMax(s: seq<real>): (m: real)
    requires |s| > 0
    ensures m in s
    ensures forall i :: 0 <= i < |s| ==> s[i] <= m
  {
    if |s| == 1 then s[0]
    else
      var rest := SeqMax(s[1..]);
      if s[0] >= rest then s[0] else rest
  }

  /** The height of one bar, `toH`: min maps to 16, max to 64, all bars 24 when min = max. */
  function ToH(v: real, mn: real, mx: real): (y: real)
    requires mn <= v <= mx
    ensures MinBar <= y <= MaxBar
    ensures mn == mx ==> y == FlatBar
    ensures mn < mx && v == mn ==> y == MinBar
    ensures mn < mx && v == mx ==> y == MaxBar
  {
    if mx == mn then FlatBar
    else
      var q := (v - mn) / (mx - mn);
      FractionBounds(v - mn, mx - mn);
      MinBar + q * (MaxBar - MinBar)
  }

  lemma FractionBounds(a: real, d: real)
    requires 0.0 <= a <= d && d > 0.0
    ensures 0.0 <= a / d <= 1.0
    ensures a == 0.0 ==> a / d == 0.0
    ensures a == d ==> a / d == 1.0
  {
  }

  lemma ToHMonotone(v: real, w: real, mn: real, mx: real)
    requires mn <= v <= w <= mx
    ensures ToH(v, mn, mx) <= ToH(w, mn, mx)
  {
    if mn < mx {
      var d := mx - mn;
      assert (v - mn) / d <= (w - mn) / d by { DivMonotone(v - mn, w - mn, d); }
    }
  }

  lemma DivMonotone(a: real, b: real, d: real)
    requires a <= b && d > 0.0
    ensures a / d <= b / d
  {
  }

  /** The `heights` expression: one bar per recorded temperature, [] for an empty history. */
  function Heights(h: seq<real>): (r: seq<real>)
    ensures |r| == |h|
    ensures forall i :: 0 <= i < |r| ==> MinBar <= r[i] <= MaxBar
    ensures |h| > 0 && SeqMin(h) == SeqMax(h) ==> forall i :: 0 <= i < |r| ==> r[i] == FlatBar
    ensures |h| > 0 && SeqMin(h) < SeqMax(h) ==>
              forall i :: 0 <= i < |r| ==>
                (h[i] == SeqMin(h) ==> r[i] == MinBar) && (h[i] == SeqMax(h) ==> r[i] == MaxBar)
  {
    if |h| == 0 then []
    else
      var mn, mx := SeqMin(h), SeqMax(h);
      seq(|h|, i requires 0 <= i < |h| => ToH(h[i], mn, mx))
  }

  /** Taller bars stand for warmer readings: the normalisation keeps the order of the values. */
  lemma HeightsPreserveOrder(h: seq<real>, i: nat, j: nat)
    requires i < |h| && j < |h| && h[i] <= h[j]
    ensures Heights(h)[i] <= Heights(h)[j]
  {
    ToHMonotone(h[i], h[j], SeqMin(h), SeqMax(h));
  }

  /** What the sparkline draws: 30 flat bars for an empty history, the normalised heights otherwise. */
  function Bars(h: seq<real>): (bars: seq<real>)
    ensures |bars| == if |h| == 0 then Window else |h|
    ensures |h| <= Window ==> |bars| <= Window
    ensures forall i :: 0 <= i < |bars| ==> MinBar <= bars[i] <= MaxBar
    ensures |h| == 0 ==> forall i :: 0 <= i < |bars| ==> bars[i] == FlatBar
    ensures |h| > 0 ==> bars == Heights(h)
  {
    var heights := Heights(h);
    if |heights| == 0 then seq(Window, _ => FlatBar) else heights
  }
}
