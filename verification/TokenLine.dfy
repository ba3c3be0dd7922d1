/** The arithmetic of one bucket, with time measured in tokens accrued: operation i happens at
    u[i], and took a token if a[i]. */
module TokenLine {

  function Min(a: real, b: real): real {
    if a < b then a else b
  }

  /** The level at w after the first n operations: full at the start, refilled one for one and
      capped between operations. */
  function Level(burst: real, u: seq<real>, a: seq<bool>, n: nat, w: real): real
    requires n <= |u| == |a|
  {
    if n == 0 then burst
    else Min(Level(burst, u, a, n - 1, u[n-1]) - (if a[n-1] then 1.0 else 0.0) + (w - u[n-1]), burst)
  }

  function Count(a: seq<bool>, j: nat, n: nat): nat
    requires j <= n <= |a|
  {
    if j == n then 0 else Count(a, j, n - 1) + if a[n-1] then 1 else 0
  }

  /** The line operation j puts above the level: full at u[j], less what was taken since. */
  function Line(burst: real, u: seq<real>, a: seq<bool>, j: nat, n: nat, w: real): real
    requires j < n <= |u| == |a|
  {
    burst + (w - u[j]) - Count(a, j, n) as real
  }

  ghost predicate BelowLines(burst: real, u: seq<real>, a: seq<bool>, n: nat, w: real, x: real)
    requires n <= |u| == |a|
  {
    forall j :: 0 <= j < n ==> x <= Line(burst, u, a, j, n, w)
  }

  /** One more operation shifts the lines and adds its own. */
  lemma LinesStep(burst: real, u: seq<real>, a: seq<bool>, n: nat, w: real, x: real)
    requires 0 < n <= |u| == |a|
    ensures var y := x - (w - u[n-1]) + (if a[n-1] then 1.0 else 0.0);
            BelowLines(burst, u, a, n, w, x) <==> y <= burst && BelowLines(burst, u, a, n - 1, u[n-1], y)
  {
    var y, m := x - (w - u[n-1]) + (if a[n-1] then 1.0 else 0.0), n - 1;
    assert Count(a, m, n) == Count(a, m, m) + if a[m] then 1 else 0;
    assert x <= Line(burst, u, a, m, n, w) <==> y <= burst;
    forall j | 0 <= j < m
      ensures x <= Line(burst, u, a, j, n, w) <==> y <= Line(burst, u, a, j, m, u[m])
    {
      assert Count(a, j, n) == Count(a, j, m) + if a[m] then 1 else 0;
    }
  }

  /** The level is the lowest of the cap and all lines. */
  lemma {:induction false} LowestLine(burst: real, u: seq<real>, a: seq<bool>, n: nat, w: real, x: real)
    requires n <= |u| == |a|
    ensures x <= Level(burst, u, a, n, w) <==> x <= burst && BelowLines(burst, u, a, n, w, x)
  {
    if n > 0 {
      LowestLine(burst, u, a, n - 1, u[n-1], x - (w - u[n-1]) + (if a[n-1] then 1.0 else 0.0));
      LinesStep(burst, u, a, n, w, x);
    }
  }

  lemma LevelIsCapped(burst: real, u: seq<real>, a: seq<bool>, n: nat, w: real)
    requires n <= |u| == |a|
    ensures Level(burst, u, a, n, w) <= burst
  {}

  /** What was taken from operation j on, and what is left, never exceed the cap plus the refill. */
  lemma {:induction false} Budget(burst: real, u: seq<real>, a: seq<bool>, j: nat, n: nat, w: real)
    requires j <= n <= |u| == |a| && j < |u| && u[j] <= w
    requires forall i :: j < i < n ==> u[j] <= u[i]
    ensures Count(a, j, n) as real + Level(burst, u, a, n, w) <= burst + (w - u[j])
  {
    if j == n {
      LevelIsCapped(burst, u, a, n, w);
    } else if j < n - 1 {
      Budget(burst, u, a, j, n - 1, u[n-1]);
    } else {
      LevelIsCapped(burst, u, a, j, u[j]);
      assert Count(a, j, j) == 0;
    }
  }
}
