/**
 * The generator's random source, as an oracle: any value in range may come, so what is proved of a pass holds for
 * every seed. How often a value comes is not part of it.
 */
module Draws {

  method Random() returns (r: real)
    ensures 0.0 <= r < 1.0
  {
    assert 0.0 <= 0.5 < 1.0;
    r :| 0.0 <= r < 1.0;
  }

  /** What a draw of `t` takes of a span. */
  function Part(span: real, t: real): real
  {
    span * t
  }

  /** The point that it picks between two bounds, whichever is the greater. */
  function At(lo: real, hi: real, t: real): real
  {
    lo + Part(hi - lo, t)
  }

  method Uniform(lo: real, hi: real) returns (r: real, ghost t: real)
    ensures 0.0 <= t < 1.0 && r == At(lo, hi, t)
  {
    var drawn := Random();
    t := drawn;
    r := At(lo, hi, drawn);
  }

  lemma Scaled(d: real, t: real)
    requires d >= 0.0 && 0.0 <= t <= 1.0
    ensures 0.0 <= d * t <= d
  {
  }

  lemma PartIsWithin(span: real, t: real)
    requires 0.0 <= t <= 1.0
    ensures if span >= 0.0 then 0.0 <= Part(span, t) <= span else span <= Part(span, t) <= 0.0
  {
    if span >= 0.0 {
      Scaled(span, t);
    } else {
      Scaled(-span, t);
    }
  }

  lemma AtIsBetween(lo: real, hi: real, t: real)
    requires 0.0 <= t <= 1.0
    ensures lo <= hi ==> lo <= At(lo, hi, t) <= hi
    ensures hi <= lo ==> hi <= At(lo, hi, t) <= lo
  {
    PartIsWithin(hi - lo, t);
  }

  method RandInt(lo: int, hi: int) returns (n: int)
    requires lo <= hi
    ensures lo <= n <= hi
  {
    assert lo <= lo <= hi;
    n :| lo <= n <= hi;
  }

  /** `rng.choice`, and any other pick whose order does not matter. */
  method Choose<T>(s: set<T>) returns (x: T)
    requires s != {}
    ensures x in s
  {
    x :| x in s;
  }

  /** `rng.sample(population, k)`, as a set. */
  method Sample<T>(population: set<T>, k: nat) returns (chosen: set<T>)
    requires k <= |population|
    ensures chosen <= population && |chosen| == k
  {
    chosen := {};
    var left := population;
    while |chosen| < k
      invariant |chosen| <= k && chosen + left == population && chosen !! left
      invariant |chosen| + |left| == |population|
    {
      var x := Choose(left);
      chosen := chosen + {x};
      left := left - {x};
    }
  }
}
