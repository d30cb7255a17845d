/**
 * The colour patterns: one value per sample point, meant to lie in [0, 1].
 * `random_pattern` draws them uniformly; `gaussian_process_pattern` draws a
 * Gaussian-process sample and rescales it with min-max normalisation.  The
 * random draws and the Gaussian-process sample come from outside the model:
 * they are parameters.
 */
module Patterns {
  import opened Geometry
  import opened Outcomes

  /**
   * `random_pattern`: `np.random.rand(len(sample_points))`, one draw per point.
   * `draw(i)` is the i-th number the generator returns.
   */
  function RandomPattern(points: seq<Point>, draw: nat -> real): (values: seq<real>)
    ensures |values| == |points|
  {
    seq(|points|, i requires 0 <= i < |points| => draw(i))
  }

  /** `np.random.rand` returns numbers in [0, 1), so every random value is a valid colour value. */
  lemma RandomPatternRange(points: seq<Point>, draw: nat -> real)
    requires forall i: nat :: 0.0 <= draw(i) < 1.0
    ensures forall v :: v in RandomPattern(points, draw) ==> 0.0 <= v <= 1.0
  {
  }

  /** `samples.min()`. */
  function SeqMin(xs: seq<real>): (m: real)
    requires xs != []
    ensures m in xs && forall i :: 0 <= i < |xs| ==> m <= xs[i]
  {
    if |xs| == 1 then xs[0]
    else
      var m := SeqMin(xs[1..]);
      assert forall i :: 1 <= i < |xs| ==> xs[i] == xs[1..][i - 1];
      if xs[0] <= m then xs[0] else m
  }

  /** `samples.max()`. */
  function SeqMax(xs: seq<real>): (m: real)
    requires xs != []
    ensures m in xs && forall i :: 0 <= i < |xs| ==> xs[i] <= m
  {
    if |xs| == 1 then xs[0]
    else
      var m := SeqMax(xs[1..]);
      assert forall i :: 1 <= i < |xs| ==> xs[i] == xs[1..][i - 1];
      if m <= xs[0] then xs[0] else m
  }

  /** All samples equal: the minimum is the maximum. */
  predicate Constant(xs: seq<real>)
  {
    forall i, j :: 0 <= i < |xs| && 0 <= j < |xs| ==> xs[i] == xs[j]
  }

  /** One rescaled value: where x lies between lo and hi, as a fraction of hi - lo. */
  function Normalize(x: real, lo: real, hi: real): (r: real)
    requires lo < hi
    ensures r * (hi - lo) == x - lo
  {
    (x - lo) / (hi - lo)
  }

  /** A positive factor keeps the sign of a product. */
  lemma PositiveFactor(a: real, d: real)
    requires d > 0.0
    ensures a > 0.0 <==> a * d > 0.0
    ensures a < 0.0 <==> a * d < 0.0
  {
  }

  /** Values between lo and hi land in [0, 1], lo itself on 0 and hi on 1. */
  lemma NormalizeRange(x: real, lo: real, hi: real)
    requires lo < hi && lo <= x <= hi
    ensures 0.0 <= Normalize(x, lo, hi) <= 1.0
    ensures x == lo ==> Normalize(x, lo, hi) == 0.0
    ensures x == hi ==> Normalize(x, lo, hi) == 1.0
  {
    var r, d := Normalize(x, lo, hi), hi - lo;
    assert r * d == x - lo;
    PositiveFactor(r, d);
    PositiveFactor(r - 1.0, d);
    assert (r - 1.0) * d == x - hi;
  }

  /** Normalising keeps the order of values, in both directions. */
  lemma NormalizeMonotone(x: real, y: real, lo: real, hi: real)
    requires lo < hi
    ensures x <= y <==> Normalize(x, lo, hi) <= Normalize(y, lo, hi)
  {
    var a, b, d := Normalize(x, lo, hi), Normalize(y, lo, hi), hi - lo;
    if a <= b {
      assert a * d <= b * d;
    } else {
      assert a * d > b * d;
    }
  }

  /**
   * The min-max rescale `(samples - min) / (max - min)` with its two failures
   * made explicit: an empty sample has no minimum, and a constant one has no
   * range to divide by.
   */
  function Rescale(xs: seq<real>): (r: Result<seq<real>>)
    ensures r.Err? <==> xs == [] || Constant(xs)
    ensures r.Err? ==> r.error == (if xs == [] then EmptySample else ConstantSample)
    ensures r.Ok? ==> |r.value| == |xs|
  {
    if xs == [] then Err(EmptySample)
    else
      var lo, hi := SeqMin(xs), SeqMax(xs);
      if hi == lo then
        Err(ConstantSample)
      else
        assert !Constant(xs) by {
          var i :| 0 <= i < |xs| && xs[i] == lo;
          var j :| 0 <= j < |xs| && xs[j] == hi;
        }
        Ok(seq(|xs|, i requires 0 <= i < |xs| => Normalize(xs[i], lo, hi)))
  }

  /** Each rescaled value is its sample normalised between the minimum and the maximum. */
  lemma RescaleAt(xs: seq<real>, i: int)
    requires Rescale(xs).Ok? && 0 <= i < |xs|
    ensures SeqMin(xs) < SeqMax(xs)
    ensures Rescale(xs).value[i] == Normalize(xs[i], SeqMin(xs), SeqMax(xs))
  {
  }

  /** Every rescaled value lies in [0, 1]. */
  lemma RescaleRange(xs: seq<real>)
    requires Rescale(xs).Ok?
    ensures forall v :: v in Rescale(xs).value ==> 0.0 <= v <= 1.0
  {
    var lo, hi := SeqMin(xs), SeqMax(xs);
    forall i | 0 <= i < |xs|
      ensures 0.0 <= Rescale(xs).value[i] <= 1.0
    {
      NormalizeRange(xs[i], lo, hi);
    }
  }

  /** The minimum maps to exactly 0 and the maximum to exactly 1, and both occur. */
  lemma RescaleEndpoints(xs: seq<real>)
    requires Rescale(xs).Ok?
    ensures forall i :: 0 <= i < |xs| && xs[i] == SeqMin(xs) ==> Rescale(xs).value[i] == 0.0
    ensures forall i :: 0 <= i < |xs| && xs[i] == SeqMax(xs) ==> Rescale(xs).value[i] == 1.0
    ensures 0.0 in Rescale(xs).value && 1.0 in Rescale(xs).value
  {
    var lo, hi := SeqMin(xs), SeqMax(xs);
    forall i | 0 <= i < |xs|
      ensures xs[i] == lo ==> Rescale(xs).value[i] == 0.0
      ensures xs[i] == hi ==> Rescale(xs).value[i] == 1.0
    {
      NormalizeRange(xs[i], lo, hi);
    }
    var i :| 0 <= i < |xs| && xs[i] == lo;
    var j :| 0 <= j < |xs| && xs[j] == hi;
    assert Rescale(xs).value[i] == 0.0;
    assert Rescale(xs).value[j] == 1.0;
  }

  /** The rescale keeps the order of the samples, in both directions. */
  lemma RescaleMonotone(xs: seq<real>, i: int, j: int)
    requires Rescale(xs).Ok? && 0 <= i < |xs| && 0 <= j < |xs|
    ensures xs[i] <= xs[j] <==> Rescale(xs).value[i] <= Rescale(xs).value[j]
  {
    NormalizeMonotone(xs[i], xs[j], SeqMin(xs), SeqMax(xs));
  }

  /** Rescaling an already rescaled pattern changes nothing. */
  lemma RescaleIdempotent(xs: seq<real>)
    requires Rescale(xs).Ok?
    ensures Rescale(Rescale(xs).value) == Rescale(xs)
  {
    var ys := Rescale(xs).value;
    RescaleRange(xs);
    RescaleEndpoints(xs);
    var lo, hi := SeqMin(ys), SeqMax(ys);
    assert lo == 0.0 by {
      assert 0.0 in ys;
      assert forall i :: 0 <= i < |ys| ==> 0.0 <= ys[i];
    }
    assert hi == 1.0 by {
      assert 1.0 in ys;
      assert forall i :: 0 <= i < |ys| ==> ys[i] <= 1.0;
    }
    assert Rescale(ys).value == ys;
  }

  /**
   * `gaussian_process_pattern`: the rescaled Gaussian-process sample, one
   * value in [0, 1] per sample, or the reason the rescale has no answer.
   */
  function GaussianProcessPattern(sample: seq<real>): (r: Result<seq<real>>)
    ensures r.Err? <==> sample == [] || Constant(sample)
    ensures r.Ok? ==> |r.value| == |sample| && forall v :: v in r.value ==> 0.0 <= v <= 1.0
  {
    var r := Rescale(sample);
    if r.Ok? then
      RescaleRange(sample);
      r
    else
      r
  }

  // ----- The rescale as written -----

  /** A float as numpy computes it here: a number, or the NaN that 0 / 0 gives. */
  datatype Float = Num(v: real) | NaN

  /**
   * Line 17 as written: `(samples - min) / (max - min)` with no guard.  When
   * every sample is equal each entry is 0 / 0, which numpy evaluates to NaN
   * (with a warning, not an error).  An empty sample still fails in `min`.
   */
  function RescaleAsWritten(xs: seq<real>): (r: Result<seq<Float>>)
    ensures r.Err? <==> xs == []
    ensures r.Ok? ==> |r.value| == |xs|
  {
    if xs == [] then Err(EmptySample)
    else
      var lo, hi := SeqMin(xs), SeqMax(xs);
      Ok(seq(|xs|, i requires 0 <= i < |xs| => if hi == lo then NaN else Num(Normalize(xs[i], lo, hi))))
  }

  /** Where the guarded rescale succeeds, the unguarded one computes the same numbers. */
  lemma RescaleAsWrittenAgrees(xs: seq<real>)
    requires Rescale(xs).Ok?
    ensures RescaleAsWritten(xs).Ok?
    ensures forall i :: 0 <= i < |xs| ==> RescaleAsWritten(xs).value[i] == Num(Rescale(xs).value[i])
  {
  }

  /** A constant sample, a single sample among them, rescales to nothing but NaN. */
  lemma RescaleAsWrittenConstant(xs: seq<real>)
    requires xs != [] && Constant(xs)
    ensures RescaleAsWritten(xs).Ok?
    ensures forall f :: f in RescaleAsWritten(xs).value ==> f == NaN
  {
    var lo, hi := SeqMin(xs), SeqMax(xs);
    var i :| 0 <= i < |xs| && xs[i] == lo;
    var j :| 0 <= j < |xs| && xs[j] == hi;
    assert hi == lo;
  }
}
