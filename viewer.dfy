/**
 * The level-selection arithmetic of the viewer (open_in_napari.py): how many
 * pyramid levels a layer has, how many voxels a level holds, which level is
 * the first under the voxel budget, how far XY decimation by integer steps
 * shrinks a volume, how the XY steps grow until the decimated volume fits,
 * the array used for the contrast preview, and the order in which render
 * modes are tried.
 */
module Viewer {
  import opened Wrappers
  import opened Blocks

  /** An array-like value: its shape attribute, None when it has none. */
  datatype Level = Level(shape: Option<seq<nat>>)

  /** The data of a layer. */
  datatype LayerData =
    | Pyramid(levels: seq<Level>)  // a sequence of arrays, one per pyramid level
    | Plain(shape: seq<nat>)       // a single array
    | Unsized                      // len() raises TypeError

  /** len(data), None when len() raises (an object without length, or a 0-d array). */
  function Len(d: LayerData): Option<nat> {
    match d
    case Pyramid(levels) => Some(|levels|)
    case Plain(shape) => if shape == [] then None else Some(shape[0])
    case Unsized => None
  }

  /** data[i]: a level of a pyramid, or the sub-array at index i of the first axis of an array. */
  function Element(d: LayerData, i: nat): Level
    requires Len(d).Some? && i < Len(d).value
  {
    match d
    case Pyramid(levels) => levels[i]
    case Plain(shape) => Level(Some(shape[1..]))
  }

  /** _count_multiscale_levels: len(data) when data is non-empty and data[0] has a shape, otherwise 0. */
  function CountLevels(d: LayerData): (n: nat)
    ensures n > 0 <==> Len(d).Some? && Len(d).value > 0 && Element(d, 0).shape.Some?
    ensures n > 0 ==> n == Len(d).value
  {
    match Len(d)
    case None => 0
    case Some(n) => if n <= 0 then 0 else if Element(d, 0).shape.Some? then n else 0
  }

  /** A single array counts the length of its first axis as its number of levels. */
  lemma PlainArrayCountsFirstAxis(shape: seq<nat>)
    requires shape != []
    ensures CountLevels(Plain(shape)) == shape[0]
  {
  }

  // ---------------------------------------------------------------------------
  // Voxel counts

  /** The product of the dimensions. */
  function Prod(s: seq<nat>): nat {
    if s == [] then 1 else Prod(s[..|s| - 1]) * s[|s| - 1]
  }

  /** A product is zero exactly when some dimension is zero. */
  lemma {:induction false} ProdZero(s: seq<nat>)
    ensures Prod(s) == 0 <==> exists i :: 0 <= i < |s| && s[i] == 0
  {
    if s != [] {
      var init := s[..|s| - 1];
      ProdZero(init);
      if exists i :: 0 <= i < |init| && init[i] == 0 {
        var i :| 0 <= i < |init| && init[i] == 0;
        assert s[i] == 0;
      }
      if exists i :: 0 <= i < |s| && s[i] == 0 {
        var i :| 0 <= i < |s| && s[i] == 0;
        if i < |init| { assert init[i] == 0; }
      }
    }
  }

  /** The product of a sequence with two more dimensions. */
  lemma ProdPair(l: seq<nat>, p: nat, q: nat)
    ensures Prod(l + [p, q]) == Prod(l) * p * q
  {
    var s := l + [p, q];
    assert s[..|s| - 1] == l + [p];
    assert (l + [p])[..|l|] == l;
  }

  /** The voxels of a level: the product of its shape, 0 for a missing or empty shape. */
  function Voxels(l: Level): nat {
    if l.shape.None? || l.shape.value == [] then 0 else Prod(l.shape.value)
  }

  /** _level_voxels: multiplies the dimensions together. */
  method LevelVoxels(l: Level) returns (vox: nat)
    ensures vox == Voxels(l)
  {
    if l.shape.None? || l.shape.value == [] {
      return 0;
    }
    var shape := l.shape.value;
    vox := 1;
    for k := 0 to |shape|
      invariant vox == Prod(shape[..k])
    {
      assert shape[..k + 1][..k] == shape[..k];
      vox := vox * shape[k];
    }
    assert shape[..|shape|] == shape;
  }

  /** The default voxel budget. */
  const DefaultMaxVoxels: int := 300_000_000

  /**
   * _choose_safe_3d_level: None for data without levels; otherwise the first
   * level whose voxel count is within the budget, or the last level when none is.
   */
  method ChooseSafe3DLevel(d: LayerData, maxVoxels: int) returns (r: Option<nat>)
    ensures r.None? <==> CountLevels(d) == 0
    ensures r.Some? ==> r.value < CountLevels(d)
    ensures r.Some? && (exists k :: 0 <= k < CountLevels(d) && Voxels(Element(d, k)) <= maxVoxels) ==>
      Voxels(Element(d, r.value)) <= maxVoxels && forall k :: 0 <= k < r.value ==> Voxels(Element(d, k)) > maxVoxels
    ensures r.Some? && (forall k :: 0 <= k < CountLevels(d) ==> Voxels(Element(d, k)) > maxVoxels) ==>
      r.value == CountLevels(d) - 1
  {
    var n := CountLevels(d);
    if n <= 0 {
      return None;
    }
    for level := 0 to n
      invariant forall k :: 0 <= k < level ==> Voxels(Element(d, k)) > maxVoxels
    {
      var v := LevelVoxels(Element(d, level));
      if v <= maxVoxels {
        return Some(level);
      }
    }
    return Some(n - 1);
  }

  // ---------------------------------------------------------------------------
  // XY decimation

  /** The shape after taking every yStep-th row and every xStep-th column: the last two dims are divided, rounding up. */
  function Decimated(shape: seq<nat>, yStep: int, xStep: int): (r: seq<nat>)
    requires |shape| >= 2 && yStep >= 1 && xStep >= 1
    ensures |r| == |shape|
  {
    var n := |shape|;
    shape[..n - 2] + [CeilDiv(shape[n - 2], yStep) as nat, CeilDiv(shape[n - 1], xStep) as nat]
  }

  /** The voxels of the decimated volume, 0 for a shape with fewer than two dims. */
  function Estimate(shape: seq<nat>, yStep: int, xStep: int): nat
    requires yStep >= 1 && xStep >= 1
  {
    if |shape| < 2 then 0 else Prod(Decimated(shape, yStep, xStep))
  }

  /** _estimate_xy_decimated_voxels: multiplies the dims, dividing the last two by their steps, rounding up. */
  method EstimateXYDecimated(shape: seq<nat>, yStep: int, xStep: int) returns (vox: nat)
    requires yStep >= 1 && xStep >= 1
    ensures vox == Estimate(shape, yStep, xStep)
  {
    if |shape| < 2 {
      return 0;
    }
    ghost var dims := Decimated(shape, yStep, xStep);
    vox := 1;
    for axis := 0 to |shape|
      invariant vox == Prod(dims[..axis])
    {
      var d := shape[axis];
      if axis == |shape| - 2 {
        d := CeilDiv(d, yStep);
      } else if axis == |shape| - 1 {
        d := CeilDiv(d, xStep);
      }
      assert d == dims[axis];
      assert dims[..axis + 1][..axis] == dims[..axis];
      vox := vox * d;
    }
    assert dims[..|shape|] == dims;
  }

  /** The volume of the leading dims (everything but y and x). */
  function Lead(shape: seq<nat>): nat
    requires |shape| >= 2
  {
    Prod(shape[..|shape| - 2])
  }

  /** The estimate is the leading volume times the decimated y and x extents. */
  lemma EstimateSplit(shape: seq<nat>, yStep: int, xStep: int)
    requires |shape| >= 2 && yStep >= 1 && xStep >= 1
    ensures CeilDiv(shape[|shape| - 2], yStep) >= 0 && CeilDiv(shape[|shape| - 1], xStep) >= 0
    ensures Estimate(shape, yStep, xStep)
      == Lead(shape) * CeilDiv(shape[|shape| - 2], yStep) * CeilDiv(shape[|shape| - 1], xStep)
  {
    var n := |shape|;
    ProdPair(shape[..n - 2], CeilDiv(shape[n - 2], yStep) as nat, CeilDiv(shape[n - 1], xStep) as nat);
  }

  /** Two quotients pinned by their bounds: the one with the larger divisor is the smaller. */
  lemma QuotientOrder(d: int, s: int, t: int, a: int, b: int)
    requires d >= 0 && 1 <= s <= t
    requires a * t >= d && (a - 1) * t < d && b * s >= d
    ensures 0 <= a <= b
  {
    assert b >= 0;
    assert b * s <= b * t;
    assert (a - 1 - b) * t == (a - 1) * t - b * t;
  }

  /** A quotient pinned by its bounds, for a dividend no larger than the divisor. */
  lemma QuotientAtMostOne(d: int, t: int, a: int)
    requires 0 <= d <= t && t >= 1
    requires a * t >= d && (a - 1) * t < d
    ensures 0 <= a <= 1
    ensures d == 0 ==> a == 0
  {
  }

  /** A quotient pinned by its bounds, for a positive dividend. */
  lemma QuotientAtLeastOne(d: int, t: int, a: int)
    requires d >= 1 && t >= 1 && a * t >= d
    ensures a >= 1
  {
  }

  /** A larger step never gives a larger ceiling quotient. */
  lemma CeilDivAntitone(d: nat, s: int, t: int)
    requires 1 <= s <= t
    ensures 0 <= CeilDiv(d, t) <= CeilDiv(d, s)
  {
    CeilDivBounds(d, s);
    CeilDivBounds(d, t);
    QuotientOrder(d, s, t, CeilDiv(d, t), CeilDiv(d, s));
  }

  lemma MulMonotone(a: nat, b: nat, c: nat, b': nat, c': nat)
    requires b <= b' && c <= c'
    ensures a * b * c <= a * b' * c'
  {
    assert a * b <= a * b';
    assert a * b * c <= a * b' * c;
    assert a * b' * c <= a * b' * c';
  }

  /** Larger steps never increase the estimate. */
  lemma EstimateAntitone(shape: seq<nat>, y: int, x: int, y': int, x': int)
    requires 1 <= y <= y' && 1 <= x <= x'
    ensures Estimate(shape, y', x') <= Estimate(shape, y, x)
  {
    if |shape| >= 2 {
      var n := |shape|;
      EstimateSplit(shape, y, x);
      EstimateSplit(shape, y', x');
      CeilDivAntitone(shape[n - 2], y, y');
      CeilDivAntitone(shape[n - 1], x, x');
      MulMonotone(Lead(shape), CeilDiv(shape[n - 2], y') as nat, CeilDiv(shape[n - 1], x') as nat,
                  CeilDiv(shape[n - 2], y) as nat, CeilDiv(shape[n - 1], x) as nat);
    }
  }

  /** Once the steps reach the y and x extents, the estimate is at most the leading volume. */
  lemma EstimateAtFullSteps(shape: seq<nat>, y: int, x: int)
    requires |shape| >= 2 && y >= 1 && x >= 1
    ensures shape[|shape| - 2] <= y && shape[|shape| - 1] <= x ==> Estimate(shape, y, x) <= Lead(shape)
  {
    var n := |shape|;
    if shape[n - 2] <= y && shape[n - 1] <= x {
      EstimateSplit(shape, y, x);
      var cy, cx := CeilDiv(shape[n - 2], y), CeilDiv(shape[n - 1], x);
      CeilDivBounds(shape[n - 2], y);
      CeilDivBounds(shape[n - 1], x);
      QuotientAtMostOne(shape[n - 2], y, cy);
      QuotientAtMostOne(shape[n - 1], x, cx);
      MulMonotone(Lead(shape), cy as nat, cx as nat, 1, 1);
    }
  }

  /** With non-empty y and x extents, no steps bring the estimate below the leading volume. */
  lemma EstimateAtLeastLead(shape: seq<nat>, y: int, x: int)
    requires |shape| >= 2 && y >= 1 && x >= 1 && shape[|shape| - 2] >= 1 && shape[|shape| - 1] >= 1
    ensures Estimate(shape, y, x) >= Lead(shape)
  {
    var n := |shape|;
    EstimateSplit(shape, y, x);
    var cy, cx := CeilDiv(shape[n - 2], y), CeilDiv(shape[n - 1], x);
    CeilDivBounds(shape[n - 2], y);
    CeilDivBounds(shape[n - 1], x);
    QuotientAtLeastOne(shape[n - 2], y, cy);
    QuotientAtLeastOne(shape[n - 1], x, cx);
    MulMonotone(Lead(shape), 1, 1, cy as nat, cx as nat);
  }

  // ---------------------------------------------------------------------------
  // Level clamp, initial steps and the decimation loop

  /** max(0, min(level, n_levels - 1)). */
  function ClampLevel(level: int, nLevels: int): (r: int)
    ensures nLevels >= 1 ==> 0 <= r < nLevels
    ensures 0 <= level < nLevels ==> r == level
    ensures nLevels >= 1 && level < 0 ==> r == 0
    ensures nLevels >= 1 && level >= nLevels ==> r == nLevels - 1
  {
    Max(0, Min(level, nLevels - 1))
  }

  /** round(n / d) with ties to the even neighbour, as Python's round does, for a positive d. */
  function RoundHalfEven(n: int, d: int): (r: int)
    requires d >= 1
    ensures -d <= 2 * (n - r * d) <= d
    ensures 2 * (n - r * d) == d || 2 * (n - r * d) == -d ==> r % 2 == 0
  {
    var q := n / d;
    var rem := n % d;
    if 2 * rem < d then q
    else if 2 * rem > d then q + 1
    else if q % 2 == 0 then q else q + 1
  }

  /** The initial step of an axis: max(1, round(base / max(1, target))), in exact arithmetic. */
  function InitialStep(baseDim: nat, targetDim: nat): (s: int)
    ensures s >= 1
  {
    Max(1, RoundHalfEven(baseDim, Max(1, targetDim)))
  }

  /** When the target level divides the base extent exactly, the initial step is the quotient. */
  lemma InitialStepExact(target: nat, k: nat)
    requires target >= 1 && k >= 1
    ensures InitialStep(target * k, target) == k
  {
    DivUnique(target * k, target, k);
  }

  /** A quotient and remainder pinned by their bounds. */
  lemma DivUnique(n: int, t: int, q: int)
    requires t >= 1 && q * t <= n < q * t + t
    ensures n / t == q && n % t == n - q * t
  {
    var q' := n / t;
    assert n == q' * t + n % t;
    assert (q' - q) * t == q' * t - q * t;
    MulAwayFromZero(q' - q, t);
  }

  /** A non-zero multiple of a positive t is at least t away from zero. */
  lemma MulAwayFromZero(u: int, t: int)
    requires t >= 1
    ensures u >= 1 ==> u * t >= t
    ensures u <= -1 ==> u * t <= -t
  {
  }

  /** The outcome of the first part of _select_preserve_z_level_for_display. */
  datatype Selection =
    | NoLevels          // not multiscale data: the layer is kept as it is
    | SingleScale(level: nat)  // the fallback to _select_single_scale_level_for_display
    | Decimate(level: nat, base: seq<nat>, y0: int, x0: int)  // XY decimation of level 0 from these steps
    | ShapeIndexError   // the target shape has no entry at the base's y or x axis

  /**
   * _select_preserve_z_level_for_display up to the decimation: clamps the
   * level, falls back to a single-scale selection unless both shapes are
   * present and non-empty and level 0 has at least three dims, and otherwise
   * derives the initial y and x steps from the ratio of the base extent to
   * the target extent.
   */
  function PreserveZPlan(d: LayerData, level: int): (s: Selection)
    ensures s == NoLevels <==> CountLevels(d) == 0
    ensures s.SingleScale? || s.Decimate? ==> s.level == ClampLevel(level, CountLevels(d)) && s.level < CountLevels(d)
    ensures s.Decimate? ==> |s.base| >= 3 && s.y0 >= 1 && s.x0 >= 1 && Element(d, 0).shape == Some(s.base)
    ensures s.ShapeIndexError? ==> CountLevels(d) > 0 && Element(d, 0).shape.Some? && |Element(d, 0).shape.value| >= 3
    ensures CountLevels(d) > 0 && (Element(d, 0).shape.None? || |Element(d, 0).shape.value| < 3) ==> s.SingleScale?
    ensures CountLevels(d) > 0 ==> var t := Element(d, ClampLevel(level, CountLevels(d))).shape;
      (t.None? || t.value == [] ==> s.SingleScale?)
    ensures s.Decimate? ==> var t := Element(d, s.level).shape;
      && t.Some? && |t.value| >= |s.base|
      && s.y0 == InitialStep(s.base[|s.base| - 2], t.value[|s.base| - 2])
      && s.x0 == InitialStep(s.base[|s.base| - 1], t.value[|s.base| - 1])
    ensures CountLevels(d) > 0 ==> var b, t := Element(d, 0).shape, Element(d, ClampLevel(level, CountLevels(d))).shape;
      (s.ShapeIndexError? <==> b.Some? && t.Some? && |b.value| >= 3 && t.value != [] && |t.value| < |b.value|)
    ensures CountLevels(d) > 0 ==> var b, t := Element(d, 0).shape, Element(d, ClampLevel(level, CountLevels(d))).shape;
      (s.Decimate? <==> b.Some? && |b.value| >= 3 && t.Some? && t.value != [] && |t.value| >= |b.value|)
  {
    var n := CountLevels(d);
    if n <= 0 then NoLevels
    else
      var lvl := ClampLevel(level, n) as nat;
      var base := Element(d, 0).shape;
      var target := Element(d, lvl).shape;
      if base.None? || base.value == [] || target.None? || target.value == [] || |base.value| < 3 then SingleScale(lvl)
      else if |target.value| < |base.value| then ShapeIndexError
      else
        var b, t := base.value, target.value;
        Decimate(lvl, b, InitialStep(b[|b| - 2], t[|b| - 2]), InitialStep(b[|b| - 1], t[|b| - 1]))
  }

  /**
   * When the target level's y and x extents go into level 0's exactly ky and
   * kx times, the initial steps are ky and kx.
   */
  lemma PreserveZExactSteps(d: LayerData, level: int, ky: nat, kx: nat)
    requires PreserveZPlan(d, level).Decimate?
    requires var s := PreserveZPlan(d, level); var t := Element(d, s.level).shape.value; var n := |s.base|;
      ky >= 1 && kx >= 1 && t[n - 2] >= 1 && t[n - 1] >= 1
      && s.base[n - 2] == t[n - 2] * ky && s.base[n - 1] == t[n - 1] * kx
    ensures PreserveZPlan(d, level).y0 == ky && PreserveZPlan(d, level).x0 == kx
  {
    var s := PreserveZPlan(d, level);
    var t := Element(d, s.level).shape.value;
    var n := |s.base|;
    InitialStepExact(t[n - 2], ky);
    InitialStepExact(t[n - 1], kx);
  }

  /** The step pair of the decimation loop. */
  datatype Steps = Steps(y: int, x: int)

  /** One iteration of the loop: the smaller step grows by one, y on a tie. */
  function Step(s: Steps): (t: Steps)
    ensures t.y + t.x == s.y + s.x + 1 && t.y >= s.y && t.x >= s.x
    ensures s.y <= s.x ==> t == Steps(s.y + 1, s.x)
    ensures s.y > s.x ==> t == Steps(s.y, s.x + 1)
  {
    if s.y <= s.x then Steps(s.y + 1, s.x) else Steps(s.y, s.x + 1)
  }

  /** The steps after n iterations: neither step decreases, and each iteration adds one to their sum. */
  function Walk(s: Steps, n: nat): (t: Steps)
    ensures t.y >= s.y && t.x >= s.x && t.y + t.x == s.y + s.x + n
  {
    if n == 0 then s else Step(Walk(s, n - 1))
  }

  /** The loop's exit condition, for steps of at least 1. */
  predicate Fits(shape: seq<nat>, s: Steps, maxVoxels: int)
    requires s.y >= 1 && s.x >= 1
  {
    Estimate(shape, s.y, s.x) <= maxVoxels
  }

  /** The first n states of the walk from s are all over budget. */
  predicate OverBudgetBefore(shape: seq<nat>, s: Steps, n: nat, maxVoxels: int)
    requires s.y >= 1 && s.x >= 1
  {
    forall m: nat :: m < n ==> !Fits(shape, Walk(s, m), maxVoxels)
  }

  /**
   * The decimation while-loop: from the given steps, the smaller step grows by
   * one (y on a tie) while the estimate exceeds the budget. The result is the
   * first state of that walk that fits. The loop ends only when the leading
   * volume fits the budget.
   */
  method GrowSteps(shape: seq<nat>, y0: int, x0: int, maxVoxels: int) returns (y: int, x: int)
    requires |shape| >= 2 && y0 >= 1 && x0 >= 1
    requires Lead(shape) <= maxVoxels
    ensures y0 <= y && x0 <= x
    ensures Estimate(shape, y, x) <= maxVoxels
    ensures exists n: nat :: Walk(Steps(y0, x0), n) == Steps(y, x) && OverBudgetBefore(shape, Steps(y0, x0), n, maxVoxels)
  {
    var dy, dx := shape[|shape| - 2], shape[|shape| - 1];
    var bound := Max(Max(dy, dx), Max(y0, x0));
    y, x := y0, x0;
    ghost var n: nat := 0;
    while Estimate(shape, y, x) > maxVoxels
      invariant y0 <= y <= bound && x0 <= x <= bound
      invariant Walk(Steps(y0, x0), n) == Steps(y, x)
      invariant OverBudgetBefore(shape, Steps(y0, x0), n, maxVoxels)
      decreases 2 * bound - y - x
    {
      EstimateAtFullSteps(shape, y, x);
      if y <= x {
        y := y + 1;
      } else {
        x := x + 1;
      }
      n := n + 1;
    }
  }

  /** (vox / max_voxels) ** 0.5 of a negative budget is a complex number, on which np.ceil raises TypeError. */
  datatype DecimateError = ComplexScaleUp

  /**
   * The decimation step of _select_preserve_z_level_for_display from the
   * initial steps: with a non-zero budget that the estimate exceeds, each
   * step first rises to its jump value (the float scale-up, given here), and
   * the steps then grow along the walk until the estimate fits. A negative
   * budget below a positive estimate makes the scale-up complex, and the
   * script fails there. The growth uses GrowStepsBounded, which also stops
   * where no steps can fit; whenever the loop as written terminates (the
   * leading volume fits the budget), the result is the same first fitting
   * state of the walk.
   */
  method DecimateXY(shape: seq<nat>, y0: int, x0: int, yJump: int, xJump: int, maxVoxels: int)
    returns (r: Result<Steps, DecimateError>)
    requires |shape| >= 2 && y0 >= 1 && x0 >= 1
    ensures r.Err? <==> maxVoxels < 0 && Estimate(shape, y0, x0) > 0
    ensures r.Ok? ==> y0 <= r.value.y && x0 <= r.value.x
    ensures maxVoxels == 0 || Estimate(shape, y0, x0) <= maxVoxels ==> r == Ok(Steps(y0, x0))
    ensures r.Ok? && maxVoxels != 0 && Lead(shape) <= maxVoxels ==> Estimate(shape, r.value.y, r.value.x) <= maxVoxels
    ensures r.Ok? && maxVoxels != 0 && Estimate(shape, r.value.y, r.value.x) > maxVoxels ==>
      forall y', x' :: y' >= 1 && x' >= 1 ==> Estimate(shape, y', x') > maxVoxels
    ensures r.Ok? && maxVoxels != 0 && Estimate(shape, y0, x0) > maxVoxels ==>
      var start := Steps(Max(y0, yJump), Max(x0, xJump));
      exists n: nat :: Walk(start, n) == r.value && OverBudgetBefore(shape, start, n, maxVoxels)
  {
    var vox := EstimateXYDecimated(shape, y0, x0);
    if maxVoxels != 0 && vox > maxVoxels {
      if maxVoxels < 0 && vox > 0 {
        return Err(ComplexScaleUp);
      }
      var y, x, fits := GrowStepsBounded(shape, Max(y0, yJump), Max(x0, xJump), maxVoxels);
      var full := Max(shape[|shape| - 2], shape[|shape| - 1]) + 1;
      EstimateAtFullSteps(shape, full, full);
      return Ok(Steps(y, x));
    }
    return Ok(Steps(y0, x0));
  }

  /**
   * When the leading volume exceeds the budget (and y and x are non-empty),
   * every pair of steps leaves the estimate over budget, so the loop of
   * GrowSteps, as the script writes it, never exits.
   */
  lemma GrowNeverFits(shape: seq<nat>, maxVoxels: int, y: int, x: int)
    requires |shape| >= 2 && shape[|shape| - 2] >= 1 && shape[|shape| - 1] >= 1
    requires Lead(shape) > maxVoxels && y >= 1 && x >= 1
    ensures Estimate(shape, y, x) > maxVoxels
  {
    EstimateAtLeastLead(shape, y, x);
  }

  /** A concrete case: a 2000-deep 512 x 512 volume under a budget of 1000 voxels. */
  lemma GrowNeverFitsExample(y: int, x: int)
    requires y >= 1 && x >= 1
    ensures Estimate([1, 1, 2000, 512, 512], y, x) > 1000
  {
    var shape: seq<nat> := [1, 1, 2000, 512, 512];
    assert shape[..3] == [1, 1, 2000];
    assert Prod([1]) == 1 by { assert [1][..0] == []; }
    assert Prod([1, 1]) == 1 by { assert [1, 1][..1] == [1]; }
    assert Prod([1, 1, 2000]) == 2000 by { assert [1, 1, 2000][..2] == [1, 1]; }
    GrowNeverFits(shape, 1000, y, x);
  }

  /**
   * The loop with the stop it evidently needs: growth also ends once both
   * steps have reached their extents, where further growth cannot shrink the
   * estimate. The result fits exactly when the budget is reachable at all.
   */
  method GrowStepsBounded(shape: seq<nat>, y0: int, x0: int, maxVoxels: int) returns (y: int, x: int, fits: bool)
    requires |shape| >= 2 && y0 >= 1 && x0 >= 1
    ensures y0 <= y && x0 <= x
    ensures fits <==> Estimate(shape, y, x) <= maxVoxels
    ensures !fits ==> y >= shape[|shape| - 2] && x >= shape[|shape| - 1]
    ensures !fits ==> forall y', x' :: y' >= 1 && x' >= 1 ==> Estimate(shape, y', x') > maxVoxels
    ensures exists n: nat :: Walk(Steps(y0, x0), n) == Steps(y, x) && OverBudgetBefore(shape, Steps(y0, x0), n, maxVoxels)
  {
    var dy, dx := shape[|shape| - 2], shape[|shape| - 1];
    var bound := Max(Max(dy, dx), Max(y0, x0));
    y, x := y0, x0;
    ghost var n: nat := 0;
    while Estimate(shape, y, x) > maxVoxels && !(y >= dy && x >= dx)
      invariant y0 <= y <= bound && x0 <= x <= bound
      invariant Walk(Steps(y0, x0), n) == Steps(y, x)
      invariant OverBudgetBefore(shape, Steps(y0, x0), n, maxVoxels)
      decreases 2 * bound - y - x
    {
      if y <= x {
        y := y + 1;
      } else {
        x := x + 1;
      }
      n := n + 1;
    }
    fits := Estimate(shape, y, x) <= maxVoxels;
    if !fits {
      forall y', x' | y' >= 1 && x' >= 1 ensures Estimate(shape, y', x') > maxVoxels {
        OverBudgetEverywhere(shape, y, x, y', x', maxVoxels);
      }
    }
  }

  /** Over budget at full steps means over budget at any steps. */
  lemma OverBudgetEverywhere(shape: seq<nat>, y: int, x: int, y': int, x': int, maxVoxels: int)
    requires |shape| >= 2 && y >= shape[|shape| - 2] && x >= shape[|shape| - 1] && y >= 1 && x >= 1
    requires Estimate(shape, y, x) > maxVoxels && y' >= 1 && x' >= 1
    ensures Estimate(shape, y', x') > maxVoxels
  {
    var n := |shape|;
    EstimateAtFullSteps(shape, y, x);
    EstimateSplit(shape, y', x');
    if shape[n - 2] >= 1 && shape[n - 1] >= 1 {
      EstimateAtLeastLead(shape, y', x');
    } else {
      EstimateSplit(shape, y, x);
      ZeroExtentEstimate(shape, y, x, y', x');
    }
  }

  /** With an empty y or x extent, the estimate is zero for all steps. */
  lemma ZeroExtentEstimate(shape: seq<nat>, y: int, x: int, y': int, x': int)
    requires |shape| >= 2 && y >= 1 && x >= 1 && y' >= 1 && x' >= 1
    requires shape[|shape| - 2] == 0 || shape[|shape| - 1] == 0
    ensures Estimate(shape, y, x) == 0 && Estimate(shape, y', x') == 0
  {
    var n := |shape|;
    EstimateSplit(shape, y, x);
    EstimateSplit(shape, y', x');
    if shape[n - 2] == 0 {
      CeilDivBounds(0, y);
      CeilDivBounds(0, y');
      QuotientAtMostOne(0, y, CeilDiv(0, y));
      QuotientAtMostOne(0, y', CeilDiv(0, y'));
    } else {
      CeilDivBounds(0, x);
      CeilDivBounds(0, x');
      QuotientAtMostOne(0, x, CeilDiv(0, x));
      QuotientAtMostOne(0, x', CeilDiv(0, x'));
    }
  }

  // ---------------------------------------------------------------------------
  // Preview level and render modes

  /** What _pick_preview_array returns: the data itself, or one of its levels. */
  datatype Preview = WholeData | LevelAt(index: nat)

  /** _pick_preview_array: level min(2, n_levels - 1) of multiscale data, otherwise the data. */
  function PickPreview(d: LayerData): (p: Preview)
    ensures CountLevels(d) == 0 <==> p == WholeData
    ensures p.LevelAt? ==> p.index < CountLevels(d) && p.index == Min(2, CountLevels(d) - 1)
  {
    var n := CountLevels(d);
    if n <= 0 then WholeData else LevelAt(Min(2, n - 1))
  }

  /** RENDER_MODES. */
  const RenderModes: seq<string> := ["attenuated_mip", "mip", "translucent", "iso", "minip", "average", "additive"]

  /** [m for m in modes if m != mode] */
  function Without(modes: seq<string>, mode: string): (r: seq<string>)
    ensures forall m :: m in r <==> m in modes && m != mode
  {
    if modes == [] then []
    else (if modes[0] != mode then [modes[0]] else []) + Without(modes[1..], mode)
  }

  /** The render modes in the order they are tried: the requested one, then every other mode in order. */
  function RenderCandidates(rendering: string): seq<string> {
    [rendering] + Without(RenderModes, rendering)
  }

  predicate Distinct(s: seq<string>) {
    forall i, j :: 0 <= i < j < |s| ==> s[i] != s[j]
  }

  /** Filtering a list without repeats drops exactly the one occurrence of the mode, keeping the order. */
  lemma {:induction false} WithoutDistinct(modes: seq<string>, mode: string, p: nat)
    requires Distinct(modes) && p < |modes| && modes[p] == mode
    ensures Without(modes, mode) == modes[..p] + modes[p + 1..]
  {
    if p > 0 {
      WithoutDistinct(modes[1..], mode, p - 1);
      assert modes[1..][..p - 1] == modes[1..p];
      assert modes[1..][p - 1 + 1..] == modes[p + 1..];
      assert modes[..p] == [modes[0]] + modes[1..p];
    } else {
      NotInWithout(modes[1..], mode);
    }
  }

  lemma {:induction false} NotInWithout(modes: seq<string>, mode: string)
    requires mode !in modes
    ensures Without(modes, mode) == modes
  {
    if modes != [] {
      NotInWithout(modes[1..], mode);
    }
  }

  /** The requested mode of a list without repeats, then the others in order: no mode twice. */
  lemma {:induction false} CandidatesOf(modes: seq<string>, p: nat)
    requires Distinct(modes) && p < |modes|
    ensures [modes[p]] + Without(modes, modes[p]) == [modes[p]] + modes[..p] + modes[p + 1..]
    ensures Distinct([modes[p]] + Without(modes, modes[p]))
  {
    WithoutDistinct(modes, modes[p], p);
    var c := [modes[p]] + modes[..p] + modes[p + 1..];
    forall i, j | 0 <= i < j < |c| ensures c[i] != c[j] {
      var a := if i == 0 then p else if i <= p then i - 1 else i;
      var b := if j == 0 then p else if j <= p then j - 1 else j;
      assert c[i] == modes[a] && c[j] == modes[b] && a != b;
    }
  }

  /** The seven render modes are pairwise different. */
  lemma RenderModesDistinct()
    ensures Distinct(RenderModes)
  {
    var r := RenderModes;
    assert r[0][0] == 'a' && r[1][0] == 'm' && r[2][0] == 't' && r[3][0] == 'i' && r[4][0] == 'm' && r[5][0] == 'a' && r[6][0] == 'a';
    assert r[0][1] == 't' && r[5][1] == 'v' && r[6][1] == 'd' && r[1][1] == 'i' && r[4][1] == 'i';
    assert |r[1]| == 3 && |r[4]| == 5;
  }

  /**
   * For a mode of RENDER_MODES (the only values the command line accepts),
   * the candidates are that mode followed by the other six in their order:
   * seven modes, each tried once.
   */
  lemma RenderCandidatesOrder(p: nat)
    requires p < |RenderModes|
    ensures RenderCandidates(RenderModes[p]) == [RenderModes[p]] + RenderModes[..p] + RenderModes[p + 1..]
    ensures |RenderCandidates(RenderModes[p])| == |RenderModes|
    ensures Distinct(RenderCandidates(RenderModes[p]))
  {
    RenderModesDistinct();
    CandidatesOf(RenderModes, p);
  }
}
