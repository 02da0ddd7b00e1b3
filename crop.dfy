/**
 * The z crop of an OME-Zarr pyramid (crop_omezarr_z.py): the inclusive
 * level-0 range [z_start, z_end] is checked, turned into a half-open range,
 * remapped onto every level by that level's z scale relative to level 0,
 * clamped to the level's depth, and copied slab by slab into a destination
 * whose shape and chunks equal the source's except along z. The root
 * attributes are kept, with the OMERO name replaced and a crop record added.
 *
 * Scales are exact reals (no floating-point rounding). An array is seen
 * along its z axis: element z of an array stands for the whole slice at
 * depth z over every other axis.
 */
module Crop {
  import opened Wrappers
  import opened Text
  import opened Blocks

  datatype CropError =
    | NegativeStart                  // --z-start must be >= 0
    | EndBeforeStart                 // --z-end must be >= --z-start
    | NoMultiscales                  // Input is missing multiscales metadata
    | NoDatasets                     // No multiscale datasets found in metadata
    | ZAxisOutOfBounds(path: string)   // Z axis index out of bounds for the dataset
    | EmptyCrop(path: string)        // Crop produced empty Z for the level

  // ---------------------------------------------------------------------------
  // Axes and scales

  /** An entry of "axes": its "name", None when the key is missing. */
  datatype Axis = Axis(name: Option<string>)

  /** An entry of "coordinateTransformations": its "type" and its "scale" when that is a list. */
  datatype Transform = Transform(kind: Option<string>, scale: Option<seq<real>>)

  /** str(axis.get("name", "")).lower() == "z" */
  predicate IsZ(a: Axis) {
    Lower(a.name.GetOr("")) == "z"
  }

  /** The typical OME-Zarr axis order t, c, z, y, x puts z at index 2. */
  const DefaultZAxis: nat := 2

  /** The index of the first axis named z, if any. */
  function FirstZ(axes: seq<Axis>): (r: Option<nat>)
    ensures r.Some? ==> r.value < |axes|
  {
    if axes == [] then None
    else if IsZ(axes[0]) then Some(0)
    else match FirstZ(axes[1..]) { case None => None case Some(i) => Some(i + 1) }
  }

  /** FirstZ finds the first z axis, and finds none exactly when no axis is named z. */
  lemma {:induction false} FirstZIsFirst(axes: seq<Axis>)
    ensures FirstZ(axes).Some? ==>
      IsZ(axes[FirstZ(axes).value]) && forall k :: 0 <= k < FirstZ(axes).value ==> !IsZ(axes[k])
    ensures FirstZ(axes).None? <==> forall k :: 0 <= k < |axes| ==> !IsZ(axes[k])
  {
    if axes != [] && !IsZ(axes[0]) {
      FirstZIsFirst(axes[1..]);
      assert forall k :: 1 <= k < |axes| ==> axes[k] == axes[1..][k - 1];
    }
  }

  function ZAxisOf(axes: seq<Axis>): nat {
    FirstZ(axes).GetOr(DefaultZAxis)
  }

  /** _find_z_axis: the first axis named z (in any case), otherwise 2. */
  method FindZAxis(axes: seq<Axis>) returns (i: nat)
    ensures i == ZAxisOf(axes)
    ensures (exists k :: 0 <= k < |axes| && IsZ(axes[k])) ==>
      i < |axes| && IsZ(axes[i]) && forall k :: 0 <= k < i ==> !IsZ(axes[k])
    ensures (forall k :: 0 <= k < |axes| ==> !IsZ(axes[k])) ==> i == DefaultZAxis
  {
    FirstZIsFirst(axes);
    var k := 0;
    while k < |axes|
      invariant 0 <= k <= |axes|
      invariant forall m :: 0 <= m < k ==> !IsZ(axes[m])
    {
      if IsZ(axes[k]) {
        FirstZUnique(axes, k);
        return k;
      }
      k := k + 1;
    }
    return DefaultZAxis;
  }

  /** An axis named z with none before it is the one FirstZ finds. */
  lemma FirstZUnique(axes: seq<Axis>, i: nat)
    requires i < |axes| && IsZ(axes[i]) && forall k :: 0 <= k < i ==> !IsZ(axes[k])
    ensures FirstZ(axes) == Some(i)
  {
    FirstZIsFirst(axes);
  }

  /** A transform of type "scale" whose scale list has one entry per dimension. */
  predicate ScaleFor(t: Transform, ndim: nat) {
    t.kind == Some("scale") && t.scale.Some? && |t.scale.value| == ndim
  }

  /** The index of the first matching scale transform, if any. */
  function FirstScale(transforms: seq<Transform>, ndim: nat): (r: Option<nat>)
    ensures r.Some? ==> r.value < |transforms|
  {
    if transforms == [] then None
    else if ScaleFor(transforms[0], ndim) then Some(0)
    else match FirstScale(transforms[1..], ndim) { case None => None case Some(i) => Some(i + 1) }
  }

  lemma {:induction false} FirstScaleIsFirst(transforms: seq<Transform>, ndim: nat)
    ensures FirstScale(transforms, ndim).Some? ==>
      ScaleFor(transforms[FirstScale(transforms, ndim).value], ndim)
      && forall k :: 0 <= k < FirstScale(transforms, ndim).value ==> !ScaleFor(transforms[k], ndim)
    ensures FirstScale(transforms, ndim).None? <==> forall k :: 0 <= k < |transforms| ==> !ScaleFor(transforms[k], ndim)
  {
    if transforms != [] && !ScaleFor(transforms[0], ndim) {
      FirstScaleIsFirst(transforms[1..], ndim);
      assert forall k :: 1 <= k < |transforms| ==> transforms[k] == transforms[1..][k - 1];
    }
  }

  function Ones(ndim: nat): (r: seq<real>)
    ensures |r| == ndim && forall d :: 0 <= d < ndim ==> r[d] == 1.0
  {
    seq(ndim, _ => 1.0)
  }

  /** The scale _get_scale returns: the first matching scale list, otherwise ndim ones. */
  function ScaleOf(transforms: seq<Transform>, ndim: nat): (r: seq<real>)
    ensures |r| == ndim
  {
    FirstScaleIsFirst(transforms, ndim);
    match FirstScale(transforms, ndim)
    case Some(k) => transforms[k].scale.value
    case None => Ones(ndim)
  }

  /** _get_scale: the first "scale" transform whose list has ndim entries, otherwise ndim ones. */
  method GetScale(transforms: seq<Transform>, ndim: nat) returns (scale: seq<real>)
    ensures scale == ScaleOf(transforms, ndim)
    ensures (exists k :: 0 <= k < |transforms| && ScaleFor(transforms[k], ndim)) ==>
      exists k :: (0 <= k < |transforms| && ScaleFor(transforms[k], ndim) && scale == transforms[k].scale.value
        && forall m :: 0 <= m < k ==> !ScaleFor(transforms[m], ndim))
    ensures (forall k :: 0 <= k < |transforms| ==> !ScaleFor(transforms[k], ndim)) ==> scale == Ones(ndim)
  {
    FirstScaleIsFirst(transforms, ndim);
    var k := 0;
    while k < |transforms|
      invariant 0 <= k <= |transforms|
      invariant forall m :: 0 <= m < k ==> !ScaleFor(transforms[m], ndim)
    {
      if ScaleFor(transforms[k], ndim) {
        FirstScaleUnique(transforms, ndim, k);
        return transforms[k].scale.value;
      }
      k := k + 1;
    }
    return Ones(ndim);
  }

  lemma FirstScaleUnique(transforms: seq<Transform>, ndim: nat, i: nat)
    requires i < |transforms| && ScaleFor(transforms[i], ndim) && forall k :: 0 <= k < i ==> !ScaleFor(transforms[k], ndim)
    ensures FirstScale(transforms, ndim) == Some(i)
  {
    FirstScaleIsFirst(transforms, ndim);
  }

  // ---------------------------------------------------------------------------
  // Arguments and the per-level remap

  /** The half-open level-0 range [start, stop). */
  datatype ZRange = ZRange(start: int, stop: int)

  /** The argument checks of main and the inclusive-to-exclusive conversion. */
  function CheckArgs(zStart: int, zEnd: int): (r: Result<ZRange, CropError>)
    ensures r == Err(NegativeStart) <==> zStart < 0
    ensures r == Err(EndBeforeStart) <==> 0 <= zStart && zEnd < zStart
    ensures r.Ok? ==> 0 <= r.value.start < r.value.stop && r.value.start == zStart && r.value.stop - 1 == zEnd
  {
    if zStart < 0 then Err(NegativeStart)
    else if zEnd < zStart then Err(EndBeforeStart)
    else Ok(ZRange(zStart, zEnd + 1))
  }

  function Floor(x: real): int {
    x.Floor
  }

  function Ceil(x: real): int {
    -((-x).Floor)
  }

  /**
   * The level's z factor relative to level 0: a zero level-0 scale counts as
   * 1, and a factor that is not positive falls back to 1.
   */
  function LevelFactor(level0Scale: real, levelScale: real): (f: real)
    ensures f > 0.0
    ensures levelScale / (if level0Scale != 0.0 then level0Scale else 1.0) > 0.0 ==>
      f == levelScale / (if level0Scale != 0.0 then level0Scale else 1.0)
    ensures levelScale / (if level0Scale != 0.0 then level0Scale else 1.0) <= 0.0 ==> f == 1.0
  {
    var base := if level0Scale != 0.0 then level0Scale else 1.0;
    var factor := levelScale / base;
    if factor <= 0.0 then 1.0 else factor
  }

  /** floor(start / f) and ceil(stop / f), clamped: the start into [0, depth], the stop into [start, depth]. */
  function Remap(r: ZRange, f: real, depth: nat): (q: ZRange)
    requires f > 0.0
    ensures 0 <= q.start <= q.stop <= depth
  {
    var s := Floor(r.start as real / f);
    var e := Ceil(r.stop as real / f);
    var start := Max(0, Min(s, depth));
    ZRange(start, Max(start, Min(e, depth)))
  }

  lemma DivMonotone(a: real, b: real, f: real)
    requires a <= b && f > 0.0
    ensures a / f <= b / f
  {
    assert b / f - a / f == (b - a) / f;
  }

  /**
   * The remapped range keeps every requested slice: a level-0 slice z of the
   * requested range falls, at level index floor(z / f), inside the remapped
   * range whenever that index exists at this level.
   */
  lemma RemapCovers(r: ZRange, f: real, depth: nat, z: int)
    requires f > 0.0 && r.start <= z < r.stop
    requires 0 <= Floor(z as real / f) < depth
    ensures Remap(r, f, depth).start <= Floor(z as real / f) < Remap(r, f, depth).stop
  {
    DivMonotone(r.start as real, z as real, f);
    DivMonotone(z as real, r.stop as real, f);
    assert z as real / f < r.stop as real / f by {
      assert r.stop as real / f - z as real / f == (r.stop - z) as real / f;
    }
  }

  /** floor(x) <= i exactly when x < i + 1. */
  lemma FloorAtMost(x: real, i: int)
    ensures Floor(x) <= i <==> x < (i + 1) as real
  {
  }

  /** i < ceil(x) exactly when i < x. */
  lemma CeilAbove(x: real, i: int)
    ensures i < Ceil(x) <==> (i as real) < x
  {
    FloorAtMost(-x, -i - 1);
  }

  /** For a positive f, a / f < b exactly when a < b * f. */
  lemma DivBelow(a: real, b: real, f: real)
    requires f > 0.0
    ensures a / f < b <==> a < b * f
  {
    assert (a / f) * f == a;
    if a / f < b {
      assert (b - a / f) * f > 0.0;
    } else {
      assert (a / f - b) * f >= 0.0;
    }
  }

  /** For a positive f, b < a / f exactly when b * f < a. */
  lemma DivAbove(a: real, b: real, f: real)
    requires f > 0.0
    ensures b < a / f <==> b * f < a
  {
    assert (a / f) * f == a;
    if b < a / f {
      assert (a / f - b) * f > 0.0;
    } else {
      assert (b - a / f) * f >= 0.0;
    }
  }

  /**
   * The remapped range holds exactly the slices of the level that overlap the
   * requested range: level slice i spans [i * f, (i + 1) * f) in level-0
   * slices, and it is kept when that span meets [start, stop).
   */
  lemma RemapExact(r: ZRange, f: real, depth: nat, i: int)
    requires f > 0.0
    ensures Remap(r, f, depth).start <= i < Remap(r, f, depth).stop <==>
      0 <= i < depth && (i as real) * f < r.stop as real && ((i + 1) as real) * f > r.start as real
  {
    FloorAtMost(r.start as real / f, i);
    CeilAbove(r.stop as real / f, i);
    DivBelow(r.start as real, (i + 1) as real, f);
    DivAbove(r.stop as real, i as real, f);
  }

  /** At a level with the level-0 z scale the remap is the identity on ranges inside the depth. */
  lemma RemapUnitFactor(r: ZRange, depth: nat)
    requires 0 <= r.start <= r.stop <= depth
    ensures Remap(r, 1.0, depth) == r
  {
  }

  // ---------------------------------------------------------------------------
  // Per-level shape and chunk derivation

  /** A source array of the pyramid: its path, transforms, shape and chunks (None when unchunked). */
  datatype Dataset = Dataset(path: string, transforms: seq<Transform>, shape: seq<nat>, chunks: Option<seq<int>>)

  /** The crop of one level: the remapped source range, the destination shape and chunks, and the copy slab. */
  datatype LevelCrop = LevelCrop(range: ZRange, dstShape: seq<nat>, dstChunks: seq<int>, slab: int)

  /** The chunking zarr reports: the chunks, or the shape of an unchunked array. */
  function SourceChunks(ds: Dataset): seq<int> {
    if ds.chunks.Some? then ds.chunks.value else ds.shape
  }

  predicate WellShaped(ds: Dataset) {
    ds.chunks.Some? ==> |ds.chunks.value| == |ds.shape|
  }

  /**
   * The loop body of main for one dataset, given its level-0 range and the
   * level's factor: check the z axis, remap, reject an empty range, and
   * derive the destination shape, chunks and slab.
   */
  function CropLevel(ds: Dataset, zAxis: nat, r: ZRange, f: real): (c: Result<LevelCrop, CropError>)
    requires WellShaped(ds) && f > 0.0
    ensures zAxis >= |ds.shape| ==> c == Err(ZAxisOutOfBounds(ds.path))
    ensures zAxis < |ds.shape| ==> (c.Err? <==> Remap(r, f, ds.shape[zAxis]).start == Remap(r, f, ds.shape[zAxis]).stop)
    ensures zAxis < |ds.shape| && c.Err? ==> c.error == EmptyCrop(ds.path)
    ensures c.Ok? ==> zAxis < |ds.shape| && c.value.range == Remap(r, f, ds.shape[zAxis])
  {
    if zAxis >= |ds.shape| then Err(ZAxisOutOfBounds(ds.path))
    else
      var q := Remap(r, f, ds.shape[zAxis]);
      var dz := q.stop - q.start;
      if dz <= 0 then Err(EmptyCrop(ds.path))
      else
        var chunks := SourceChunks(ds);
        Ok(LevelCrop(q, ds.shape[zAxis := dz], chunks[zAxis := Min(chunks[zAxis], dz)], Max(1, chunks[zAxis])))
  }

  /**
   * The destination shape equals the source shape except along z, where it is
   * the remapped extent; the z chunk is the source's clipped to that extent,
   * the other chunks are the source's, and the copy slab is the source z chunk
   * or 1.
   */
  lemma CropLevelShape(ds: Dataset, zAxis: nat, r: ZRange, f: real)
    requires WellShaped(ds) && f > 0.0 && CropLevel(ds, zAxis, r, f).Ok?
    ensures var c := CropLevel(ds, zAxis, r, f).value;
      && zAxis < |ds.shape|
      && 0 <= c.range.start < c.range.stop <= ds.shape[zAxis]
      && |c.dstShape| == |ds.shape| && |c.dstChunks| == |ds.shape|
      && c.dstShape[zAxis] == c.range.stop - c.range.start
      && (forall d :: 0 <= d < |ds.shape| && d != zAxis ==>
            c.dstShape[d] == ds.shape[d] && c.dstChunks[d] == SourceChunks(ds)[d])
      && c.dstChunks[zAxis] == Min(SourceChunks(ds)[zAxis], c.dstShape[zAxis])
      && c.slab == Max(1, SourceChunks(ds)[zAxis])
  {
  }

  /** The destination of a level crop is no larger than its source, and its z chunk no deeper than its z extent. */
  lemma CropFitsSource(ds: Dataset, zAxis: nat, r: ZRange, f: real)
    requires WellShaped(ds) && f > 0.0 && CropLevel(ds, zAxis, r, f).Ok?
    ensures var c := CropLevel(ds, zAxis, r, f).value;
      && (forall d :: 0 <= d < |ds.shape| ==> 1 <= c.dstShape[d] || d != zAxis)
      && (forall d :: 0 <= d < |ds.shape| ==> c.dstShape[d] <= ds.shape[d])
      && c.dstChunks[zAxis] <= c.dstShape[zAxis]
      && c.slab >= 1
  {
  }

  /** A multiscale entry: its axes and its datasets, level 0 first. */
  datatype Multiscale = Multiscale(axes: seq<Axis>, datasets: seq<Dataset>)

  /** The crops of the first n datasets, each with its factor against the level-0 z scale base, or the first error. */
  function CropsUpTo(dss: seq<Dataset>, zAxis: nat, r: ZRange, base: real, n: nat): Result<seq<LevelCrop>, CropError>
    requires n <= |dss| && forall k :: 0 <= k < |dss| ==> WellShaped(dss[k])
  {
    if n == 0 then Ok([])
    else match CropsUpTo(dss, zAxis, r, base, n - 1)
      case Err(e) => Err(e)
      case Ok(cs) =>
        var ds := dss[n - 1];
        if zAxis >= |ds.shape| then Err(ZAxisOutOfBounds(ds.path))
        else match CropLevel(ds, zAxis, r, LevelFactor(base, ScaleOf(ds.transforms, |ds.shape|)[zAxis]))
          case Err(e) => Err(e)
          case Ok(c) => Ok(cs + [c])
  }

  /** Every dataset of every multiscale entry has as many chunk sizes as dimensions. */
  predicate WellShapedAll(multiscales: seq<Multiscale>) {
    forall m, k :: 0 <= m < |multiscales| && 0 <= k < |multiscales[m].datasets| ==> WellShaped(multiscales[m].datasets[k])
  }

  /**
   * What main computes from its arguments and the source's multiscale
   * metadata before and between the level copies: the crop of every level,
   * or the error it raises first.
   */
  function CropPlan(zStart: int, zEnd: int, multiscales: seq<Multiscale>): Result<seq<LevelCrop>, CropError>
    requires WellShapedAll(multiscales)
  {
    match CheckArgs(zStart, zEnd)
    case Err(e) => Err(e)
    case Ok(r) =>
      if multiscales == [] then Err(NoMultiscales)
      else
        var ms := multiscales[0];
        var zAxis := ZAxisOf(ms.axes);
        if ms.datasets == [] then Err(NoDatasets)
        else
          var first := ms.datasets[0];
          if zAxis >= |first.shape| then Err(ZAxisOutOfBounds(first.path))
          else CropsUpTo(ms.datasets, zAxis, r, ScaleOf(first.transforms, |first.shape|)[zAxis], |ms.datasets|)
  }

  /** main's level loop up to the last crop plan (the copies and the metadata writes aside). */
  method PlanCrop(zStart: int, zEnd: int, multiscales: seq<Multiscale>) returns (r: Result<seq<LevelCrop>, CropError>)
    requires WellShapedAll(multiscales)
    ensures r == CropPlan(zStart, zEnd, multiscales)
  {
    var args := CheckArgs(zStart, zEnd);
    if args.Err? {
      return Err(args.error);
    }
    if multiscales == [] {
      return Err(NoMultiscales);
    }
    var ms := multiscales[0];
    var zAxis := FindZAxis(ms.axes);
    if ms.datasets == [] {
      return Err(NoDatasets);
    }
    var first := ms.datasets[0];
    var level0Scale := GetScale(first.transforms, |first.shape|);
    r := CropLevels(ms.datasets, zAxis, args.value, level0Scale);
  }

  /** The loop over the datasets: each is checked, remapped and planned in turn; the first error ends it. */
  method CropLevels(dss: seq<Dataset>, zAxis: nat, range: ZRange, level0Scale: seq<real>) returns (r: Result<seq<LevelCrop>, CropError>)
    requires dss != [] && |level0Scale| == |dss[0].shape|
    requires forall k :: 0 <= k < |dss| ==> WellShaped(dss[k])
    ensures zAxis >= |dss[0].shape| ==> r == Err(ZAxisOutOfBounds(dss[0].path))
    ensures zAxis < |dss[0].shape| ==> r == CropsUpTo(dss, zAxis, range, level0Scale[zAxis], |dss|)
  {
    if zAxis >= |dss[0].shape| {
      return Err(ZAxisOutOfBounds(dss[0].path));
    }
    var base := level0Scale[zAxis];
    var crops: seq<LevelCrop> := [];
    for k := 0 to |dss|
      invariant CropsUpTo(dss, zAxis, range, base, k) == Ok(crops)
    {
      var next := CropNext(dss, zAxis, range, base, k, crops);
      if next.Err? {
        return next;
      }
      crops := next.value;
    }
    return Ok(crops);
  }

  /** One iteration of the loop: the crops of the first k + 1 datasets from those of the first k. */
  method CropNext(dss: seq<Dataset>, zAxis: nat, range: ZRange, base: real, k: nat, crops: seq<LevelCrop>)
    returns (r: Result<seq<LevelCrop>, CropError>)
    requires k < |dss| && forall j :: 0 <= j < |dss| ==> WellShaped(dss[j])
    requires CropsUpTo(dss, zAxis, range, base, k) == Ok(crops)
    ensures r == CropsUpTo(dss, zAxis, range, base, k + 1)
    ensures r.Err? ==> r == CropsUpTo(dss, zAxis, range, base, |dss|)
  {
    var ds := dss[k];
    CropsUpToStep(dss, zAxis, range, base, k, crops);
    if zAxis >= |ds.shape| {
      r := Err(ZAxisOutOfBounds(ds.path));
      ErrorEndsPlan(dss, zAxis, range, base, k + 1, |dss|);
      return;
    }
    var levelScale := GetScale(ds.transforms, |ds.shape|);
    var c := CropLevel(ds, zAxis, range, LevelFactor(base, levelScale[zAxis]));
    if c.Err? {
      r := Err(c.error);
      ErrorEndsPlan(dss, zAxis, range, base, k + 1, |dss|);
      return;
    }
    r := Ok(crops + [c.value]);
  }

  /** The plan of k + 1 datasets from the plan of the first k, when that succeeded. */
  lemma CropsUpToStep(dss: seq<Dataset>, zAxis: nat, range: ZRange, base: real, k: nat, crops: seq<LevelCrop>)
    requires k < |dss| && forall j :: 0 <= j < |dss| ==> WellShaped(dss[j])
    requires CropsUpTo(dss, zAxis, range, base, k) == Ok(crops)
    ensures zAxis >= |dss[k].shape| ==> CropsUpTo(dss, zAxis, range, base, k + 1) == Err(ZAxisOutOfBounds(dss[k].path))
    ensures zAxis < |dss[k].shape| ==>
      var c := CropLevel(dss[k], zAxis, range, LevelFactor(base, ScaleOf(dss[k].transforms, |dss[k].shape|)[zAxis]));
      CropsUpTo(dss, zAxis, range, base, k + 1) == if c.Err? then Err(c.error) else Ok(crops + [c.value])
  {
  }

  /** Once a dataset fails, the plan fails with that error whatever follows. */
  lemma {:induction false} ErrorEndsPlan(dss: seq<Dataset>, zAxis: nat, r: ZRange, base: real, m: nat, n: nat)
    requires m <= n <= |dss| && forall k :: 0 <= k < |dss| ==> WellShaped(dss[k])
    requires CropsUpTo(dss, zAxis, r, base, m).Err?
    ensures CropsUpTo(dss, zAxis, r, base, n) == CropsUpTo(dss, zAxis, r, base, m)
    decreases n - m
  {
    if m < n {
      ErrorEndsPlan(dss, zAxis, r, base, m, n - 1);
    }
  }

  /**
   * A successful plan has one crop per dataset, each the crop of that
   * dataset with its z factor against level 0.
   */
  lemma {:induction false} CropsUpToOk(dss: seq<Dataset>, zAxis: nat, r: ZRange, base: real, n: nat)
    requires n <= |dss| && forall k :: 0 <= k < |dss| ==> WellShaped(dss[k])
    requires CropsUpTo(dss, zAxis, r, base, n).Ok?
    ensures var cs := CropsUpTo(dss, zAxis, r, base, n).value;
      |cs| == n && forall k :: 0 <= k < n ==>
        zAxis < |dss[k].shape|
        && CropLevel(dss[k], zAxis, r, LevelFactor(base, ScaleOf(dss[k].transforms, |dss[k].shape|)[zAxis])) == Ok(cs[k])
  {
    if n > 0 {
      CropsUpToOk(dss, zAxis, r, base, n - 1);
    }
  }

  /** Level 0's factor against itself is 1, whatever its z scale. */
  lemma Level0Factor(s: real)
    ensures LevelFactor(s, s) == 1.0
  {
    if s != 0.0 {
      assert s / s * s == s;
    }
  }

  /** Level 0 is cropped to exactly the requested inclusive range when that range lies inside its depth. */
  lemma Level0Exact(zStart: int, zEnd: int, multiscales: seq<Multiscale>)
    requires WellShapedAll(multiscales) && CropPlan(zStart, zEnd, multiscales).Ok?
    requires zEnd < multiscales[0].datasets[0].shape[ZAxisOf(multiscales[0].axes)]
    ensures CropPlan(zStart, zEnd, multiscales).value != []
    ensures CropPlan(zStart, zEnd, multiscales).value[0].range == ZRange(zStart, zEnd + 1)
  {
    var ms := multiscales[0];
    var zAxis := ZAxisOf(ms.axes);
    var first := ms.datasets[0];
    var base := ScaleOf(first.transforms, |first.shape|)[zAxis];
    var r := ZRange(zStart, zEnd + 1);
    assert CheckArgs(zStart, zEnd) == Ok(r);
    CropsUpToOk(ms.datasets, zAxis, r, base, |ms.datasets|);
    Level0Factor(base);
    RemapUnitFactor(r, first.shape[zAxis]);
    assert CropLevel(first, zAxis, r, 1.0) == Ok(CropPlan(zStart, zEnd, multiscales).value[0]);
  }

  // ---------------------------------------------------------------------------
  // The slab copy of one level

  /**
   * _copy_and_crop_level along z: copies src[start:stop] to dst[0:stop-start]
   * in slabs of at most slab slices and returns the number of slices copied.
   */
  method CopyAndCropLevel<T>(src: array<T>, dst: array<T>, start: int, stop: int, slab: int) returns (copied: int)
    requires src != dst && slab >= 1
    requires 0 <= start <= stop <= src.Length && stop - start <= dst.Length
    modifies dst
    ensures copied == stop - start
    ensures forall k :: 0 <= k < dst.Length ==> dst[k] == if k < stop - start then src[start + k] else old(dst[k])
  {
    var dstPos := 0;
    copied := 0;
    var z0 := start;
    while z0 < stop
      invariant start <= z0 && dstPos == Min(z0, stop) - start && copied == dstPos
      invariant forall k :: 0 <= k < dst.Length ==> dst[k] == if k < dstPos then src[start + k] else old(dst[k])
      decreases stop - z0
    {
      var z1 := Min(z0 + slab, stop);
      forall k | dstPos <= k < dstPos + (z1 - z0) {
        dst[k] := src[z0 + (k - dstPos)];
      }
      dstPos := dstPos + (z1 - z0);
      copied := copied + (z1 - z0);
      z0 := z0 + slab;
    }
  }

  /**
   * The slabs CopyAndCropLevel's loop visits are the blocks of
   * range(start, stop, slab): they tile [start, stop), each at most slab deep.
   * The loop's invariant tracks the copied prefix directly; this lemma states
   * the block structure behind it.
   */
  lemma CropSlabsTile(start: int, stop: int, slab: int)
    requires slab >= 1 && start <= stop
    ensures Tiles(RangeBlocks(start, stop, slab), start, stop)
    ensures forall k :: 0 <= k < |RangeBlocks(start, stop, slab)| ==> Length(RangeBlocks(start, stop, slab)[k]) <= slab
  {
    RangeBlocksTile(start, stop, slab);
  }

  // ---------------------------------------------------------------------------
  // Root attributes

  /** A JSON value of the attributes. */
  datatype Json =
    | JNull
    | JBool(b: bool)
    | JInt(i: int)
    | JReal(r: real)
    | JStr(s: string)
    | JArr(items: seq<Json>)
    | JObj(fields: map<string, Json>)

  /** The crop record: the source path, the inclusive level-0 range and the time of the crop. */
  function CropRecord(source: string, zStart: int, zEnd: int, timestamp: string): Json {
    JObj(map["source" := JStr(source), "z_start_inclusive" := JInt(zStart),
             "z_end_inclusive" := JInt(zEnd), "timestamp_utc" := JStr(timestamp)])
  }

  /**
   * The attributes written to the destination root: the source's, with
   * omero.name set to the output's base name when omero is an object, and
   * the crop record under "crop".
   */
  function RewriteRootAttrs(attrs: map<string, Json>, outName: string, source: string, zStart: int, zEnd: int, timestamp: string): (out: map<string, Json>)
    ensures out.Keys == attrs.Keys + {"crop"}
    ensures out["crop"] == CropRecord(source, zStart, zEnd, timestamp)
    ensures forall key :: key in attrs && key != "crop" && key != "omero" ==> out[key] == attrs[key]
    ensures "omero" in attrs && "omero" != "crop" ==>
      out["omero"] == if attrs["omero"].JObj? then JObj(attrs["omero"].fields["name" := JStr(outName)]) else attrs["omero"]
  {
    var named := if "omero" in attrs && attrs["omero"].JObj?
      then attrs["omero" := JObj(attrs["omero"].fields["name" := JStr(outName)])]
      else attrs;
    named["crop" := CropRecord(source, zStart, zEnd, timestamp)]
  }

  /** The rewrite loses no attribute: every source key but "crop" keeps its value, apart from the OMERO name. */
  lemma RewriteKeepsOmeroFields(attrs: map<string, Json>, outName: string, source: string, zStart: int, zEnd: int, timestamp: string)
    requires "omero" in attrs && attrs["omero"].JObj?
    ensures var out := RewriteRootAttrs(attrs, outName, source, zStart, zEnd, timestamp);
      && out["omero"].JObj?
      && out["omero"].fields.Keys == attrs["omero"].fields.Keys + {"name"}
      && out["omero"].fields["name"] == JStr(outName)
      && forall k :: k in attrs["omero"].fields && k != "name" ==> out["omero"].fields[k] == attrs["omero"].fields[k]
  {
  }
}
