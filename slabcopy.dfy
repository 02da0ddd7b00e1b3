/**
 * The slab copy of the converter: one task (level, z0, z1) copies the box
 * [z0, z1) x [0, dy) x [0, dx) of the level's source volume into the
 * destination volume, block by block over chunk-sized y/x blocks.
 *
 * Both volumes are in-memory 3-D arrays of 16-bit samples; the destination
 * array stands for dst[0, 0, :, :, :] (its two leading axes have length 1).
 */
module SlabCopy {
  import opened Wrappers
  import opened Blocks
  import opened Geometry
  import opened Planner

  /** An unsigned 16-bit sample. */
  newtype u16 = x: int | 0 <= x < 65536

  /** range(0, d, 0) raises ValueError. */
  datatype CopyError = ZeroBlockStep

  /** The y loop's range has step 0, or the x loop's range is built (some y block exists) with step 0. */
  predicate CopyFails(info: LevelInfo) {
    info.chunk.y == 0 || (info.chunk.y > 0 && info.dstShape.y > 0 && info.chunk.x == 0)
  }

  /** Both block loops have a positive step, so they visit every block. */
  predicate Copies(info: LevelInfo) {
    info.chunk.y > 0 && info.chunk.x > 0
  }

  /** The destination was created with the level's destination shape, and the source is at least that large. */
  predicate Fits(src: array3<u16>, dst: array3<u16>, info: LevelInfo)
  {
    dst.Length0 == info.dstShape.z && dst.Length1 == info.dstShape.y && dst.Length2 == info.dstShape.x
    && dst.Length0 <= src.Length0 && dst.Length1 <= src.Length1 && dst.Length2 <= src.Length2
  }

  /** block = src[z0:z1, y0:y1, x0:x1]; dst[z0:z1, y0:y1, x0:x1] = block */
  method CopyBox(src: array3<u16>, dst: array3<u16>, z0: int, z1: int, y0: int, y1: int, x0: int, x1: int)
    requires src != dst
    requires 0 <= z0 <= z1 <= dst.Length0 && 0 <= y0 <= y1 <= dst.Length1 && 0 <= x0 <= x1 <= dst.Length2
    requires dst.Length0 <= src.Length0 && dst.Length1 <= src.Length1 && dst.Length2 <= src.Length2
    modifies dst
    ensures forall i, j, k | 0 <= i < dst.Length0 && 0 <= j < dst.Length1 && 0 <= k < dst.Length2 ::
      dst[i, j, k] == if z0 <= i < z1 && y0 <= j < y1 && x0 <= k < x1 then src[i, j, k] else old(dst[i, j, k])
  {
    forall i, j, k | z0 <= i < z1 && y0 <= j < y1 && x0 <= k < x1 {
      dst[i, j, k] := src[i, j, k];
    }
  }

  /**
   * Copies the z slab [task.z0, task.z1) of one level over all its y/x blocks and
   * returns the number of bytes the slab holds in the destination shape.
   */
  method CopyZSlab(src: array3<u16>, dst: array3<u16>, info: LevelInfo, task: Task) returns (r: Result<int, CopyError>)
    requires src != dst && Fits(src, dst, info)
    requires 0 <= task.z0 <= task.z1 <= info.dstShape.z
    modifies dst
    ensures r.Err? <==> CopyFails(info)
    ensures r.Ok? ==> r.value == (task.z1 - task.z0) * info.dstShape.y * info.dstShape.x * ItemSize
    ensures forall i, j, k | 0 <= i < dst.Length0 && 0 <= j < dst.Length1 && 0 <= k < dst.Length2 ::
      dst[i, j, k] == if r.Ok? && Copies(info) && task.z0 <= i < task.z1 then src[i, j, k] else old(dst[i, j, k])
  {
    var dy, dx := info.dstShape.y, info.dstShape.x;
    var cy, cx := info.chunk.y, info.chunk.x;
    var bytes := (task.z1 - task.z0) * dy * dx * ItemSize;
    if cy == 0 {
      return Err(ZeroBlockStep);
    }
    if cy < 0 {
      // range(0, dy, cy) is empty for a negative step: nothing is written.
      return Ok(bytes);
    }
    var y0 := 0;
    while y0 < dy
      invariant 0 <= y0
      invariant cx == 0 ==> y0 == 0
      invariant forall i, j, k | 0 <= i < dst.Length0 && 0 <= j < dst.Length1 && 0 <= k < dst.Length2 ::
        dst[i, j, k] == if cx > 0 && task.z0 <= i < task.z1 && j < y0 then src[i, j, k] else old(dst[i, j, k])
      decreases dy - y0
    {
      var y1 := Min(y0 + cy, dy);
      if cx == 0 {
        return Err(ZeroBlockStep);
      }
      if cx > 0 {
        var x0 := 0;
        while x0 < dx
          invariant 0 <= x0
          invariant forall i, j, k | 0 <= i < dst.Length0 && 0 <= j < dst.Length1 && 0 <= k < dst.Length2 ::
            dst[i, j, k] == if task.z0 <= i < task.z1 && (j < y0 || (j < y1 && k < x0)) then src[i, j, k] else old(dst[i, j, k])
          decreases dx - x0
        {
          var x1 := Min(x0 + cx, dx);
          CopyBox(src, dst, task.z0, task.z1, y0, y1, x0, x1);
          x0 := x0 + cx;
        }
      }
      y0 := y0 + cy;
    }
    return Ok(bytes);
  }

  /**
   * The y/x blocks CopyZSlab's two loops visit (y0 over range(0, dy, cy), x0
   * over range(0, dx, cx), each clipped to the extent) tile the plane
   * [0, dy) x [0, dx): every cell lies in exactly one pair of a y block and an
   * x block, so each cell of the slab is written by exactly one CopyBox. The
   * loops' invariants track the written cells directly; this lemma states the
   * block structure behind them.
   */
  lemma BlocksTilePlane(dy: int, dx: int, cy: int, cx: int, j: int, k: int)
    requires cy >= 1 && cx >= 1 && 0 <= j < dy && 0 <= k < dx
    ensures exists a, b :: (0 <= a < |RangeBlocks(0, dy, cy)| && 0 <= b < |RangeBlocks(0, dx, cx)|
      && RangeBlocks(0, dy, cy)[a].lo <= j < RangeBlocks(0, dy, cy)[a].hi
      && RangeBlocks(0, dx, cx)[b].lo <= k < RangeBlocks(0, dx, cx)[b].hi)
    ensures forall a1, a2 :: (0 <= a1 < |RangeBlocks(0, dy, cy)| && 0 <= a2 < |RangeBlocks(0, dy, cy)|
      && RangeBlocks(0, dy, cy)[a1].lo <= j < RangeBlocks(0, dy, cy)[a1].hi
      && RangeBlocks(0, dy, cy)[a2].lo <= j < RangeBlocks(0, dy, cy)[a2].hi) ==> a1 == a2
    ensures forall b1, b2 :: (0 <= b1 < |RangeBlocks(0, dx, cx)| && 0 <= b2 < |RangeBlocks(0, dx, cx)|
      && RangeBlocks(0, dx, cx)[b1].lo <= k < RangeBlocks(0, dx, cx)[b1].hi
      && RangeBlocks(0, dx, cx)[b2].lo <= k < RangeBlocks(0, dx, cx)[b2].hi) ==> b1 == b2
  {
    RangeBlocksTile(0, dy, cy);
    RangeBlocksTile(0, dx, cx);
    TilesCoverOnce(RangeBlocks(0, dy, cy), 0, dy, j);
    TilesCoverOnce(RangeBlocks(0, dx, cx), 0, dx, k);
  }
}
