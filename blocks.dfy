/**
 * Every loop of the tools that walks an axis in fixed steps has the shape
 *   for a in range(start, stop, step): b = min(a + step, stop)
 * (depth slabs of the task planner, y/x blocks of the slab copy, z slabs of
 * the crop copy). This module gives that sequence of half-open blocks once
 * and proves that, for a positive step, it tiles [start, stop) without gap
 * or overlap. It also holds the small integer helpers the tools share
 * (min, max and ceiling division).
 */
module Blocks {

  /** The half-open interval [lo, hi). */
  datatype Block = Block(lo: int, hi: int)

  function Min(a: int, b: int): int { if a <= b then a else b }

  function Max(a: int, b: int): int { if a >= b then a else b }

  /** (a + b - 1) // b: the ceiling of a / b for a positive b. */
  function CeilDiv(a: int, b: int): int
    requires b >= 1
  {
    (a + b - 1) / b
  }

  /** CeilDiv(a, b) is the least q with q * b >= a. */
  lemma CeilDivBounds(a: int, b: int)
    requires b >= 1
    ensures CeilDiv(a, b) * b >= a && (CeilDiv(a, b) - 1) * b < a
  {
    var q := CeilDiv(a, b);
    assert a + b - 1 == q * b + (a + b - 1) % b;
  }

  /** The blocks visited by range(start, stop, step) with each end clipped to stop. */
  function RangeBlocks(start: int, stop: int, step: int): seq<Block>
    requires step >= 1
    decreases stop - start
  {
    if start >= stop then [] else [Block(start, Min(start + step, stop))] + RangeBlocks(start + step, stop, step)
  }

  /** bs covers [lo, hi) left to right, each block non-empty and starting where the previous one ends. */
  ghost predicate Tiles(bs: seq<Block>, lo: int, hi: int) {
    && (bs == [] <==> lo >= hi)
    && (bs != [] ==> bs[0].lo == lo && bs[|bs| - 1].hi == hi)
    && (forall k :: 0 <= k < |bs| ==> bs[k].lo < bs[k].hi)
    && (forall k :: 0 <= k < |bs| - 1 ==> bs[k].hi == bs[k + 1].lo)
  }

  function Length(b: Block): int { b.hi - b.lo }

  /** The total length of the blocks. */
  function SumLengths(bs: seq<Block>): int {
    if bs == [] then 0 else Length(bs[0]) + SumLengths(bs[1..])
  }

  /** The blocks of range(start, stop, step) tile [start, stop), are chunk-aligned and at most step long. */
  lemma {:induction false} RangeBlocksTile(start: int, stop: int, step: int)
    requires step >= 1
    ensures Tiles(RangeBlocks(start, stop, step), start, stop)
    ensures forall k :: 0 <= k < |RangeBlocks(start, stop, step)| ==>
      RangeBlocks(start, stop, step)[k].lo == start + k * step && Length(RangeBlocks(start, stop, step)[k]) <= step
    decreases stop - start
  {
    var bs := RangeBlocks(start, stop, step);
    if start < stop {
      var rest := RangeBlocks(start + step, stop, step);
      RangeBlocksTile(start + step, stop, step);
      assert bs == [Block(start, Min(start + step, stop))] + rest;
      forall k | 0 <= k < |bs|
        ensures bs[k].lo == start + k * step && Length(bs[k]) <= step
      {
        if k > 0 {
          assert bs[k] == rest[k - 1];
          assert start + step + (k - 1) * step == start + k * step;
        }
      }
    }
  }

  /** Each block of range(start, stop, step) is a non-empty part of [start, stop) at most step long. */
  lemma {:induction false} RangeBlockBounds(start: int, stop: int, step: int, k: int)
    requires step >= 1 && 0 <= k < |RangeBlocks(start, stop, step)|
    ensures start <= RangeBlocks(start, stop, step)[k].lo < RangeBlocks(start, stop, step)[k].hi <= stop
    ensures Length(RangeBlocks(start, stop, step)[k]) <= step
    decreases stop - start
  {
    if k > 0 {
      RangeBlockBounds(start + step, stop, step, k - 1);
      assert RangeBlocks(start, stop, step)[k] == RangeBlocks(start + step, stop, step)[k - 1];
    }
  }

  /** In a tiling, an earlier block ends no later than a later one starts. */
  lemma {:induction false} TilesOrdered(bs: seq<Block>, lo: int, hi: int, k1: int, k2: int)
    requires Tiles(bs, lo, hi)
    requires 0 <= k1 < k2 < |bs|
    ensures bs[k1].hi <= bs[k2].lo
    decreases k2 - k1
  {
    if k2 > k1 + 1 {
      TilesOrdered(bs, lo, hi, k1, k2 - 1);
    }
  }

  /** Every point of [lo, hi) lies in exactly one block of a tiling. */
  lemma {:induction false} TilesCoverOnce(bs: seq<Block>, lo: int, hi: int, z: int)
    requires Tiles(bs, lo, hi)
    requires lo <= z < hi
    ensures exists k :: 0 <= k < |bs| && bs[k].lo <= z < bs[k].hi
    ensures forall k1, k2 :: 0 <= k1 < |bs| && 0 <= k2 < |bs| && bs[k1].lo <= z < bs[k1].hi && bs[k2].lo <= z < bs[k2].hi ==> k1 == k2
    decreases |bs|
  {
    if z < bs[0].hi {
      assert bs[0].lo <= z < bs[0].hi;
    } else {
      var rest := bs[1..];
      assert Tiles(rest, bs[0].hi, hi) by {
        forall k | 0 <= k < |rest| - 1 ensures rest[k].hi == rest[k + 1].lo {
          assert rest[k] == bs[k + 1] && rest[k + 1] == bs[k + 2];
        }
      }
      TilesCoverOnce(rest, bs[0].hi, hi, z);
      var k :| 0 <= k < |rest| && rest[k].lo <= z < rest[k].hi;
      assert bs[k + 1] == rest[k];
    }
    forall k1, k2 | 0 <= k1 < |bs| && 0 <= k2 < |bs| && bs[k1].lo <= z < bs[k1].hi && bs[k2].lo <= z < bs[k2].hi
      ensures k1 == k2
    {
      if k1 < k2 { TilesOrdered(bs, lo, hi, k1, k2); }
      if k2 < k1 { TilesOrdered(bs, lo, hi, k2, k1); }
    }
  }

  /** The blocks of range(start, stop, step) add up to the length of [start, stop). */
  lemma {:induction false} RangeBlocksLength(start: int, stop: int, step: int)
    requires step >= 1
    ensures SumLengths(RangeBlocks(start, stop, step)) == if start < stop then stop - start else 0
    decreases stop - start
  {
    if start < stop {
      var bs := RangeBlocks(start, stop, step);
      RangeBlocksLength(start + step, stop, step);
      assert bs[1..] == RangeBlocks(start + step, stop, step);
    }
  }
}
