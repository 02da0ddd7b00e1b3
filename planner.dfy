/**
 * The task planner of the converter (_build_tasks and the --max-tasks cap in
 * main of ims_to_omezarr_fast.py): every level's destination depth is cut
 * into chunk-depth slabs, one task per slab, in level-then-depth order,
 * together with the number of bytes the copy is expected to move.
 */
module Planner {
  import opened Wrappers
  import opened Blocks
  import opened Geometry

  /** np.dtype(np.uint16).itemsize. */
  const ItemSize: int := 2

  /** Copy the depth slab [z0, z1) of one level over its whole height and width. */
  datatype Task = Task(level: int, z0: int, z1: int)

  /** The task list and the expected byte total of a run. */
  datatype Plan = Plan(tasks: seq<Task>, totalBytes: int)

  datatype PlanError =
    | ZeroChunkDepth(level: int)      // range(0, z, 0) raises ValueError
    | NoTasksSelected(maxTasks: int)  // --max-tasks kept no task

  /** One task per block of a level's depth. */
  function SlabTasks(level: int, bs: seq<Block>): (ts: seq<Task>)
    ensures |ts| == |bs|
    ensures forall k :: 0 <= k < |bs| ==> ts[k] == Task(level, bs[k].lo, bs[k].hi)
  {
    if bs == [] then [] else [Task(level, bs[0].lo, bs[0].hi)] + SlabTasks(level, bs[1..])
  }

  /**
   * The tasks _build_tasks emits for one level: z0 = 0, cz, 2*cz, ... below the
   * depth. For a non-negative depth, a negative cz yields no task, as range does.
   */
  function LevelTasks(info: LevelInfo): seq<Task> {
    if info.chunk.z >= 1 then SlabTasks(info.level, RangeBlocks(0, info.dstShape.z, info.chunk.z)) else []
  }

  /** The tasks of all levels, level by level in list order. */
  function PlanTasks(infos: seq<LevelInfo>): seq<Task> {
    if infos == [] then [] else PlanTasks(infos[..|infos| - 1]) + LevelTasks(infos[|infos| - 1])
  }

  /** z * y * x * itemsize: the bytes of one level's destination array. */
  function LevelBytes(info: LevelInfo): int {
    info.dstShape.z * info.dstShape.y * info.dstShape.x * ItemSize
  }

  /** The total_bytes _build_tasks accumulates: the bytes of every level. */
  function TotalBytes(infos: seq<LevelInfo>): int {
    if infos == [] then 0 else TotalBytes(infos[..|infos| - 1]) + LevelBytes(infos[|infos| - 1])
  }

  /** The position of the first level whose chunk depth is 0 (its range(0, z, 0) raises), or |infos| when there is none. */
  function FirstZeroChunkDepth(infos: seq<LevelInfo>): (k: nat)
    ensures k <= |infos|
    ensures forall j :: 0 <= j < k ==> infos[j].chunk.z != 0
    ensures k < |infos| ==> infos[k].chunk.z == 0
  {
    if infos == [] then 0
    else if infos[0].chunk.z == 0 then 0
    else 1 + FirstZeroChunkDepth(infos[1..])
  }

  /**
   * _build_tasks: the task list and the byte total. The loop over a level runs
   * z0 over range(0, z, cz); a chunk depth of 0 raises ValueError (the
   * error names the first such level), and for a non-negative depth a
   * negative one yields no task.
   */
  method BuildTasks(infos: seq<LevelInfo>) returns (r: Result<Plan, PlanError>)
    ensures r.Ok? <==> FirstZeroChunkDepth(infos) == |infos|
    ensures r.Ok? ==> r.value == Plan(PlanTasks(infos), TotalBytes(infos))
    ensures r.Err? ==> FirstZeroChunkDepth(infos) < |infos| && r.error == ZeroChunkDepth(infos[FirstZeroChunkDepth(infos)].level)
  {
    var tasks: seq<Task> := [];
    var totalBytes := 0;
    for i := 0 to |infos|
      invariant tasks == PlanTasks(infos[..i]) && totalBytes == TotalBytes(infos[..i])
      invariant i <= FirstZeroChunkDepth(infos)
    {
      var info := infos[i];
      PrefixStep(infos, i);
      var cz := info.chunk.z;
      totalBytes := totalBytes + LevelBytes(info);
      if cz == 0 {
        assert FirstZeroChunkDepth(infos) == i;
        return Err(ZeroChunkDepth(info.level));
      }
      if cz > 0 {
        var slabs := LevelSlabs(info.level, info.dstShape.z, cz);
        tasks := tasks + slabs;
      }
    }
    assert infos[..|infos|] == infos;
    return Ok(Plan(tasks, totalBytes));
  }

  /** One more level extends the tasks and the byte total of a prefix by that level's. */
  lemma PrefixStep(infos: seq<LevelInfo>, i: int)
    requires 0 <= i < |infos|
    ensures PlanTasks(infos[..i + 1]) == PlanTasks(infos[..i]) + LevelTasks(infos[i])
    ensures TotalBytes(infos[..i + 1]) == TotalBytes(infos[..i]) + LevelBytes(infos[i])
  {
    assert infos[..i + 1][..i] == infos[..i];
  }

  /** The inner loop of _build_tasks: one task per z0 in range(0, z, cz), ending at min(z0 + cz, z). */
  method LevelSlabs(level: int, z: int, cz: int) returns (ts: seq<Task>)
    requires cz >= 1
    ensures ts == SlabTasks(level, RangeBlocks(0, z, cz))
  {
    ts := [];
    var z0 := 0;
    while z0 < z
      invariant ts + SlabTasks(level, RangeBlocks(z0, z, cz)) == SlabTasks(level, RangeBlocks(0, z, cz))
      decreases z - z0
    {
      var t := Task(level, z0, Min(z0 + cz, z));
      SlabStep(level, z0, z, cz);
      assert (ts + [t]) + SlabTasks(level, RangeBlocks(z0 + cz, z, cz)) == ts + ([t] + SlabTasks(level, RangeBlocks(z0 + cz, z, cz)));
      ts := ts + [t];
      z0 := z0 + cz;
    }
  }

  lemma SlabStep(level: int, z0: int, z: int, cz: int)
    requires cz >= 1 && z0 < z
    ensures SlabTasks(level, RangeBlocks(z0, z, cz)) == [Task(level, z0, Min(z0 + cz, z))] + SlabTasks(level, RangeBlocks(z0 + cz, z, cz))
  {
    assert RangeBlocks(z0, z, cz)[1..] == RangeBlocks(z0 + cz, z, cz);
  }

  /** The depth intervals of a list of tasks. */
  function SpansOf(ts: seq<Task>): (bs: seq<Block>)
    ensures |bs| == |ts| && forall k :: 0 <= k < |ts| ==> bs[k] == Block(ts[k].z0, ts[k].z1)
  {
    if ts == [] then [] else [Block(ts[0].z0, ts[0].z1)] + SpansOf(ts[1..])
  }

  /**
   * The tasks of one level with a positive chunk depth tile [0, depth): the
   * first starts at 0, each starts where the previous one ends, the last ends
   * at the depth, and the k-th starts at k * cz and spans between 1 and cz.
   */
  lemma LevelTasksPartition(info: LevelInfo)
    requires info.chunk.z >= 1
    ensures Tiles(SpansOf(LevelTasks(info)), 0, info.dstShape.z)
    ensures forall k :: 0 <= k < |LevelTasks(info)| ==>
      var t := LevelTasks(info)[k];
      t.level == info.level && t.z0 == k * info.chunk.z && 0 < t.z1 - t.z0 <= info.chunk.z
  {
    var bs := RangeBlocks(0, info.dstShape.z, info.chunk.z);
    RangeBlocksTile(0, info.dstShape.z, info.chunk.z);
    assert SpansOf(LevelTasks(info)) == bs;
  }

  lemma LevelTasksTile(info: LevelInfo)
    requires info.chunk.z >= 1
    ensures Tiles(SpansOf(LevelTasks(info)), 0, info.dstShape.z)
  {
    RangeBlocksTile(0, info.dstShape.z, info.chunk.z);
    assert SpansOf(LevelTasks(info)) == RangeBlocks(0, info.dstShape.z, info.chunk.z);
  }

  /** Every depth of a level lies in exactly one of that level's tasks. */
  lemma LevelTasksCoverOnce(info: LevelInfo, z: int)
    requires info.chunk.z >= 1 && 0 <= z < info.dstShape.z
    ensures exists k :: 0 <= k < |LevelTasks(info)| && LevelTasks(info)[k].z0 <= z < LevelTasks(info)[k].z1
    ensures forall k1, k2 ::
      (0 <= k1 < |LevelTasks(info)| && 0 <= k2 < |LevelTasks(info)|
       && LevelTasks(info)[k1].z0 <= z < LevelTasks(info)[k1].z1
       && LevelTasks(info)[k2].z0 <= z < LevelTasks(info)[k2].z1) ==> k1 == k2
  {
    var ts := LevelTasks(info);
    var bs := SpansOf(ts);
    LevelTasksTile(info);
    TilesCoverOnce(bs, 0, info.dstShape.z, z);
    var k :| 0 <= k < |bs| && bs[k].lo <= z < bs[k].hi;
    assert ts[k].z0 <= z < ts[k].z1;
  }

  /** The levels appear in strictly ascending order in the list. */
  predicate StrictlyAscending(infos: seq<LevelInfo>) {
    forall i, j :: 0 <= i < j < |infos| ==> infos[i].level < infos[j].level
  }

  /** The task invariant: a non-empty slab of the level's depth, at most one chunk deep. */
  predicate TaskFits(t: Task, info: LevelInfo) {
    t.level == info.level && 0 <= t.z0 < t.z1 <= info.dstShape.z && t.z1 - t.z0 <= info.chunk.z
  }

  lemma LevelTaskFits(info: LevelInfo, m: int)
    requires 0 <= m < |LevelTasks(info)|
    ensures TaskFits(LevelTasks(info)[m], info)
  {
    RangeBlockBounds(0, info.dstShape.z, info.chunk.z, m);
  }

  /** A task of the plan is a task of the levels before the last or of the last level. */
  lemma PlanTaskAt(infos: seq<LevelInfo>, k: int)
    requires infos != [] && 0 <= k < |PlanTasks(infos)|
    ensures var p := PlanTasks(infos[..|infos| - 1]);
      if k < |p| then PlanTasks(infos)[k] == p[k]
      else k - |p| < |LevelTasks(infos[|infos| - 1])| && PlanTasks(infos)[k] == LevelTasks(infos[|infos| - 1])[k - |p|]
  {
  }

  /** Every planned task belongs to a level of the list and satisfies the task invariant there. */
  lemma {:induction false} PlanTaskInvariant(infos: seq<LevelInfo>, k: int)
    requires 0 <= k < |PlanTasks(infos)|
    ensures exists i :: 0 <= i < |infos| && TaskFits(PlanTasks(infos)[k], infos[i])
    decreases |infos|
  {
    var n := |infos|;
    var init := infos[..n - 1];
    PlanTaskAt(infos, k);
    if k < |PlanTasks(init)| {
      PlanTaskInvariant(init, k);
      var i :| 0 <= i < |init| && TaskFits(PlanTasks(init)[k], init[i]);
      assert init[i] == infos[i];
    } else {
      LevelTaskFits(infos[n - 1], k - |PlanTasks(init)|);
    }
  }

  /**
   * The planned tasks come in level order and, within a level, in ascending
   * depth with disjoint slabs: of two tasks, the earlier has the smaller
   * level, or the same level and a slab ending where or before the later
   * one's begins.
   */
  lemma {:induction false} PlanOrdered(infos: seq<LevelInfo>, k1: int, k2: int)
    requires StrictlyAscending(infos)
    requires 0 <= k1 < k2 < |PlanTasks(infos)|
    ensures PlanTasks(infos)[k1].level < PlanTasks(infos)[k2].level
      || (PlanTasks(infos)[k1].level == PlanTasks(infos)[k2].level && PlanTasks(infos)[k1].z1 <= PlanTasks(infos)[k2].z0)
    decreases |infos|
  {
    var n := |infos|;
    var init := infos[..n - 1];
    var p := PlanTasks(init);
    PlanTaskAt(infos, k1);
    PlanTaskAt(infos, k2);
    if k2 < |p| {
      AscendingPrefix(infos);
      PlanOrdered(init, k1, k2);
    } else if k1 < |p| {
      EarlierLevelFirst(infos, k1, k2 - |p|);
    } else {
      SameLevelOrdered(infos[n - 1], k1 - |p|, k2 - |p|);
    }
  }

  lemma AscendingPrefix(infos: seq<LevelInfo>)
    requires StrictlyAscending(infos) && infos != []
    ensures StrictlyAscending(infos[..|infos| - 1])
  {
    var init := infos[..|infos| - 1];
    assert forall i :: 0 <= i < |init| ==> init[i] == infos[i];
  }

  /** A task of the levels before the last has a smaller level than any task of the last level. */
  lemma EarlierLevelFirst(infos: seq<LevelInfo>, k1: int, m: int)
    requires StrictlyAscending(infos) && infos != []
    requires 0 <= k1 < |PlanTasks(infos[..|infos| - 1])| && 0 <= m < |LevelTasks(infos[|infos| - 1])|
    ensures PlanTasks(infos[..|infos| - 1])[k1].level < LevelTasks(infos[|infos| - 1])[m].level
  {
    var init := infos[..|infos| - 1];
    PlanTaskInvariant(init, k1);
    var i :| 0 <= i < |init| && TaskFits(PlanTasks(init)[k1], init[i]);
    assert init[i] == infos[i];
    LevelTaskFits(infos[|infos| - 1], m);
  }

  /** Of two tasks of one level, the earlier ends where or before the later begins. */
  lemma SameLevelOrdered(info: LevelInfo, m1: int, m2: int)
    requires 0 <= m1 < m2 < |LevelTasks(info)|
    ensures LevelTasks(info)[m1].level == LevelTasks(info)[m2].level
    ensures LevelTasks(info)[m1].z1 <= LevelTasks(info)[m2].z0
  {
    LevelTasksPartition(info);
    TilesOrdered(SpansOf(LevelTasks(info)), 0, info.dstShape.z, m1, m2);
  }

  /** Two different planned tasks of the same level never write the same depth. */
  lemma DisjointWrites(infos: seq<LevelInfo>, k1: int, k2: int, z: int)
    requires StrictlyAscending(infos)
    requires 0 <= k1 < |PlanTasks(infos)| && 0 <= k2 < |PlanTasks(infos)| && k1 != k2
    requires PlanTasks(infos)[k1].level == PlanTasks(infos)[k2].level
    ensures !(PlanTasks(infos)[k1].z0 <= z < PlanTasks(infos)[k1].z1 && PlanTasks(infos)[k2].z0 <= z < PlanTasks(infos)[k2].z1)
  {
    if k1 < k2 { PlanOrdered(infos, k1, k2); } else { PlanOrdered(infos, k2, k1); }
  }

  /** The tasks of each level all appear in the plan. */
  lemma {:induction false} PlanContainsLevel(infos: seq<LevelInfo>, i: int)
    requires 0 <= i < |infos|
    ensures forall t :: t in LevelTasks(infos[i]) ==> t in PlanTasks(infos)
    decreases |infos|
  {
    var n := |infos|;
    var init := infos[..n - 1];
    assert PlanTasks(infos) == PlanTasks(init) + LevelTasks(infos[n - 1]);
    if i < n - 1 {
      PlanContainsLevel(init, i);
      assert init[i] == infos[i];
    }
  }

  /** Every depth of every level with a positive chunk depth is written by some planned task of that level. */
  lemma PlanCovers(infos: seq<LevelInfo>, i: int, z: int)
    requires 0 <= i < |infos| && infos[i].chunk.z >= 1 && 0 <= z < infos[i].dstShape.z
    ensures exists k :: (0 <= k < |PlanTasks(infos)| && PlanTasks(infos)[k].level == infos[i].level
      && PlanTasks(infos)[k].z0 <= z < PlanTasks(infos)[k].z1)
  {
    LevelTasksCoverOnce(infos[i], z);
    LevelTasksPartition(infos[i]);
    var lt := LevelTasks(infos[i]);
    var m :| 0 <= m < |lt| && lt[m].z0 <= z < lt[m].z1;
    PlanContainsLevel(infos, i);
    assert lt[m] in PlanTasks(infos);
    var k :| 0 <= k < |PlanTasks(infos)| && PlanTasks(infos)[k] == lt[m];
  }

  /** {i.level: i for i in infos}: for a repeated level the last info wins. */
  function InfoByLevel(infos: seq<LevelInfo>): (m: map<int, LevelInfo>)
    ensures forall i :: 0 <= i < |infos| ==> infos[i].level in m
    ensures forall l :: l in m ==> exists i :: 0 <= i < |infos| && infos[i].level == l
  {
    if infos == [] then map[]
    else
      var init := infos[..|infos| - 1];
      var m := InfoByLevel(init)[infos[|infos| - 1].level := infos[|infos| - 1]];
      assert forall i :: 0 <= i < |init| ==> init[i] == infos[i];
      m
  }

  /** When equal levels carry equal infos, the map gives each level its own info. */
  lemma {:induction false} InfoByLevelAt(infos: seq<LevelInfo>, i: int)
    requires LevelDetermined(infos) && 0 <= i < |infos|
    ensures InfoByLevel(infos)[infos[i].level] == infos[i]
    decreases |infos|
  {
    var n := |infos|;
    var init := infos[..n - 1];
    if i < n - 1 && infos[i].level != infos[n - 1].level {
      assert forall a :: 0 <= a < |init| ==> init[a] == infos[a];
      InfoByLevelAt(init, i);
    }
  }

  /** Strictly ascending levels are distinct, so they determine their infos. */
  lemma AscendingDetermined(infos: seq<LevelInfo>)
    requires StrictlyAscending(infos)
    ensures LevelDetermined(infos)
  {
    forall i, j | 0 <= i < |infos| && 0 <= j < |infos|
      ensures infos[i].level == infos[j].level ==> infos[i] == infos[j]
    {
      AscendingInjective(infos, i, j);
    }
  }

  lemma AscendingInjective(infos: seq<LevelInfo>, i: int, j: int)
    requires StrictlyAscending(infos) && 0 <= i < |infos| && 0 <= j < |infos|
    ensures infos[i].level == infos[j].level ==> i == j
  {
    assert i < j ==> infos[i].level < infos[j].level;
    assert j < i ==> infos[j].level < infos[i].level;
  }

  /** Sorted levels without repeats are strictly ascending: the case in which PlanOrdered applies to BuildLevelInfos' result. */
  lemma SortedDistinctAscending(infos: seq<LevelInfo>)
    requires Sorted(LevelsOf(infos))
    requires forall i, j :: 0 <= i < j < |LevelsOf(infos)| ==> LevelsOf(infos)[i] != LevelsOf(infos)[j]
    ensures StrictlyAscending(infos)
  {
    var ls := LevelsOf(infos);
    StrictlySorted(ls);
    assert forall i :: 0 <= i < |infos| ==> infos[i].level == ls[i];
  }

  lemma StrictlySorted(ls: seq<int>)
    requires Sorted(ls) && forall i, j :: 0 <= i < j < |ls| ==> ls[i] != ls[j]
    ensures forall i, j :: 0 <= i < j < |ls| ==> ls[i] < ls[j]
  {
  }

  /**
   * A level named twice (keys "ResolutionLevel 1" and "ResolutionLevel 01")
   * is planned twice: its slabs appear once per copy, and its bytes count twice.
   */
  lemma RepeatedLevelPlannedTwice(info: LevelInfo)
    requires info.chunk.z >= 1 && info.dstShape.z >= 1
    ensures |PlanTasks([info, info])| == 2 * |LevelTasks(info)| && |LevelTasks(info)| >= 1
    ensures PlanTasks([info, info])[0] == PlanTasks([info, info])[|LevelTasks(info)|]
    ensures TotalBytes([info, info]) == 2 * LevelBytes(info)
  {
    var lt := LevelTasks(info);
    assert RangeBlocks(0, info.dstShape.z, info.chunk.z) != [];
    assert [info, info][..1] == [info];
    assert [info][..0] == [];
    assert PlanTasks([info]) == lt;
    assert PlanTasks([info, info]) == lt + lt;
    assert TotalBytes([info]) == LevelBytes(info);
  }


  predicate Known(ts: seq<Task>, byLevel: map<int, LevelInfo>) {
    forall k :: 0 <= k < |ts| ==> ts[k].level in byLevel
  }

  /** (z1 - z0) * dst_y * dst_x * itemsize for the level of the task. */
  function TaskBytes(t: Task, byLevel: map<int, LevelInfo>): int
    requires t.level in byLevel
  {
    (t.z1 - t.z0) * byLevel[t.level].dstShape.y * byLevel[t.level].dstShape.x * ItemSize
  }

  /** sum(TaskBytes(t) for t in ts). */
  function SumTaskBytes(ts: seq<Task>, byLevel: map<int, LevelInfo>): int
    requires Known(ts, byLevel)
  {
    if ts == [] then 0 else TaskBytes(ts[0], byLevel) + SumTaskBytes(ts[1..], byLevel)
  }

  lemma {:induction false} SumTaskBytesAppend(a: seq<Task>, b: seq<Task>, byLevel: map<int, LevelInfo>)
    requires Known(a, byLevel) && Known(b, byLevel)
    ensures Known(a + b, byLevel)
    ensures SumTaskBytes(a + b, byLevel) == SumTaskBytes(a, byLevel) + SumTaskBytes(b, byLevel)
    decreases |a|
  {
    if a == [] {
      assert a + b == b;
    } else {
      SumTaskBytesAppend(a[1..], b, byLevel);
      assert (a + b)[0] == a[0] && (a + b)[1..] == a[1..] + b;
    }
  }

  /** The slabs of one level move (their total depth) * dst_y * dst_x * itemsize bytes. */
  lemma {:induction false} SlabBytes(level: int, bs: seq<Block>, byLevel: map<int, LevelInfo>)
    requires level in byLevel
    ensures Known(SlabTasks(level, bs), byLevel)
    ensures SumTaskBytes(SlabTasks(level, bs), byLevel)
      == SumLengths(bs) * (byLevel[level].dstShape.y * byLevel[level].dstShape.x * ItemSize)
    decreases |bs|
  {
    if bs != [] {
      SlabBytes(level, bs[1..], byLevel);
      var area := byLevel[level].dstShape.y * byLevel[level].dstShape.x * ItemSize;
      var ts := SlabTasks(level, bs);
      assert ts[1..] == SlabTasks(level, bs[1..]);
      assert TaskBytes(ts[0], byLevel) == Length(bs[0]) * area;
      assert SumLengths(bs) * area == Length(bs[0]) * area + SumLengths(bs[1..]) * area;
    }
  }

  /** A level's tasks move exactly the bytes of its destination array. */
  lemma LevelTaskBytes(info: LevelInfo, byLevel: map<int, LevelInfo>)
    requires info.chunk.z >= 1 && info.dstShape.z >= 0
    requires info.level in byLevel && byLevel[info.level] == info
    ensures Known(LevelTasks(info), byLevel)
    ensures SumTaskBytes(LevelTasks(info), byLevel) == LevelBytes(info)
  {
    var bs := RangeBlocks(0, info.dstShape.z, info.chunk.z);
    SlabBytes(info.level, bs, byLevel);
    RangeBlocksLength(0, info.dstShape.z, info.chunk.z);
    var area := info.dstShape.y * info.dstShape.x * ItemSize;
    assert info.dstShape.z * area == LevelBytes(info);
  }

  /** The planner's chunk depths are positive and its depths non-negative. */
  predicate Plannable(infos: seq<LevelInfo>) {
    forall i :: 0 <= i < |infos| ==> infos[i].chunk.z >= 1 && infos[i].dstShape.z >= 0
  }

  /**
   * The total _build_tasks accumulates per level equals the sum, over the
   * tasks it emits, of (z1 - z0) * dst_y * dst_x * itemsize: the figure the
   * --max-tasks branch recomputes.
   */
  lemma {:induction false} PlanBytes(infos: seq<LevelInfo>, byLevel: map<int, LevelInfo>)
    requires Plannable(infos)
    requires forall i :: 0 <= i < |infos| ==> infos[i].level in byLevel && byLevel[infos[i].level] == infos[i]
    ensures Known(PlanTasks(infos), byLevel)
    ensures SumTaskBytes(PlanTasks(infos), byLevel) == TotalBytes(infos)
    decreases |infos|
  {
    if infos != [] {
      var n := |infos|;
      var init := infos[..n - 1];
      assert forall i :: 0 <= i < |init| ==> init[i] == infos[i];
      PlanBytes(init, byLevel);
      LevelTaskBytes(infos[n - 1], byLevel);
      SumTaskBytesAppend(PlanTasks(init), LevelTasks(infos[n - 1]), byLevel);
    }
  }

  /**
   * The --max-tasks step of main: a positive cap K keeps the first K tasks,
   * fails when that leaves none, and recomputes the byte total over the kept
   * tasks from the level table; a cap of 0 or less keeps the plan.
   */
  function ApplyCap(plan: Plan, maxTasks: int, infos: seq<LevelInfo>): (r: Result<Plan, PlanError>)
    requires Known(plan.tasks, InfoByLevel(infos))
    ensures maxTasks <= 0 ==> r == Ok(plan)
    ensures maxTasks > 0 ==> (r.Err? <==> plan.tasks == [])
    ensures r.Err? ==> r.error == NoTasksSelected(maxTasks)
    ensures maxTasks > 0 && r.Ok? ==>
      && |r.value.tasks| == Min(maxTasks, |plan.tasks|)
      && r.value.tasks == plan.tasks[..|r.value.tasks|]
      && Known(r.value.tasks, InfoByLevel(infos))
      && r.value.totalBytes == SumTaskBytes(r.value.tasks, InfoByLevel(infos))
  {
    if maxTasks > 0 then
      var kept := plan.tasks[..Min(maxTasks, |plan.tasks|)];
      if kept == [] then Err(NoTasksSelected(maxTasks))
      else Ok(Plan(kept, SumTaskBytes(kept, InfoByLevel(infos))))
    else Ok(plan)
  }

  /**
   * A cap at least as large as the plan selects every task and leaves the
   * byte total unchanged, so the capped run and the full run agree.
   */
  lemma CapCoveringPlan(infos: seq<LevelInfo>, maxTasks: int)
    requires LevelDetermined(infos) && Plannable(infos)
    requires PlanTasks(infos) != [] && maxTasks >= |PlanTasks(infos)|
    ensures Known(PlanTasks(infos), InfoByLevel(infos))
    ensures ApplyCap(Plan(PlanTasks(infos), TotalBytes(infos)), maxTasks, infos) == Ok(Plan(PlanTasks(infos), TotalBytes(infos)))
  {
    var m := InfoByLevel(infos);
    forall i | 0 <= i < |infos| ensures m[infos[i].level] == infos[i] {
      InfoByLevelAt(infos, i);
    }
    PlanBytes(infos, m);
    assert PlanTasks(infos)[..|PlanTasks(infos)|] == PlanTasks(infos);
  }
}
