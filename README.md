# IMS to OME-Zarr conversion tools, modelled in Dafny

This project models the integer core of three command-line tools.

- `ims_to_omezarr_fast.py` converts an Imaris (IMS) multi-resolution volume into an OME-Zarr v2 store. OME-Zarr follows OME-NGFF 0.4.
- `crop_omezarr_z.py` crops such a store along z.
- `open_in_napari.py` opens a store in a viewer and picks a displayable level.

The converter part covers:

- reading the `ResolutionLevel N` keys;
- the corrected per-level geometry: expected pyramid size, clipping of the padded stored size, chunk clipping;
- unit and channel-name normalisation and the compressor choice;
- the task planner, which cuts every level's depth into chunk-deep z slabs;
- the `--max-tasks` cap;
- the slab copy over y/x blocks, as a method on 3-D arrays of 16-bit samples;
- the sequential run, with its `bytes_done` accumulator and progress reports.

The crop part covers:

- the z-axis and scale lookups;
- the argument checks;
- the per-level floor/ceil index remap with clamping;
- derivation of the destination shape, chunks and copy slab;
- the offset-shifting slab copy loop;
- the root-attribute rewrite.

The viewer part covers:

- level counting and voxel counting;
- the choice of the first level under a voxel budget;
- the ceiling-division XY decimation estimate and the loop that grows the XY steps;
- the level clamp;
- the preview level;
- the order in which render modes are tried.

Modules, one per file:

- `Wrappers` (`Option`, `Result`);
- `Text` (Python string operations on ASCII);
- `Blocks`, the `range(start, stop, step)` / `min(a + step, stop)` block decomposition. The planner, the slab copy and the crop copy all share it, and its tiling lemmas are proved once;
- `Geometry`, `Planner`, `SlabCopy`, `Progress` (the converter);
- `Crop`;
- `Viewer`.

Where the code does something out of the ordinary, the model follows the code:

- `range(..., 0)` raises `ValueError`, so a chunk depth, height or width of 0 is an error of the model;
- a negative step gives an empty range;
- a key such as `ResolutionLevel 01` parses as level 1, but the later lookup of `ResolutionLevel 1` fails with a `KeyError`, unless a key `ResolutionLevel 1` is present too: then level 1 is listed twice, its slabs are planned and copied twice, and its bytes count twice in `total_bytes`;
- a negative parsed level makes `2 ** lvl` a fraction;
- `len()` of a single plain array counts the length of its first axis as the level count.

The unit alias table (`ims_to_omezarr_fast.py` lines 94-100) maps `"um"`, `"?m"` and the empty string to `"micrometer"` and keeps any other non-empty unit as written. In the crop, a level-0 z scale of 0 is replaced by a base of 1.0 (line 101). The factor is then the level's own z scale, not 1; only a factor that is not positive falls back to 1 (lines 103-104). The model follows the code here as well.

Volumes are in-memory arrays. Clocks, timestamps and paths are parameters. Floats in the crop remap are exact reals.

## Model

| member | source | states |
|---|---|---|
| Text.Strip | ims_to_omezarr_fast.py:94 | the stripped string neither starts nor ends with whitespace, and a string without whitespace is unchanged |
| Text.LeadingSpaces | ims_to_omezarr_fast.py:94 | the count of leading characters strip() cuts: all whitespace, and followed by a non-whitespace character or the end |
| Text.StripSlice | ims_to_omezarr_fast.py:94 | strip() keeps exactly the slice of s that starts after the leading whitespace, and everything after that slice is whitespace |
| Text.Lower | ims_to_omezarr_fast.py:94 | lower-casing keeps the length and maps every character through the ASCII lower-case table |
| Text.LastToken | ims_to_omezarr_fast.py:70 | `key.split(" ")[-1]` is the suffix after the last space: it holds no space and is preceded by a space whenever it is shorter than the key |
| Text.IntToStringChars | ims_to_omezarr_fast.py:121 | `str(n)` is non-empty digits, with a leading '-' exactly for negative n, and holds no space |
| Text.NatToStringValue | ims_to_omezarr_fast.py:121 | the decimal text of a non-negative n is a well-formed digit string whose value is n |
| Text.ParseIntRoundTrip | ims_to_omezarr_fast.py:70 | `int(str(n)) == n` for every integer n |
| Geometry.ExpectedSize | ims_to_omezarr_fast.py:126-128 | the expected size of an axis is at least 1, and exactly 1 for a size of at most 1 at a non-negative level |
| Geometry.ExpectedSizeIsCeil | ims_to_omezarr_fast.py:126-128 | at level lvl >= 0 the expected size of a non-empty axis is the least r with r * 2^lvl >= size; at a negative level it is max(1, size * 2^-lvl) |
| Geometry.ClipAxis | ims_to_omezarr_fast.py:130-132 | the destination size is at most both the stored and the expected size, equals one of them, is the expected size whenever the stored size exceeds it, and is at least 1 when the stored size is |
| Geometry.ChunkAxis | ims_to_omezarr_fast.py:140-144 | the chunk is at most both the requested chunk and the destination size, equals one of them, and is at least 1 when both are |
| Geometry.LevelInfoValid | ims_to_omezarr_fast.py:119-146 | for a non-empty stored array and a positive requested chunk, every axis has 1 <= chunk <= dst <= src, with dst = min(stored, expected) |
| Geometry.ParseLevelKey | ims_to_omezarr_fast.py:68-70 | a key yields a level only if it starts with "ResolutionLevel " |
| Geometry.LevelKeyRoundTrip | ims_to_omezarr_fast.py:121 | the group key built for a level, f"ResolutionLevel {lvl}", parses back to that level |
| Geometry.ParsedLevelsMembers | ims_to_omezarr_fast.py:66-72 | a level appears among the parsed levels exactly when some key parses to it |
| Geometry.InsertSorted | ims_to_omezarr_fast.py:73 | inserting into a sorted list gives a sorted list holding one more copy of the element |
| Geometry.SortInts | ims_to_omezarr_fast.py:73 | `sorted()` returns an ascending permutation of its input |
| Geometry.SortedResolutionLevels | ims_to_omezarr_fast.py:65-73 | the result is ascending, a permutation of the parsed levels with repeats kept, and holds v exactly when some key parses to v |
| Geometry.InfosForLevels | ims_to_omezarr_fast.py:119-146 | succeeds exactly when every level's group exists; on success, one info per level, in level order, each built from its group's stored shape; on failure, names a level whose group is missing |
| Geometry.BuildLevelInfos | ims_to_omezarr_fast.py:110-146 | fails with no levels exactly when no key parses, and succeeds exactly when some key parses and every parsed level's group exists; the infos are then in ascending level order, a permutation of the parsed levels (a level parsed twice stays twice), each built from its stored shape |
| Geometry.BuiltInfosLevelDetermined | ims_to_omezarr_fast.py:119-146 | each built info depends on its level alone, so equal levels carry equal infos |
| Geometry.UnitAlias | ims_to_omezarr_fast.py:95-100 | "um", "?m" and the empty string become "micrometer"; every other raw unit is kept as it is |
| Geometry.NormalizeUnit | ims_to_omezarr_fast.py:94-100 | of the stripped, lower-cased attribute (default "micrometer"), "um", "?m" and "" become "micrometer" and any other value is kept |
| Geometry.NormalizeUnitIdempotent | ims_to_omezarr_fast.py:94-100 | normalising an already normalised unit changes nothing |
| Geometry.LowerIdempotent | ims_to_omezarr_fast.py:94 | lower-casing twice is lower-casing once |
| Geometry.Canonical | ims_to_omezarr_fast.py:94 | stripping and lower-casing a stripped, lower-cased string changes nothing |
| Geometry.ChannelName | ims_to_omezarr_fast.py:106-108 | the label is never empty and never starts or ends with whitespace; it is the stripped Name when the channel group exists and that is non-blank, and "0" otherwise |
| Geometry.ChooseCompressor | ims_to_omezarr_fast.py:164-168 | a compressor is chosen exactly for "lz4" and "zstd"; it is then Blosc with that codec name, the given level and bit-shuffle |
| Planner.SlabTasks | ims_to_omezarr_fast.py:284-286 | one task per depth block, the k-th covering exactly block k of the level |
| Planner.FirstZeroChunkDepth | ims_to_omezarr_fast.py:279-285 | the position of the first level with chunk depth 0, whose `range(0, z, 0)` raises, or the number of levels when there is none |
| Planner.BuildTasks | ims_to_omezarr_fast.py:277-287 | succeeds exactly when no level has chunk depth 0, and then returns the level-then-depth task list and the sum of z*y*x*2 over the levels; otherwise the error names the first level with chunk depth 0 |
| Planner.LevelSlabs | ims_to_omezarr_fast.py:284-286 | the inner loop appends exactly one task (level, z0, min(z0 + cz, z)) per z0 of range(0, z, cz), in order |
| Planner.LevelTasksPartition | ims_to_omezarr_fast.py:284-286 | for a positive chunk depth, a level's task slabs tile [0, depth) contiguously; the k-th starts at k*cz and is between 1 and cz deep |
| Planner.LevelTasksCoverOnce | ims_to_omezarr_fast.py:284-286 | every depth of a level lies in exactly one of that level's tasks |
| Planner.LevelTaskFits | ims_to_omezarr_fast.py:284-286 | every task of a level is a non-empty slab inside the level's depth, at most one chunk deep |
| Planner.PlanTaskInvariant | ims_to_omezarr_fast.py:280-286 | every planned task is a non-empty slab, at most one chunk deep, inside the depth of a level of the list |
| Planner.PlanOrdered | ims_to_omezarr_fast.py:280-286 | for distinct (strictly ascending) levels, of two planned tasks the earlier has the smaller level, or the same level and a slab that ends where or before the later one begins |
| Planner.DisjointWrites | ims_to_omezarr_fast.py:280-286 | for distinct levels, two different planned tasks of the same level never write the same depth, so concurrent slab copies do not overlap |
| Planner.SortedDistinctAscending | ims_to_omezarr_fast.py:65-73 | sorted parsed levels without repeats are strictly ascending, which is when PlanOrdered and DisjointWrites apply to the built infos |
| Planner.AscendingDetermined | ims_to_omezarr_fast.py:326 | strictly ascending levels are distinct, so each determines its info |
| Planner.RepeatedLevelPlannedTwice | ims_to_omezarr_fast.py:279-286 | a level listed twice has each of its slabs planned twice (the first task equals the first task of the second copy) and its bytes counted twice in total_bytes |
| Planner.PlanContainsLevel | ims_to_omezarr_fast.py:280-286 | every task of every level appears in the plan |
| Planner.PlanCovers | ims_to_omezarr_fast.py:280-286 | every depth of every level with a positive chunk depth is written by some planned task of that level |
| Planner.InfoByLevel | ims_to_omezarr_fast.py:326 | the level table has exactly the levels of the list as keys |
| Planner.InfoByLevelAt | ims_to_omezarr_fast.py:326 | when equal levels carry equal infos (as built infos do), the table maps each level to its own info |
| Planner.SumTaskBytesAppend | ims_to_omezarr_fast.py:327-330 | the byte sum of a concatenation of task lists is the sum of their byte sums |
| Planner.SlabBytes | ims_to_omezarr_fast.py:327-330 | the slabs of one level move (their total depth) * dst_y * dst_x * 2 bytes |
| Planner.LevelTaskBytes | ims_to_omezarr_fast.py:283 | a level's tasks move exactly the bytes of its destination array, z * y * x * 2 |
| Planner.PlanBytes | ims_to_omezarr_fast.py:280-287 | for any infos with positive chunk depths, repeated levels included, the total accumulated per level equals the sum of (z1 - z0) * dst_y * dst_x * 2 over the emitted tasks |
| Planner.ApplyCap | ims_to_omezarr_fast.py:322-330 | a cap of 0 or less keeps the plan; a positive cap K keeps the first min(K, n) tasks, fails exactly when none remain, and recomputes the byte total over the kept tasks |
| Planner.CapCoveringPlan | ims_to_omezarr_fast.py:322-330 | when equal levels carry equal infos, a cap at least as large as the plan keeps every task and leaves the byte total unchanged |
| SlabCopy.CopyBox | ims_to_omezarr_fast.py:270-271 | the box is copied from the source and every other destination cell keeps its value |
| SlabCopy.CopyZSlab | ims_to_omezarr_fast.py:256-273 | fails exactly when the y or x block range has step 0; the bytes returned are (z1 - z0) * dy * dx * 2; with positive block steps the slab [z0, z1) equals the source; every other cell, and every cell on failure, is unchanged |
| SlabCopy.BlocksTilePlane | ims_to_omezarr_fast.py:266-269 | every cell of the plane lies in exactly one pair of a y block and an x block |
| Progress.RunSequential | ims_to_omezarr_fast.py:341-359 | stops at the first failing copy; bytes_done is the byte sum of the copied tasks; the reports are exactly the report log; a destination cell holds the source value exactly where a copied task wrote it, and its old value elsewhere |
| Progress.CopyTask | ims_to_omezarr_fast.py:348 | one loop iteration copies the task's slab of its own level: it fails exactly when that copy fails, returns the task's bytes, writes the source into the slab only when block steps are positive and leaves every other cell of every level unchanged |
| Progress.LogStep | ims_to_omezarr_fast.py:348-359 | after each task the log grows by one report exactly when the report condition fires, and that report carries the task count and bytes so far |
| Progress.ReportBytes | ims_to_omezarr_fast.py:349-356 | every report carries a task count between 1 and the tasks done, the expected total, and the byte sum of that many tasks |
| Progress.ReportsAscending | ims_to_omezarr_fast.py:348-359 | reports come in strictly ascending task count |
| Progress.ReportedIff | ims_to_omezarr_fast.py:351 | task m is reported exactly when the report condition holds at m |
| Progress.LastReportLogged | ims_to_omezarr_fast.py:359 | last_report is the start time before any report and the clock of the last report after one |
| Progress.FinalReport | ims_to_omezarr_fast.py:351 | a complete run ends with a report of all tasks and their full byte sum |
| Progress.Spacing | ims_to_omezarr_fast.py:351 | a report that is not the final task comes at least 10 seconds after the previous report, or after the start |
| Progress.PreviousReportTime | ims_to_omezarr_fast.py:351-359 | just before a report, last_report holds the time of the previous report, or the start |
| Progress.ReportPrefix | ims_to_omezarr_fast.py:348-359 | the reports before report p are the log at its task count minus one, and the condition fired at its task |
| Progress.CoveredIff | ims_to_omezarr_fast.py:348-349 | a depth counts as written exactly when some copied task of that level spans it |
| Progress.PlanWritesEveryDepth | ims_to_omezarr_fast.py:280-286 | a full plan writes every depth of every level with a positive chunk depth |
| Progress.BytesNondecreasing | ims_to_omezarr_fast.py:349 | bytes_done never decreases from one task to a later one |
| Progress.FullRunBytes | ims_to_omezarr_fast.py:283 | when equal levels carry equal infos, after all planned tasks bytes_done equals total_bytes |
| Blocks.CeilDivBounds | open_in_napari.py:69 | (a + b - 1) // b is the least q with q * b >= a |
| Blocks.RangeBlocksTile | ims_to_omezarr_fast.py:284-285 | the blocks of range(start, stop, step) with min(a + step, stop) tile [start, stop) contiguously, the k-th starting at start + k*step, each between 1 and step long |
| Blocks.RangeBlockBounds | ims_to_omezarr_fast.py:284-285 | every block lies inside [start, stop), is non-empty and is at most step long |
| Blocks.TilesOrdered | ims_to_omezarr_fast.py:284-285 | of two tiles, the earlier ends where or before the later begins |
| Blocks.TilesCoverOnce | ims_to_omezarr_fast.py:284-285 | every point of a tiled interval lies in exactly one tile |
| Blocks.RangeBlocksLength | crop_omezarr_z.py:32-33 | the block lengths sum to stop - start |
| Crop.FirstZIsFirst | crop_omezarr_z.py:11-17 | the z-axis search finds an axis named z with none before it, and finds none exactly when no axis is named z |
| Crop.FindZAxis | crop_omezarr_z.py:11-17 | returns the first axis whose lower-cased name is "z", and 2 when there is none |
| Crop.FirstZUnique | crop_omezarr_z.py:13-15 | an axis named z with none before it is the one the search finds |
| Crop.FirstScaleIsFirst | crop_omezarr_z.py:20-26 | the scale search finds a "scale" transform with ndim entries and none before it, and finds none exactly when there is no such transform |
| Crop.GetScale | crop_omezarr_z.py:20-26 | returns the list of the first "scale" transform with ndim entries, and ndim ones when there is none |
| Crop.FirstScaleUnique | crop_omezarr_z.py:21-25 | a matching transform with none before it is the one the search finds |
| Crop.Ones | crop_omezarr_z.py:26 | the default scale has ndim entries, all 1.0 |
| Crop.CheckArgs | crop_omezarr_z.py:53-56 | rejects a negative start, then an end before the start; otherwise gives the exclusive range [z_start, z_end + 1) |
| Crop.LevelFactor | crop_omezarr_z.py:100-104 | the factor is the level's z scale over the level-0 z scale (1.0 in place of a zero scale) when that quotient is positive, and 1 exactly when it is not |
| Crop.Remap | crop_omezarr_z.py:106-109 | the remapped range satisfies 0 <= start <= stop <= depth |
| Crop.RemapExact | crop_omezarr_z.py:106-109 | level slice i is in the remapped range exactly when 0 <= i < depth and its level-0 span [i * f, (i + 1) * f) meets the requested range |
| Crop.FloorAtMost | crop_omezarr_z.py:106 | floor(x) <= i exactly when x < i + 1 |
| Crop.CeilAbove | crop_omezarr_z.py:107 | i < ceil(x) exactly when i < x |
| Crop.RemapCovers | crop_omezarr_z.py:106-109 | every requested depth maps, by floor(z / factor), into the remapped range when that falls inside the level |
| Crop.RemapUnitFactor | crop_omezarr_z.py:106-109 | with factor 1 a range inside the depth is kept as it is |
| Crop.CropLevel | crop_omezarr_z.py:97-118 | fails with the z-axis error when the axis index is out of bounds, and otherwise with the empty-crop error exactly when the remapped range is empty; on success the range is the remapped one |
| Crop.CropLevelShape | crop_omezarr_z.py:111-118 | the destination shape is the source shape with the z extent replaced by stop - start; the chunks are the source chunks, or the shape when there are none, with the z chunk clipped to the z extent; the slab is max(1, source z chunk) |
| Crop.CropFitsSource | crop_omezarr_z.py:108-118 | the destination is no larger than the source on any axis, its z extent is positive, its z chunk is within it and the slab is at least 1 |
| Crop.PlanCrop | crop_omezarr_z.py:73-118 | the loop over the datasets computes the crop plan: every level's crop, or the first error raised |
| Crop.CropLevels | crop_omezarr_z.py:93-118 | fails with the z-axis error for level 0 when the axis is out of its bounds, and otherwise computes the crops of all levels against the level-0 z scale, stopping at the first error |
| Crop.ErrorEndsPlan | crop_omezarr_z.py:93-98 | once a level fails the whole plan fails with that error |
| Crop.CropsUpToOk | crop_omezarr_z.py:93-118 | a successful plan holds one crop per level, each the level's crop with its factor against level 0 |
| Crop.Level0Factor | crop_omezarr_z.py:101-104 | level 0's factor against itself is 1 |
| Crop.Level0Exact | crop_omezarr_z.py:84-109 | level 0 is cropped to exactly [z_start, z_end + 1) when z_end lies inside its depth |
| Crop.CopyAndCropLevel | crop_omezarr_z.py:29-41 | returns stop - start; destination position k holds source position start + k for k < stop - start, and every later position is unchanged |
| Crop.CropSlabsTile | crop_omezarr_z.py:32-33 | the slabs of the copy loop tile [start, stop), each at most slab deep |
| Crop.RewriteRootAttrs | crop_omezarr_z.py:158-167 | the output keys are the source keys plus "crop"; every other attribute is kept; "omero" gets the output name only when it is an object; "crop" holds the source and the inclusive range |
| Crop.RewriteKeepsOmeroFields | crop_omezarr_z.py:158-159 | an omero object keeps all its fields and gains or replaces only "name" |
| Viewer.CountLevels | open_in_napari.py:21-33 | the count is positive exactly when len() succeeds and is positive and the first element has a shape, and is then len(data) |
| Viewer.PlainArrayCountsFirstAxis | open_in_napari.py:21-33 | a single array counts the length of its first axis as levels |
| Viewer.ProdZero | open_in_napari.py:36-43 | the voxel product is 0 exactly when some dimension is 0 |
| Viewer.LevelVoxels | open_in_napari.py:36-43 | the accumulator loop returns the product of the shape, and 0 for a missing or empty shape |
| Viewer.ChooseSafe3DLevel | open_in_napari.py:46-58 | None exactly when there are no levels; otherwise a level index below the count, which is the first level within the budget when one is and the last level when none is |
| Viewer.EstimateXYDecimated | open_in_napari.py:61-73 | the accumulator loop returns the product of the dims with the last two divided by their steps, rounding up, and 0 for fewer than two dims |
| Viewer.EstimateSplit | open_in_napari.py:61-73 | the estimate is the leading volume times ceil(dy / y_step) times ceil(dx / x_step) |
| Viewer.EstimateAntitone | open_in_napari.py:134-138 | larger steps never increase the estimate |
| Viewer.EstimateAtFullSteps | open_in_napari.py:61-73 | once the steps reach the y and x extents the estimate is at most the leading volume |
| Viewer.ZeroExtentEstimate | open_in_napari.py:61-73 | with an empty y or x extent the estimate is 0 for all steps |
| Viewer.ClampLevel | open_in_napari.py:111 | the clamped level is in [0, n_levels), is the requested level when that is in range, 0 below and n_levels - 1 above |
| Viewer.RoundHalfEven | open_in_napari.py:123 | round(n / d) is within half of n / d, and is even on an exact tie |
| Viewer.InitialStep | open_in_napari.py:122-127 | the initial step is at least 1 |
| Viewer.InitialStepExact | open_in_napari.py:122-127 | when the target extent divides the base extent, the initial step is the quotient |
| Viewer.PreserveZPlan | open_in_napari.py:106-127 | no selection exactly when there are no levels; the fallback and the decimation use the clamped level; a base or target without a shape or with an empty one, or a base of fewer than three dims, falls back; an IndexError exactly when the target has fewer dims than the base; a decimating selection exactly when both shapes are present, the base has three or more dims and the target is non-empty with at least as many dims, and then the initial y and x steps are max(1, round(base / max(1, target))) of the base's last two axes |
| Viewer.PreserveZExactSteps | open_in_napari.py:122-127 | when the target's y and x extents go into the base's exactly ky and kx times, the initial steps are ky and kx |
| Viewer.Step | open_in_napari.py:135-138 | each iteration grows exactly one step by one, the smaller, y on a tie, and neither step decreases |
| Viewer.Walk | open_in_napari.py:134-138 | after n iterations neither step has decreased and their sum has grown by n |
| Viewer.GrowSteps | open_in_napari.py:134-138 | when the leading volume fits the budget, the loop ends with the estimate within the budget, steps no smaller, at the first state of the walk that fits |
| Viewer.DecimateXY | open_in_napari.py:129-138 | a TypeError exactly when the budget is negative and the estimate positive (the scale-up is complex); the steps are unchanged when the budget is 0 or already met; otherwise they start from the jump values and reach the first fitting state of the walk; the result fits whenever the leading volume does, and when it does not fit no steps would |
| Viewer.GrowNeverFits | open_in_napari.py:134-138 | when the leading volume exceeds the budget and y and x are non-empty, every pair of steps leaves the estimate over budget |
| Viewer.GrowNeverFitsExample | open_in_napari.py:134-138 | for shape (1, 1, 2000, 512, 512) and a budget of 1000 no steps fit |
| Viewer.GrowStepsBounded | open_in_napari.py:134-138 | always ends, at the first walk state that fits or where both steps reach their extents; it reports whether the estimate fits, and when it does not no steps could |
| Viewer.OverBudgetEverywhere | open_in_napari.py:134-138 | over budget at steps past both extents means over budget at every steps |
| Viewer.PickPreview | open_in_napari.py:170-176 | the whole data exactly when there are no levels; otherwise level min(2, n_levels - 1) |
| Viewer.Without | open_in_napari.py:216 | the filtered list holds exactly the modes other than the requested one |
| Viewer.WithoutDistinct | open_in_napari.py:216 | for a list without repeats, filtering drops just the requested mode's position and keeps the order |
| Viewer.CandidatesOf | open_in_napari.py:216 | for a list without repeats, the candidates are the requested mode, then the modes before it, then those after it, with no mode twice |
| Viewer.RenderModesDistinct | open_in_napari.py:10-18 | the seven render modes are pairwise different |
| Viewer.RenderCandidatesOrder | open_in_napari.py:216 | for each render mode, the candidates are that mode followed by the other six in order: seven modes, each tried once |

## Left out

- HDF5 and zarr I/O. This covers opening files, `create_array` options, the HDF5 locking variable and removing an existing output. Volumes are in-memory arrays.
- The process pool: `ProcessPoolExecutor`, the worker globals and `_init_worker`. Tasks completing out of order is concurrency; for distinct levels `Planner.DisjointWrites` and `Planner.PlanOrdered` state why the pooled writes do not overlap. A level listed twice (`Planner.RepeatedLevelPlannedTwice`) gives two identical tasks per slab, which the pool may run at once; both copy the same source slab into the same destination slab.
- `_copy_z_slab`. It is the same algorithm as `_copy_z_slab_local` and is modelled once, as `SlabCopy.CopyZSlab`.
- The 5-D destination arrays. They are modelled as 3-D depth/height/width arrays standing for `dst[0, 0]`; the two leading axes have length 1.
- Floating-point quantities, because they are floats and not part of the integer core:
  - voxel sizes and per-level scale transforms;
  - MB/s and percent in the progress lines;
  - the viewer's world-scale products and percentile contrast estimation.
- The crop remap's division, floor and ceil. They are on exact reals, not IEEE doubles.
- The viewer's initial step. It rounds an exact rational half-to-even rather than a float quotient.
- The `scale_up` jump of the decimation loop (`sqrt(vox / max_voxels)`, line 131). It is a float square root, so `Viewer.DecimateXY` takes the two rounded-up jump values as parameters.
- `_decode_attr`, `_parse_int_attr` and `_parse_float_attr`, which are library decoding with defaults. Attribute values arrive as `Option` strings and the image size as integers.
- Unicode behaviour of `str.strip`, `str.lower` and `int()`. Only ASCII whitespace, letters and digits are modelled.
- The timepoint and channel key choice, `sorted(keys())[0]` (lines 115-117). The stored shape of each level group is an input map keyed by the group name.
- The `src_path` string of a level info.
- The `_create_omezarr_v2` metadata attributes other than the compressor choice: axes, dataset entries and the omero block.
- The manifest write.
- argparse, `print` output, the wall clock (an input sequence of readings) and the crop timestamp (a parameter).
- The napari viewer and layer calls: `add_image`, `layers.remove`, and `_configure_3d_view` apart from its candidate list.
- The fallback `_select_single_scale_level_for_display` apart from its level clamp. Its scale product is a float.
- The selection of the decimated array, `base[::y, ::x]` (lines 140-143). It is a numpy view.
- Key order in `dst.attrs`. The model treats attributes as a map.
- In the crop copy, arrays are seen along the z axis only (`Crop.CopyAndCropLevel` copies elements of a 1-D array). The other axes are copied whole by the slice.
- Viewer.DecimateXY: grows the steps with the bounded loop `Viewer.GrowStepsBounded`, so where the loop as written never ends (a leading volume over the budget, or a negative budget with an estimate of 0) the model stops at the full extents instead; see "## Findings".
- Viewer.RoundHalfEven: rounds the exact rational n / d, not the float quotient, so it can differ from Python for differences below float precision.
- Planner.LevelTasks: level depths are `int`, but a stored shape is never negative, so only non-negative depths are meant; for a negative depth with a negative chunk depth `range(0, z, cz)` would count down and yield tasks, while the model yields none.
- Viewer.ChooseSafe3DLevel: the `except Exception: continue` branch cannot occur in the model, because indexing a counted level and reading its shape never raise here.

## Findings

| source | as written | input that shows it | evidently intended | confidence | as-written member | corrected member |
|---|---|---|---|---|---|---|
| open_in_napari.py:134-138 | the decimation loop grows the XY steps until the estimate fits the budget, with no other exit; the estimate never drops below the product of the leading dims (everything but y and x), so when that product exceeds the budget the loop never ends; so it does for a negative budget when the estimate is 0 (a zero extent), while for a negative budget and a positive estimate line 131 makes the scale-up complex and line 132 raises TypeError before the loop | shape (1, 1, 2000, 512, 512) with `--max-voxels 1000`: every step pair leaves at least 2000 voxels | stop once both steps reach the y and x extents, where growing further cannot shrink the estimate, and report that the budget cannot be met | not executed | Viewer.GrowNeverFitsExample | Viewer.GrowStepsBounded |
