/**
 * The sequential run of the converter (--workers 1): the tasks are copied one
 * after another, bytes_done accumulates the bytes each slab copy returns, and
 * a progress line is reported when ten seconds have passed since the last one
 * or when the last task is done.
 *
 * The wall clock is a parameter: clock[k] is the time read after task k + 1.
 */
module Progress {
  import opened Wrappers
  import opened Geometry
  import opened Planner
  import opened SlabCopy

  /** Seconds between two progress lines, unless the run is finishing. */
  const ReportInterval: real := 10.0

  /** One progress line: tasks done, bytes done and the expected total (the MB/s and percent are floats). */
  datatype Report = Report(idx: nat, bytesDone: int, totalBytes: int)

  /** The value of last_report after n tasks of count. */
  function LastReport(clock: seq<real>, start: real, count: nat, n: nat): real
    requires n <= |clock|
    decreases n, 1
  {
    if n == 0 then start
    else if Fires(clock, start, count, n) then clock[n - 1]
    else LastReport(clock, start, count, n - 1)
  }

  /** The report condition after task n (1-based): now - last_report >= 10 or idx == len(tasks). */
  predicate Fires(clock: seq<real>, start: real, count: nat, n: nat)
    requires 1 <= n <= |clock|
    decreases n, 0
  {
    clock[n - 1] - LastReport(clock, start, count, n - 1) >= ReportInterval || n == count
  }

  /** The progress lines of the first n tasks. */
  function ReportLog(clock: seq<real>, start: real, tasks: seq<Task>, byLevel: map<int, LevelInfo>, totalBytes: int, n: nat): seq<Report>
    requires n <= |clock| && n <= |tasks| && Known(tasks, byLevel)
  {
    if n == 0 then []
    else
      ReportLog(clock, start, tasks, byLevel, totalBytes, n - 1)
      + if Fires(clock, start, |tasks|, n) then [Report(n, SumTaskBytes(tasks[..n], byLevel), totalBytes)] else []
  }

  /** Some task of ts writes depth i of level l. */
  predicate Covered(ts: seq<Task>, l: int, i: int) {
    if ts == [] then false
    else Covered(ts[..|ts| - 1], l, i) || (ts[|ts| - 1].level == l && ts[|ts| - 1].z0 <= i < ts[|ts| - 1].z1)
  }

  /**
   * The volumes of the run: every level has a source and a destination that fits
   * its geometry, no source is a destination, and no two levels share a destination.
   */
  predicate Volumes(srcs: map<int, array3<u16>>, dsts: map<int, array3<u16>>, byLevel: map<int, LevelInfo>) {
    && (forall l :: l in byLevel ==> l in srcs && l in dsts && Fits(srcs[l], dsts[l], byLevel[l]))
    && (forall l1, l2 :: l1 in srcs && l2 in dsts ==> srcs[l1] != dsts[l2])
    && (forall l1, l2 :: l1 in dsts && l2 in dsts && l1 != l2 ==> dsts[l1] != dsts[l2])
  }

  /** Every task names a known level and a depth range inside it. */
  predicate InRange(tasks: seq<Task>, byLevel: map<int, LevelInfo>) {
    forall k :: 0 <= k < |tasks| ==>
      tasks[k].level in byLevel && 0 <= tasks[k].z0 <= tasks[k].z1 <= byLevel[tasks[k].level].dstShape.z
  }

  /**
   * The --workers 1 loop of main. It stops at the first slab copy that raises.
   * On return, done tasks have been copied, bytes_done is their byte sum, the
   * reports are those the loop printed, and every destination cell holds the
   * source value exactly where a copied task wrote it.
   */
  method RunSequential(srcs: map<int, array3<u16>>, dsts: map<int, array3<u16>>, byLevel: map<int, LevelInfo>,
                       tasks: seq<Task>, totalBytes: int, clock: seq<real>, start: real)
    returns (done: nat, bytesDone: int, reports: seq<Report>, failure: Option<CopyError>)
    requires |clock| == |tasks|
    requires Volumes(srcs, dsts, byLevel) && InRange(tasks, byLevel)
    modifies set l | l in dsts :: dsts[l]
    ensures done <= |tasks|
    ensures failure.None? ==> done == |tasks|
    ensures failure.Some? ==> done < |tasks| && CopyFails(byLevel[tasks[done].level])
    ensures forall k :: 0 <= k < done ==> !CopyFails(byLevel[tasks[k].level])
    ensures Known(tasks, byLevel) && bytesDone == SumTaskBytes(tasks[..done], byLevel)
    ensures reports == ReportLog(clock, start, tasks, byLevel, totalBytes, done)
    ensures forall l, i, j, k | l in byLevel && 0 <= i < dsts[l].Length0 && 0 <= j < dsts[l].Length1 && 0 <= k < dsts[l].Length2 ::
      dsts[l][i, j, k] == if Copies(byLevel[l]) && Covered(tasks[..done], l, i) then srcs[l][i, j, k] else old(dsts[l][i, j, k])
  {
    done, bytesDone, reports, failure := 0, 0, [], None;
    var last := start;
    while done < |tasks|
      invariant done <= |tasks|
      invariant forall k :: 0 <= k < done ==> !CopyFails(byLevel[tasks[k].level])
      invariant bytesDone == SumTaskBytes(tasks[..done], byLevel)
      invariant last == LastReport(clock, start, |tasks|, done)
      invariant reports == ReportLog(clock, start, tasks, byLevel, totalBytes, done)
      invariant forall l, i, j, k | l in byLevel && 0 <= i < dsts[l].Length0 && 0 <= j < dsts[l].Length1 && 0 <= k < dsts[l].Length2 ::
        dsts[l][i, j, k] == if Copies(byLevel[l]) && Covered(tasks[..done], l, i) then srcs[l][i, j, k] else old(dsts[l][i, j, k])
    {
      var t := tasks[done];
      var r := CopyTask(srcs, dsts, byLevel, tasks, done);
      if r.Err? {
        failure := Some(r.error);
        return;
      }
      assert !CopyFails(byLevel[t.level]);
      RunStep(clock, start, tasks, byLevel, totalBytes, done);
      bytesDone := bytesDone + r.value;
      var now := clock[done];
      done := done + 1;
      if now - last >= ReportInterval || done == |tasks| {
        reports := reports + [Report(done, bytesDone, totalBytes)];
        last := now;
      }
    }
  }

  /** What one more task adds: its bytes, the depths it covers and its report, if it fires. */
  lemma RunStep(clock: seq<real>, start: real, tasks: seq<Task>, byLevel: map<int, LevelInfo>, totalBytes: int, n: nat)
    requires n < |clock| && n < |tasks| && Known(tasks, byLevel)
    ensures SumTaskBytes(tasks[..n + 1], byLevel) == SumTaskBytes(tasks[..n], byLevel) + TaskBytes(tasks[n], byLevel)
    ensures forall l, i :: Covered(tasks[..n + 1], l, i) <==> Covered(tasks[..n], l, i) || (tasks[n].level == l && tasks[n].z0 <= i < tasks[n].z1)
    ensures Fires(clock, start, |tasks|, n + 1) <==> clock[n] - LastReport(clock, start, |tasks|, n) >= ReportInterval || n + 1 == |tasks|
    ensures LastReport(clock, start, |tasks|, n + 1) == if Fires(clock, start, |tasks|, n + 1) then clock[n] else LastReport(clock, start, |tasks|, n)
    ensures ReportLog(clock, start, tasks, byLevel, totalBytes, n + 1) == ReportLog(clock, start, tasks, byLevel, totalBytes, n)
      + if Fires(clock, start, |tasks|, n + 1) then [Report(n + 1, SumTaskBytes(tasks[..n + 1], byLevel), totalBytes)] else []
  {
    assert tasks[..n + 1] == tasks[..n] + [tasks[n]];
    assert tasks[..n + 1][..n] == tasks[..n];
    SumTaskBytesAppend(tasks[..n], [tasks[n]], byLevel);
  }

  /** One iteration's copy_z_slab for tasks[done], on the volumes of its level; the other levels are untouched. */
  method CopyTask(srcs: map<int, array3<u16>>, dsts: map<int, array3<u16>>, byLevel: map<int, LevelInfo>,
                  tasks: seq<Task>, done: nat) returns (r: Result<int, CopyError>)
    requires done < |tasks| && Volumes(srcs, dsts, byLevel) && InRange(tasks, byLevel)
    modifies set l | l in dsts :: dsts[l]
    ensures r.Err? <==> CopyFails(byLevel[tasks[done].level])
    ensures r.Ok? ==> r.value == TaskBytes(tasks[done], byLevel)
    ensures forall l, i, j, k | l in byLevel && 0 <= i < dsts[l].Length0 && 0 <= j < dsts[l].Length1 && 0 <= k < dsts[l].Length2 ::
      dsts[l][i, j, k] == if r.Ok? && Copies(byLevel[l]) && l == tasks[done].level && tasks[done].z0 <= i < tasks[done].z1
                          then srcs[l][i, j, k] else old(dsts[l][i, j, k])
  {
    var t := tasks[done];
    r := CopyZSlab(srcs[t.level], dsts[t.level], byLevel[t.level], t);
  }

  /** The log after n tasks extends the log after n - 1 tasks by the n-th report, if it fired. */
  lemma LogStep(clock: seq<real>, start: real, tasks: seq<Task>, byLevel: map<int, LevelInfo>, totalBytes: int, n: nat)
    requires 1 <= n <= |clock| && n <= |tasks| && Known(tasks, byLevel)
    ensures var log := ReportLog(clock, start, tasks, byLevel, totalBytes, n);
      var prev := ReportLog(clock, start, tasks, byLevel, totalBytes, n - 1);
      && |prev| <= |log| <= |prev| + 1
      && (forall p :: 0 <= p < |prev| ==> log[p] == prev[p])
      && (|log| == |prev| + 1 <==> Fires(clock, start, |tasks|, n))
      && (|log| == |prev| + 1 ==> log[|prev|] == Report(n, SumTaskBytes(tasks[..n], byLevel), totalBytes))
  {
  }

  /** Every report names a task count between 1 and n, bytes_done after that many tasks and the expected total. */
  lemma {:induction false} ReportBytes(clock: seq<real>, start: real, tasks: seq<Task>, byLevel: map<int, LevelInfo>, totalBytes: int, n: nat)
    requires n <= |clock| && n <= |tasks| && Known(tasks, byLevel)
    ensures var log := ReportLog(clock, start, tasks, byLevel, totalBytes, n);
      forall p :: 0 <= p < |log| ==>
        (1 <= log[p].idx <= n && log[p].totalBytes == totalBytes
         && log[p].bytesDone == SumTaskBytes(tasks[..log[p].idx], byLevel))
  {
    if n > 0 {
      ReportBytes(clock, start, tasks, byLevel, totalBytes, n - 1);
      LogStep(clock, start, tasks, byLevel, totalBytes, n);
    }
  }

  /** The reports name strictly increasing task counts. */
  lemma {:induction false} ReportsAscending(clock: seq<real>, start: real, tasks: seq<Task>, byLevel: map<int, LevelInfo>, totalBytes: int, n: nat)
    requires n <= |clock| && n <= |tasks| && Known(tasks, byLevel)
    ensures var log := ReportLog(clock, start, tasks, byLevel, totalBytes, n);
      forall p, q :: 0 <= p < q < |log| ==> log[p].idx < log[q].idx
  {
    if n > 0 {
      ReportsAscending(clock, start, tasks, byLevel, totalBytes, n - 1);
      ReportBytes(clock, start, tasks, byLevel, totalBytes, n - 1);
      LogStep(clock, start, tasks, byLevel, totalBytes, n);
    }
  }

  /** A report after task m is printed exactly when the report condition holds after task m. */
  lemma {:induction false} ReportedIff(clock: seq<real>, start: real, tasks: seq<Task>, byLevel: map<int, LevelInfo>, totalBytes: int, n: nat, m: nat)
    requires n <= |clock| && n <= |tasks| && Known(tasks, byLevel) && 1 <= m <= n
    ensures var log := ReportLog(clock, start, tasks, byLevel, totalBytes, n);
      Fires(clock, start, |tasks|, m) <==> exists p :: 0 <= p < |log| && log[p].idx == m
  {
    var log := ReportLog(clock, start, tasks, byLevel, totalBytes, n);
    var prev := ReportLog(clock, start, tasks, byLevel, totalBytes, n - 1);
    ReportBytes(clock, start, tasks, byLevel, totalBytes, n - 1);
    LogStep(clock, start, tasks, byLevel, totalBytes, n);
    if m == n {
      if Fires(clock, start, |tasks|, m) {
        assert log[|prev|].idx == m;
      }
    } else {
      ReportedIff(clock, start, tasks, byLevel, totalBytes, n - 1, m);
      if Fires(clock, start, |tasks|, m) {
        var p :| 0 <= p < |prev| && prev[p].idx == m;
        assert log[p] == prev[p];
      }
    }
  }

  /** last_report is the clock reading of the latest report, or the start time before the first. */
  lemma {:induction false} LastReportLogged(clock: seq<real>, start: real, tasks: seq<Task>, byLevel: map<int, LevelInfo>, totalBytes: int, n: nat)
    requires n <= |clock| && n <= |tasks| && Known(tasks, byLevel)
    ensures var log := ReportLog(clock, start, tasks, byLevel, totalBytes, n);
      && (log != [] ==> 1 <= log[|log| - 1].idx <= n)
      && LastReport(clock, start, |tasks|, n) == if log == [] then start else clock[log[|log| - 1].idx - 1]
  {
    ReportBytes(clock, start, tasks, byLevel, totalBytes, n);
    if n > 0 {
      LastReportLogged(clock, start, tasks, byLevel, totalBytes, n - 1);
      LogStep(clock, start, tasks, byLevel, totalBytes, n);
    }
  }

  /**
   * The run always ends on a report: after the last task, the final line
   * names every task and bytes_done over all of them.
   */
  lemma FinalReport(clock: seq<real>, start: real, tasks: seq<Task>, byLevel: map<int, LevelInfo>, totalBytes: int)
    requires |clock| == |tasks| && |tasks| >= 1 && Known(tasks, byLevel)
    ensures var log := ReportLog(clock, start, tasks, byLevel, totalBytes, |tasks|);
      log != [] && log[|log| - 1] == Report(|tasks|, SumTaskBytes(tasks, byLevel), totalBytes)
  {
    assert tasks[..|tasks|] == tasks;
  }

  /**
   * A report before the last task is printed only once ten seconds have
   * passed since the previous report (or since the start for the first one).
   */
  lemma Spacing(clock: seq<real>, start: real, tasks: seq<Task>, byLevel: map<int, LevelInfo>, totalBytes: int, n: nat, p: nat)
    requires n <= |clock| && n <= |tasks| && Known(tasks, byLevel)
    requires p < |ReportLog(clock, start, tasks, byLevel, totalBytes, n)|
    requires ReportLog(clock, start, tasks, byLevel, totalBytes, n)[p].idx < |tasks|
    ensures var log := ReportLog(clock, start, tasks, byLevel, totalBytes, n);
      && 1 <= log[p].idx <= n
      && (p > 0 ==> 1 <= log[p - 1].idx < log[p].idx)
      && clock[log[p].idx - 1] - (if p == 0 then start else clock[log[p - 1].idx - 1]) >= ReportInterval
  {
    ReportPrefix(clock, start, tasks, byLevel, totalBytes, n, p);
    PreviousReportTime(clock, start, tasks, byLevel, totalBytes, n, p);
  }

  /** Just before the p-th report, last_report holds the time of report p - 1, or the start time. */
  lemma PreviousReportTime(clock: seq<real>, start: real, tasks: seq<Task>, byLevel: map<int, LevelInfo>, totalBytes: int, n: nat, p: nat)
    requires n <= |clock| && n <= |tasks| && Known(tasks, byLevel)
    requires p < |ReportLog(clock, start, tasks, byLevel, totalBytes, n)|
    ensures var log := ReportLog(clock, start, tasks, byLevel, totalBytes, n);
      && 1 <= log[p].idx <= n
      && (p > 0 ==> 1 <= log[p - 1].idx < log[p].idx)
      && LastReport(clock, start, |tasks|, log[p].idx - 1) == if p == 0 then start else clock[log[p - 1].idx - 1]
  {
    var log := ReportLog(clock, start, tasks, byLevel, totalBytes, n);
    ReportPrefix(clock, start, tasks, byLevel, totalBytes, n, p);
    var m := log[p].idx;
    LastReportLogged(clock, start, tasks, byLevel, totalBytes, m - 1);
    var before := ReportLog(clock, start, tasks, byLevel, totalBytes, m - 1);
    LastBeforeReport(log, before, p, clock, start, LastReport(clock, start, |tasks|, m - 1));
  }

  /** The last report of the prefix log[..p] is report p - 1. */
  lemma LastBeforeReport(log: seq<Report>, before: seq<Report>, p: nat, clock: seq<real>, start: real, last: real)
    requires p < |log| && before == log[..p] && 1 <= log[p].idx <= |clock|
    requires before != [] ==> 1 <= before[|before| - 1].idx <= log[p].idx - 1
    requires last == if before == [] then start else clock[before[|before| - 1].idx - 1]
    ensures p > 0 ==> 1 <= log[p - 1].idx < log[p].idx
    ensures last == if p == 0 then start else clock[log[p - 1].idx - 1]
  {
  }

  /** The reports up to the p-th one are the log after its task, and its condition held. */
  lemma {:induction false} ReportPrefix(clock: seq<real>, start: real, tasks: seq<Task>, byLevel: map<int, LevelInfo>, totalBytes: int, n: nat, p: nat)
    requires n <= |clock| && n <= |tasks| && Known(tasks, byLevel)
    requires p < |ReportLog(clock, start, tasks, byLevel, totalBytes, n)|
    ensures var log := ReportLog(clock, start, tasks, byLevel, totalBytes, n);
      && 1 <= log[p].idx <= n && Fires(clock, start, |tasks|, log[p].idx)
      && ReportLog(clock, start, tasks, byLevel, totalBytes, log[p].idx - 1) == log[..p]
  {
    var log := ReportLog(clock, start, tasks, byLevel, totalBytes, n);
    var prev := ReportLog(clock, start, tasks, byLevel, totalBytes, n - 1);
    LogStep(clock, start, tasks, byLevel, totalBytes, n);
    if p < |prev| {
      ReportPrefix(clock, start, tasks, byLevel, totalBytes, n - 1, p);
      assert log[p] == prev[p];
      assert log[..p] == prev[..p];
    } else {
      assert log[..p] == prev;
    }
  }

  /** Covered means some task of the list names the level and spans the depth. */
  lemma {:induction false} CoveredIff(ts: seq<Task>, l: int, i: int)
    ensures Covered(ts, l, i) <==> exists k :: 0 <= k < |ts| && ts[k].level == l && ts[k].z0 <= i < ts[k].z1
  {
    if ts != [] {
      var init := ts[..|ts| - 1];
      CoveredIff(init, l, i);
      if exists k :: 0 <= k < |ts| && ts[k].level == l && ts[k].z0 <= i < ts[k].z1 {
        var k :| 0 <= k < |ts| && ts[k].level == l && ts[k].z0 <= i < ts[k].z1;
        if k < |init| { assert init[k] == ts[k]; }
      }
      if Covered(init, l, i) {
        var k :| 0 <= k < |init| && init[k].level == l && init[k].z0 <= i < init[k].z1;
        assert ts[k] == init[k];
      }
    }
  }

  /**
   * The full plan writes every depth of every level: a run that completes
   * copies each destination cell from its source when the level's y/x
   * blocks are non-empty.
   */
  lemma PlanWritesEveryDepth(infos: seq<LevelInfo>, idx: int, i: int)
    requires 0 <= idx < |infos| && infos[idx].chunk.z >= 1 && 0 <= i < infos[idx].dstShape.z
    ensures Covered(PlanTasks(infos), infos[idx].level, i)
  {
    PlanCovers(infos, idx, i);
    CoveredIff(PlanTasks(infos), infos[idx].level, i);
  }

  /** bytes_done never decreases from one task to a later one. */
  lemma {:induction false} BytesNondecreasing(tasks: seq<Task>, byLevel: map<int, LevelInfo>, m: nat, n: nat)
    requires InRange(tasks, byLevel) && m <= n <= |tasks|
    requires forall l :: l in byLevel ==> byLevel[l].dstShape.y >= 0 && byLevel[l].dstShape.x >= 0
    ensures Known(tasks, byLevel)
    ensures SumTaskBytes(tasks[..m], byLevel) <= SumTaskBytes(tasks[..n], byLevel)
    decreases n - m
  {
    if m < n {
      BytesNondecreasing(tasks, byLevel, m + 1, n);
      var t := tasks[m];
      assert tasks[..m + 1] == tasks[..m] + [t];
      SumTaskBytesAppend(tasks[..m], [t], byLevel);
      var info := byLevel[t.level];
      var area := info.dstShape.y * info.dstShape.x;
      assert area >= 0;
      assert (t.z1 - t.z0) * area >= 0;
      assert TaskBytes(t, byLevel) == (t.z1 - t.z0) * area * ItemSize;
    }
  }

  /** A run over the whole plan ends with bytes_done equal to the total_bytes _build_tasks reports. */
  lemma FullRunBytes(infos: seq<LevelInfo>)
    requires LevelDetermined(infos) && Plannable(infos)
    ensures Known(PlanTasks(infos), InfoByLevel(infos))
    ensures SumTaskBytes(PlanTasks(infos)[..|PlanTasks(infos)|], InfoByLevel(infos)) == TotalBytes(infos)
  {
    var m := InfoByLevel(infos);
    forall i | 0 <= i < |infos| ensures m[infos[i].level] == infos[i] {
      InfoByLevelAt(infos, i);
    }
    PlanBytes(infos, m);
    assert PlanTasks(infos)[..|PlanTasks(infos)|] == PlanTasks(infos);
  }
}
