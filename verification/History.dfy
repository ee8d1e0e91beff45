/** Runs that follow one another on the same directory, with any number of ranks each. */
module History {
  import opened Types
  import opened Json
  import opened Codec
  import opened Sequences
  import opened Traces

  // One successful run: the log of each rank, and the merged trace rank 0 wrote.
  datatype Run = Run(logs: seq<seq<Event>>, style: Style, merged: seq<Event>)

  function WriteRanks(files: Files, logs: seq<seq<Event>>): Files
    requires |logs| <= MAX_RANKS
  {
    if logs == [] then files
    else
      var last := |logs| - 1;
      WriteRanks(files, logs[..last])[RankFile(last) := TraceText(logs[last], Compact)]
  }

  function AfterRun(files: Files, run: Run): Files
    requires |run.logs| <= MAX_RANKS
  {
    WriteRanks(files, run.logs)[MERGED := TraceText(run.merged, run.style)]
  }

  // The merged trace is what rank 0 found in the directory once the rank files were written.
  ghost predicate RunOk(files: Files, run: Run) {
    |run.logs| <= MAX_RANKS && IsMerge(WriteRanks(files, run.logs), run.merged)
  }

  ghost predicate RunsOk(files: Files, runs: seq<Run>) {
    runs == [] ||
    (&& RunsOk(files, runs[..|runs| - 1])
     && RunOk(AfterRuns(files, runs[..|runs| - 1]), runs[|runs| - 1]))
  }

  ghost function AfterRuns(files: Files, runs: seq<Run>): Files {
    if runs == [] || |runs[|runs| - 1].logs| > MAX_RANKS then files
    else AfterRun(AfterRuns(files, runs[..|runs| - 1]), runs[|runs| - 1])
  }

  // The largest number of ranks any of the runs had.
  function Width(runs: seq<Run>): (n: nat)
    ensures forall i :: 0 <= i < |runs| ==> |runs[i].logs| <= n
    ensures n == 0 || exists i :: 0 <= i < |runs| && n == |runs[i].logs|
  {
    if runs == [] then 0
    else
      var n, m := Width(runs[..|runs| - 1]), |runs[|runs| - 1].logs|;
      if m > n then m else n
  }

  // The log of rank r in the most recent run that had a rank r.
  function Latest(runs: seq<Run>, r: nat): seq<Event> {
    if runs == [] then []
    else
      var last := runs[|runs| - 1];
      if r < |last.logs| then last.logs[r] else Latest(runs[..|runs| - 1], r)
  }

  function LatestLogs(runs: seq<Run>): seq<seq<Event>> {
    seq(Width(runs), r requires 0 <= r => Latest(runs, r))
  }

  lemma {:induction false} WriteRanksFile(files: Files, logs: seq<seq<Event>>, r: nat)
    requires r < |logs| <= MAX_RANKS
    ensures RankFile(r) in WriteRanks(files, logs)
    ensures WriteRanks(files, logs)[RankFile(r)] == TraceText(logs[r], Compact)
  {
    var last := |logs| - 1;
    if r < last {
      WriteRanksFile(files, logs[..last], r);
      RankFiles(r, last);
    }
  }

  lemma {:induction false} WriteRanksOther(files: Files, logs: seq<seq<Event>>, name: string)
    requires |logs| <= MAX_RANKS && name !in RankNames(|logs|)
    ensures name in WriteRanks(files, logs) <==> name in files
    ensures name in files ==> WriteRanks(files, logs)[name] == files[name]
  {
    if logs != [] {
      var last := |logs| - 1;
      assert name != RankFile(last) && name !in RankNames(last) by {
        assert RankNames(|logs|)[last] == RankFile(last);
        assert RankNames(|logs|)[..last] == RankNames(last);
      }
      WriteRanksOther(files, logs[..last], name);
    }
  }

  // The logs of a run, on top of those that earlier runs left.
  function Overlay(before: seq<seq<Event>>, logs: seq<seq<Event>>): seq<seq<Event>> {
    if |logs| >= |before| then logs else logs + before[|logs|..]
  }

  lemma LatestOverlay(runs: seq<Run>)
    requires runs != []
    ensures LatestLogs(runs) == Overlay(LatestLogs(runs[..|runs| - 1]), runs[|runs| - 1].logs)
  {
  }

  lemma NotAmongRankNames(r: nat, n: nat)
    requires n <= r < MAX_RANKS
    ensures RankFile(r) !in RankNames(n)
  {
    forall q | 0 <= q < n { RankFiles(q, r); }
  }

  lemma RankNamesGrow(n: nat, m: nat, name: string)
    requires n <= m <= MAX_RANKS && name in RankNames(n)
    ensures name in RankNames(m)
  {
    var q :| 0 <= q < n && RankNames(n)[q] == name;
    assert RankNames(m)[q] == name;
  }

  lemma OverlayFile(files: Files, before: seq<seq<Event>>, logs: seq<seq<Event>>, r: nat)
    requires RanksHold(files, before) && |logs| <= MAX_RANKS && r < |Overlay(before, logs)|
    ensures r < MAX_RANKS && RankFile(r) in WriteRanks(files, logs)
    ensures ParseTrace(WriteRanks(files, logs)[RankFile(r)]) == Some(Overlay(before, logs)[r])
  {
    if r < |logs| {
      WriteRanksFile(files, logs, r);
      TraceRoundTrip(logs[r], Compact);
    } else {
      NotAmongRankNames(r, |logs|);
      WriteRanksOther(files, logs, RankFile(r));
      assert Overlay(before, logs)[r] == before[r];
    }
  }

  lemma OverlayName(files: Files, before: seq<seq<Event>>, logs: seq<seq<Event>>, name: string)
    requires RanksHold(files, before) && |logs| <= MAX_RANKS
    requires name in WriteRanks(files, logs) && IsTrace(name)
    ensures |Overlay(before, logs)| <= MAX_RANKS && name in RankNames(|Overlay(before, logs)|)
  {
    if name in RankNames(|logs|) {
      RankNamesGrow(|logs|, |Overlay(before, logs)|, name);
    } else {
      WriteRanksOther(files, logs, name);
      RankNamesGrow(|before|, |Overlay(before, logs)|, name);
    }
  }

  lemma OverlayHeld(files: Files, before: seq<seq<Event>>, logs: seq<seq<Event>>)
    requires RanksHold(files, before) && |logs| <= MAX_RANKS
    ensures RanksHold(WriteRanks(files, logs), Overlay(before, logs))
  {
    var written, latest := WriteRanks(files, logs), Overlay(before, logs);
    forall r | 0 <= r < |latest|
      ensures r < MAX_RANKS && RankFile(r) in written && ParseTrace(written[RankFile(r)]) == Some(latest[r])
    {
      OverlayFile(files, before, logs, r);
    }
    forall name | name in written && IsTrace(name)
      ensures |latest| <= MAX_RANKS && name in RankNames(|latest|)
    {
      OverlayName(files, before, logs, name);
    }
  }

  lemma RunHeld(files: Files, before: seq<seq<Event>>, run: Run)
    requires RanksHold(files, before) && RunOk(files, run)
    ensures RanksHold(AfterRun(files, run), Overlay(before, run.logs))
    ensures multiset(run.merged) == multiset(Flatten(Overlay(before, run.logs)))
    ensures MERGED in AfterRun(files, run) && ParseTrace(AfterRun(files, run)[MERGED]) == Some(run.merged)
  {
    var written := WriteRanks(files, run.logs);
    OverlayHeld(files, before, run.logs);
    RanksHoldWithMerged(written, TraceText(run.merged, run.style), Overlay(before, run.logs));
    TraceRoundTrip(run.merged, run.style);
    var names := SetAsSequence(written.Keys);
    HeldContribute(written, Overlay(before, run.logs));
    CollectedLogs(written, Overlay(before, run.logs), [], names);
  }

  // Rank r's file holds its latest log after the runs, for every r any of them had.
  lemma {:induction false} HistoryFiles(files: Files, runs: seq<Run>)
    requires RunsOk(files, runs)
    requires forall name :: name in files ==> !IsTrace(name)
    ensures RanksHold(AfterRuns(files, runs), LatestLogs(runs))
  {
    if runs != [] {
      var front, run := runs[..|runs| - 1], runs[|runs| - 1];
      HistoryFiles(files, front);
      RunHeld(AfterRuns(files, front), LatestLogs(front), run);
      LatestOverlay(runs);
    }
  }

  // The latest merged trace holds, for every rank index ever used, the log of the last run that had it, and
  // nothing else.
  lemma HistoryMerged(files: Files, runs: seq<Run>)
    requires runs != [] && RunsOk(files, runs)
    requires forall name :: name in files ==> !IsTrace(name)
    ensures multiset(runs[|runs| - 1].merged) == multiset(Flatten(LatestLogs(runs)))
    ensures var after := AfterRuns(files, runs);
            MERGED in after && ParseTrace(after[MERGED]) == Some(runs[|runs| - 1].merged)
  {
    var front, run := runs[..|runs| - 1], runs[|runs| - 1];
    HistoryFiles(files, front);
    RunHeld(AfterRuns(files, front), LatestLogs(front), run);
    LatestOverlay(runs);
  }

  lemma {:induction false} FlattenSize<T>(ss: seq<seq<T>>, n: nat)
    requires n <= |ss|
    ensures |Flatten(ss)| >= |Flatten(ss[..n])|
    ensures n < |ss| && ss[n] != [] ==> |Flatten(ss)| > |Flatten(ss[..n])|
  {
    if n == |ss| {
      assert ss[..n] == ss;
    } else {
      var front := ss[..|ss| - 1];
      FlattenSize(front, n);
      assert front[..n] == ss[..n];
    }
  }

  // So the merged trace is exactly the latest run's events if and only if no earlier run had more ranks; every
  // log holds at least one event, its Finalize.
  lemma LatestRunAlone(files: Files, runs: seq<Run>)
    requires runs != [] && RunsOk(files, runs)
    requires forall name :: name in files ==> !IsTrace(name)
    requires forall i, r :: 0 <= i < |runs| && 0 <= r < |runs[i].logs| ==> runs[i].logs[r] != []
    ensures var run := runs[|runs| - 1];
            multiset(run.merged) == multiset(Flatten(run.logs)) <==>
            forall i :: 0 <= i < |runs| ==> |runs[i].logs| <= |run.logs|
  {
    var run := runs[|runs| - 1];
    var n := |run.logs|;
    var latest := LatestLogs(runs);
    HistoryMerged(files, runs);
    assert latest[..n] == run.logs;
    if Width(runs) == n {
      assert latest == run.logs;
    } else {
      LatestNonEmpty(runs, n);
      FlattenSize(latest, n);
      assert |multiset(Flatten(latest))| == |Flatten(latest)| > |Flatten(run.logs)| == |multiset(Flatten(run.logs))|;
    }
  }

  lemma {:induction false} LatestNonEmpty(runs: seq<Run>, r: nat)
    requires r < Width(runs)
    requires forall i, r :: 0 <= i < |runs| && 0 <= r < |runs[i].logs| ==> runs[i].logs[r] != []
    ensures Latest(runs, r) != []
  {
    var last := runs[|runs| - 1];
    if r >= |last.logs| {
      LatestNonEmpty(runs[..|runs| - 1], r);
    }
  }
}
