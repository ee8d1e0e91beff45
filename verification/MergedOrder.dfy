/** The order of the merged trace. */
module MergedOrder {
  import opened Types
  import opened Json
  import opened Dispatcher
  import opened Torn
  import opened Sort
  import opened Sequences
  import opened Traces
  import opened Protocol
  import opened RankInvariant
  import opened SystemInvariant
  import opened TimeInvariant
  import opened Safety

  function OfRank(r: int): Event -> bool {
    (e: Event) => e.currentRank == r
  }

  function IsFinalize(e: Event): bool {
    e.MpiFinalize?
  }

  lemma EventTimes(c: Call)
    ensures Dispatch(c).tsc == c.tsc && Dispatch(c).currentRank == c.currentRank
    ensures IsFinalize(Dispatch(c)) <==> c.kind == Finalize
    ensures Dispatch(c).End() <= c.tsc + c.duration
  {
    DispatchTimes(c);
    FinalizeStored(c);
  }

  // ---------- each rank's events ----------

  ghost predicate AllOfRank(log: seq<Event>, r: int) {
    forall e :: e in log ==> e.currentRank == r
  }

  ghost predicate NoneOfRank(log: seq<Event>, r: int) {
    forall e :: e in log ==> e.currentRank != r
  }

  lemma {:induction false} FilterFlatten(logs: seq<seq<Event>>, r: nat)
    requires r < |logs| && AllOfRank(logs[r], r)
    requires forall q :: 0 <= q < |logs| && q != r ==> NoneOfRank(logs[q], r)
    ensures Filter(Flatten(logs), OfRank(r)) == logs[r]
  {
    var last := |logs| - 1;
    var front := logs[..last];
    FilterConcat(Flatten(front), logs[last], OfRank(r));
    FilterAll(logs[last], OfRank(r));
    if r < last {
      assert front[r] == logs[r];
      FilterFlatten(front, r);
    } else {
      FlattenOthers(front, r);
    }
  }

  lemma {:induction false} FlattenOthers(logs: seq<seq<Event>>, r: nat)
    requires forall q :: 0 <= q < |logs| ==> NoneOfRank(logs[q], r)
    ensures Filter(Flatten(logs), OfRank(r)) == []
  {
    if logs != [] {
      var last := |logs| - 1;
      FlattenOthers(logs[..last], r);
      FilterConcat(Flatten(logs[..last]), logs[last], OfRank(r));
      FilterAll(logs[last], OfRank(r));
    }
  }

  // Whatever the order and whatever else there is: what a trace holds of a rank is that rank's log.
  lemma RankPart(m: seq<Event>, logs: seq<seq<Event>>, rest: seq<Event>, r: nat)
    requires multiset(m) == multiset(Flatten(logs)) + multiset(rest)
    requires r < |logs| && AllOfRank(logs[r], r) && NoneOfRank(rest, r)
    requires forall q :: 0 <= q < |logs| && q != r ==> NoneOfRank(logs[q], r)
    ensures multiset(Filter(m, OfRank(r))) == multiset(logs[r])
  {
    FilterSame(m, Flatten(logs) + rest, OfRank(r));
    FilterConcat(Flatten(logs), rest, OfRank(r));
    FilterFlatten(logs, r);
    FilterAll(rest, OfRank(r));
    assert logs[r] + [] == logs[r];
  }

  // Sorted, it is the log in its own order if the log's time stamps increase; the sort need not be stable and ranks
  // may share time stamps.
  lemma RankOrder(m: seq<Event>, logs: seq<seq<Event>>, rest: seq<Event>, r: nat)
    requires Sorted(m, Tsc) && multiset(m) == multiset(Flatten(logs)) + multiset(rest)
    requires r < |logs| && AllOfRank(logs[r], r) && NoneOfRank(rest, r)
    requires forall q :: 0 <= q < |logs| && q != r ==> NoneOfRank(logs[q], r)
    requires StrictlySorted(logs[r], Tsc)
    ensures Filter(m, OfRank(r)) == logs[r]
  {
    RankPart(m, logs, rest, r);
    FilterSorted(m, OfRank(r), Tsc);
    SortedUnique(Filter(m, OfRank(r)), logs[r], Tsc);
  }

  // Apart from the rank's own file no trace in the directory holds events of the rank.
  ghost predicate OnlyOwnFile(files: Files, r: nat)
    requires r < MAX_RANKS
  {
    forall name :: name != RankFile(r) ==> NoneOfRank(Contribution(files, name), r)
  }

  lemma SavedOfRank(cfg: Config, s: State, q: nat)
    requires RanksOk(cfg, s) && q < |s.ranks| && !s.ranks[q].saved.Unwritten?
    ensures AllOfRank(Events(s.ranks[q].saved.log), q)
  {
    var k := s.ranks[q];
    assert RankOk(cfg, k, q);
    forall e | e in Events(k.saved.log)
      ensures e.currentRank == q
    {
      var i :| 0 <= i < |k.saved.log| && Events(k.saved.log)[i] == e;
      assert k.saved.log[i] == k.log[i];
      EventTimes(k.log[i].call);
    }
  }

  lemma LeftByRank(cfg: Config, start: Files, s: State, r: nat)
    requires RanksOk(cfg, s) && r < |s.ranks| && s.ranks[r].saved.Whole? && OnlyOwnFile(start, r)
    ensures AllOfRank(LeftLogs(start, s)[r], r)
    ensures forall q :: 0 <= q < |s.ranks| && q != r ==> NoneOfRank(LeftLogs(start, s)[q], r)
  {
    SavedOfRank(cfg, s, r);
    forall q | 0 <= q < |s.ranks| && q != r
      ensures NoneOfRank(LeftLogs(start, s)[q], r)
    {
      if s.ranks[q].saved.Unwritten? {
        RankFiles(q, r);
      } else {
        SavedOfRank(cfg, s, q);
      }
    }
  }

  lemma {:induction false} CollectedElsewhere(files: Files, names: seq<string>, r: nat)
    requires r < MAX_RANKS && OnlyOwnFile(files, r) && RankFile(r) !in names
    ensures NoneOfRank(Collected(files, names), r)
  {
    if names != [] {
      var name := names[|names| - 1];
      CollectedElsewhere(files, names[..|names| - 1], r);
      assert NoneOfRank(Contribution(files, name), r);
    }
  }

  // Of whoever has saved a log, the merged trace holds exactly that log.
  lemma MergedRankPart(cfg: Config, start: State, steps: seq<Step>, s: State, r: nat)
      returns (logs: seq<seq<Event>>, rest: seq<Event>)
    requires Runs(cfg, start, steps, s) && s.merged.Some?
    requires r < |s.ranks| <= MAX_RANKS && s.ranks[r].saved.Whole? && OnlyOwnFile(start.files, r)
    ensures multiset(s.merged.value) == multiset(Flatten(logs)) + multiset(rest) && Sorted(s.merged.value, Tsc)
    ensures r < |logs| && logs[r] == Events(s.ranks[r].saved.log) && AllOfRank(logs[r], r) && NoneOfRank(rest, r)
    ensures forall q :: 0 <= q < |logs| && q != r ==> NoneOfRank(logs[q], r)
  {
    assert RanksOk(cfg, s) by {
      Reachable(cfg, start, steps, s);
    }
    var others := OtherTracesListed(start.files, |s.ranks|);
    logs, rest := LeftLogs(start.files, s), Collected(start.files, others);
    MergedHasWhatWasLeft(cfg, start, steps, s, others);
    LeftByRank(cfg, start.files, s, r);
    assert RankNames(|s.ranks|)[r] == RankFile(r);
    CollectedElsewhere(start.files, others, r);
  }

  // The merged trace holds of a rank exactly what the rank saved, whatever its threads, the clocks and the other
  // ranks did.
  lemma MergedHasRankLog(cfg: Config, start: State, steps: seq<Step>, s: State, r: nat)
    requires Runs(cfg, start, steps, s) && s.merged.Some?
    requires r < |s.ranks| <= MAX_RANKS && s.ranks[r].saved.Whole? && OnlyOwnFile(start.files, r)
    ensures multiset(Filter(s.merged.value, OfRank(r))) == multiset(Events(s.ranks[r].saved.log))
  {
    var logs, rest := MergedRankPart(cfg, start, steps, s, r);
    RankPart(s.merged.value, logs, rest, r);
  }

  lemma SerialLogSorted(log: seq<Entry>)
    requires InOrder(log)
    ensures StrictlySorted(Events(log), Tsc)
  {
    forall i, j | 0 <= i < j < |log|
      ensures Events(log)[i].tsc < Events(log)[j].tsc
    {
      EventTimes(log[i].call);
      EventTimes(log[j].call);
    }
  }

  lemma RankInOrder(cfg: Config, start: State, steps: seq<Step>, s: State, r: nat)
    requires Runs(cfg, start, steps, s) && r < |s.ranks| && r in cfg.serial && cfg.Steady(r)
    ensures InOrder(s.ranks[r].log)
  {
    Reachable(cfg, start, steps, s);
    assert RankTimesOk(cfg, s.ranks[r], r);
  }

  // If a rank serialises its calls and its clock is steady, the merged trace keeps its events in the order in which
  // it made the calls, whatever the other ranks do.
  lemma MergedKeepsRankOrder(cfg: Config, start: State, steps: seq<Step>, s: State, r: nat)
    requires Runs(cfg, start, steps, s) && s.merged.Some? && r in cfg.serial && cfg.Steady(r)
    requires r < |s.ranks| <= MAX_RANKS && s.ranks[r].saved.Whole? && OnlyOwnFile(start.files, r)
    ensures Filter(s.merged.value, OfRank(r)) == Events(s.ranks[r].log)
  {
    var logs, rest := MergedRankPart(cfg, start, steps, s, r);
    RankInOrder(cfg, start, steps, s, r);
    SerialLogSorted(s.ranks[r].log);
    SavedIsLog(cfg, start, steps, s, r);
    RankOrder(s.merged.value, logs, rest, r);
  }

  // ---------- directories that earlier runs left ----------

  ghost predicate OwnTrace(files: Files, name: string, q: int) {
    0 <= q < MAX_RANKS && name == RankFile(q) && AllOfRank(Contribution(files, name), q)
  }

  // Every trace file is that of some rank and holds events of that rank only.
  ghost predicate OwnTraces(files: Files) {
    forall name :: name in files && IsTrace(name) ==> exists q :: OwnTrace(files, name, q)
  }

  lemma OwnTracesOnly(files: Files, r: nat)
    requires OwnTraces(files) && r < MAX_RANKS
    ensures OnlyOwnFile(files, r)
  {
    forall name | name != RankFile(r)
      ensures NoneOfRank(Contribution(files, name), r)
    {
      if name in files && IsTrace(name) {
        var q :| OwnTrace(files, name, q);
      }
    }
  }

  lemma RankFileOwn(cfg: Config, start: Files, s: State, r: nat)
    requires RanksOk(cfg, s) && FilesOk(start, s) && OwnTraces(start) && r < |s.ranks| && RankFile(r) in s.files
    ensures OwnTrace(s.files, RankFile(r), r)
  {
    var k := s.ranks[r];
    assert FileOk(s.files, r, k);
    if k.pc.Writing? {
      CutTrace([], Compact, 0);
    } else if k.saved.Unwritten? {
      assert SameFile(start, s.files, RankFile(r));
      RankFiles(r, r);
      var q :| OwnTrace(start, RankFile(r), q);
      RankFiles(r, q);
    } else if IsTorn(k) {
      CutTrace(Events(k.saved.log), Compact, k.saved.length);
    } else {
      SavedOfRank(cfg, s, r);
      LeftContribution(start, s, r);
    }
  }

  // Every run leaves such a directory so, at every moment and whatever fails. Thus what earlier runs left, even with
  // more ranks, is never taken for a rank of this run that saves its log.
  lemma OwnTracesKept(cfg: Config, start: State, steps: seq<Step>, s: State)
    requires Runs(cfg, start, steps, s) && OwnTraces(start.files)
    ensures OwnTraces(s.files)
  {
    assert RanksOk(cfg, s) && FilesOk(start.files, s) by {
      Reachable(cfg, start, steps, s);
    }
    forall name | name in s.files && IsTrace(name)
      ensures exists q :: OwnTrace(s.files, name, q)
    {
      if name in RankNames(|s.ranks|) {
        var r :| 0 <= r < |s.ranks| && RankNames(|s.ranks|)[r] == name;
        RankFileOwn(cfg, start.files, s, r);
      } else {
        assert SameFile(start.files, s.files, name);
        var q :| OwnTrace(start.files, name, q);
        assert OwnTrace(s.files, name, q);
      }
    }
  }

  // ---------- Finalize events come last ----------

  lemma FinalizeCountOne(log: seq<Entry>)
    requires EndsWithFinalize(log)
    ensures |Filter(Events(log), IsFinalize)| == 1
  {
    var n := |log| - 1;
    var front, last := log[..n], log[n];
    assert Events(log) == Events(front) + [last.Event()];
    FilterConcat(Events(front), [last.Event()], IsFinalize);
    EventTimes(last.call);
    forall e | e in Events(front)
      ensures !IsFinalize(e)
    {
      var i :| 0 <= i < n && Events(front)[i] == e;
      EventTimes(front[i].call);
      assert front[i].call.kind != Finalize;
    }
    FilterAll(Events(front), IsFinalize);
    FilterAll([last.Event()], IsFinalize);
  }

  lemma {:induction false} FinalizeCount(s: State, n: nat)
    requires n <= |s.ranks|
    requires forall r :: 0 <= r < n ==> EndsWithFinalize(s.ranks[r].log)
    ensures |Filter(Flatten(Logs(s)[..n]), IsFinalize)| == n
  {
    if n > 0 {
      var front := Logs(s)[..n - 1];
      FinalizeCount(s, n - 1);
      FinalizeCountOne(s.ranks[n - 1].log);
      assert Logs(s)[..n][..n - 1] == front && Logs(s)[..n][n - 1] == Events(s.ranks[n - 1].log);
      FilterConcat(Flatten(front), Events(s.ranks[n - 1].log), IsFinalize);
    }
  }

  lemma {:induction false} FlattenMember(s: State, n: nat, e: Event) returns (r: nat, i: nat)
    requires n <= |s.ranks| && e in Flatten(Logs(s)[..n])
    ensures r < n && i < |s.ranks[r].log| && s.ranks[r].log[i].Event() == e
  {
    var front := Logs(s)[..n - 1];
    assert Logs(s)[..n][..n - 1] == front && Logs(s)[..n][n - 1] == Events(s.ranks[n - 1].log);
    if e in Events(s.ranks[n - 1].log) {
      var j: nat :| j < |s.ranks[n - 1].log| && Events(s.ranks[n - 1].log)[j] == e;
      r, i := n - 1, j;
    } else {
      assert e in Flatten(front);
      r, i := FlattenMember(s, n - 1, e);
    }
  }

  // With one clock shared by all ranks, every other call's interval ends before every Finalize event.
  lemma FinalizeAfterAll(cfg: Config, s: State, x: Event, y: Event)
    requires SharedOk(cfg, s) && AllQuiet(cfg, s)
    requires x in Flatten(Logs(s)) && y in Flatten(Logs(s)) && !IsFinalize(x) && IsFinalize(y)
    ensures x.End() < y.tsc && x.tsc < y.tsc
  {
    assert Logs(s)[..|s.ranks|] == Logs(s);
    var r, i := FlattenMember(s, |s.ranks|, x);
    var q, j := FlattenMember(s, |s.ranks|, y);
    EventTimes(s.ranks[r].log[i].call);
    EventTimes(s.ranks[q].log[j].call);
    assert FinalAfter(s.ranks[r], s.ranks[q]);
    assert ProperBefore(s.ranks[r].log, s.ranks[q].log[j].call.tsc);
  }

  lemma FinalizeSuffix(cfg: Config, s: State, m: seq<Event>)
    requires Sorted(m, Tsc) && multiset(m) == multiset(Flatten(Logs(s)))
    requires SharedOk(cfg, s) && AllQuiet(cfg, s)
    requires forall r :: 0 <= r < |s.ranks| ==> EndsWithFinalize(s.ranks[r].log)
    ensures |s.ranks| <= |m|
    ensures forall i :: 0 <= i < |m| ==> (IsFinalize(m[i]) <==> i >= |m| - |s.ranks|)
    ensures forall x, y :: x in m && y in m && !IsFinalize(x) && IsFinalize(y) ==> x.End() < y.tsc
  {
    var logs := Logs(s);
    assert |Filter(m, IsFinalize)| == |s.ranks| by {
      FinalizeCount(s, |s.ranks|);
      assert logs[..|s.ranks|] == logs;
      FilterSame(m, Flatten(logs), IsFinalize);
    }
    forall x, y | x in m && y in m && !IsFinalize(x) && IsFinalize(y)
      ensures Tsc(x) < Tsc(y) && x.End() < y.tsc
    {
      SameMember(m, Flatten(logs), x);
      SameMember(m, Flatten(logs), y);
      FinalizeAfterAll(cfg, s, x, y);
    }
    SortedSuffix(m, IsFinalize, Tsc);
  }

  // In a run on one shared clock whose calls are over before Finalize, the last events of the merged trace are
  // exactly the Finalize events, one for each rank, and no other call's interval reaches into them.
  lemma MergedEndsWithFinalize(cfg: Config, start: State, steps: seq<Step>, s: State)
    requires Runs(cfg, start, steps, s) && cfg.shared && AllQuiet(cfg, s)
    requires s.merged.Some? && AllSaved(s) && |s.ranks| <= MAX_RANKS && OtherTraces(start.files, |s.ranks|, [])
    ensures var m, n := s.merged.value, |s.ranks|;
            && n <= |m|
            && (forall i :: 0 <= i < |m| ==> (IsFinalize(m[i]) <==> i >= |m| - n))
            && (forall x, y :: x in m && y in m && !IsFinalize(x) && IsFinalize(y) ==> x.End() < y.tsc)
  {
    assert SharedOk(cfg, s) by {
      Reachable(cfg, start, steps, s);
    }
    MergedHasAllLogs(cfg, start, steps, s, []);
    forall r | 0 <= r < |s.ranks|
      ensures EndsWithFinalize(s.ranks[r].log)
    {
      SavedIsLog(cfg, start, steps, s, r);
    }
    FinalizeSuffix(cfg, s, s.merged.value);
  }
}
