/** What holds in every reachable state of a traced program, and of the merged trace it leaves behind. */
module Safety {
  import opened Types
  import opened Json
  import opened Codec
  import opened Torn
  import opened Sort
  import opened Sequences
  import opened Traces
  import opened TraceDirectory
  import opened History
  import opened Protocol
  import opened RankInvariant
  import opened SystemInvariant
  import opened TimeInvariant

  // What is known of times, for the ranks and clocks that allow it.
  ghost predicate RankTimesOk(cfg: Config, k: Rank, r: nat) {
    cfg.Steady(r) ==> PastOk(k) && (r in cfg.serial ==> SerialOk(k))
  }

  ghost predicate TimesOk(cfg: Config, s: State) {
    && (forall r :: 0 <= r < |s.ranks| ==> RankTimesOk(cfg, s.ranks[r], r))
    && (cfg.shared ==> SharedOk(cfg, s))
  }

  ghost predicate Inv(cfg: Config, start: State, s: State) {
    && |s.ranks| == |start.ranks|
    && RanksOk(cfg, s) && BarriersOk(s) && FilesOk(start.files, s)
    && GatherOk(cfg, s.ranks[0].pc, s.files, s.listed, s.merged)
    && TimesOk(cfg, s)
  }

  lemma StartRank(cfg: Config, s: State, r: nat)
    requires Start(s) && r < |s.ranks|
    ensures RankOk(cfg, s.ranks[r], r) && RankTimesOk(cfg, s.ranks[r], r)
  {
    var k := s.ranks[r];
    assert k.pc.Running? && k.log == [] && AllIdle(k) && k.saved.Unwritten?;
  }

  lemma StartShared(cfg: Config, s: State)
    requires Start(s)
    ensures SharedOk(cfg, s)
  {
    forall r, q | 0 <= r < |s.ranks| && 0 <= q < |s.ranks| && cfg.Quiet(r)
      ensures FinalAfter(s.ranks[r], s.ranks[q])
    {
      assert s.ranks[q].pc.Running? && s.ranks[q].log == [];
    }
  }

  lemma StartInv(cfg: Config, s: State)
    requires Start(s)
    ensures Inv(cfg, s, s)
  {
    forall r | 0 <= r < |s.ranks|
      ensures RankOk(cfg, s.ranks[r], r) && RankTimesOk(cfg, s.ranks[r], r)
    {
      StartRank(cfg, s, r);
    }
    StartShared(cfg, s);
    assert FilesOk(s.files, s);
    assert GatherOk(cfg, s.ranks[0].pc, s.files, s.listed, s.merged);
  }

  lemma RanksStep(cfg: Config, s: State, step: Step)
    requires Enabled(cfg, s, step) && RanksOk(cfg, s)
    ensures RanksOk(cfg, Apply(cfg, s, step))
  {
    RankStep(cfg, s, step);
    assert Apply(cfg, s, step).ranks == s.ranks[Target(step) := RankAfter(cfg, s, step)];
  }

  lemma RankTimesStep(cfg: Config, s: State, step: Step)
    requires Enabled(cfg, s, step) && RankOk(cfg, s.ranks[Target(step)], Target(step))
    requires RankTimesOk(cfg, s.ranks[Target(step)], Target(step))
    ensures RankTimesOk(cfg, RankAfter(cfg, s, step), Target(step))
  {
    if cfg.Steady(Target(step)) {
      PastStep(cfg, s, step);
      if Target(step) in cfg.serial {
        if IsThreadStep(step) {
          SerialThreadStep(cfg, s, step);
        } else {
          SerialMainStep(cfg, s, step);
        }
      }
    }
  }

  lemma TimesStep(cfg: Config, s: State, step: Step)
    requires Enabled(cfg, s, step) && RanksOk(cfg, s) && BarriersOk(s) && TimesOk(cfg, s)
    ensures TimesOk(cfg, Apply(cfg, s, step))
  {
    assert Apply(cfg, s, step).ranks == s.ranks[Target(step) := RankAfter(cfg, s, step)];
    RankTimesStep(cfg, s, step);
    if cfg.shared {
      assert forall r :: 0 <= r < |s.ranks| ==> PastOk(s.ranks[r]) by {
        forall r | 0 <= r < |s.ranks|
          ensures PastOk(s.ranks[r])
        {
          assert RankTimesOk(cfg, s.ranks[r], r);
        }
      }
      SharedStep(cfg, s, step);
    }
  }

  lemma InvStep(cfg: Config, start: State, s: State, step: Step)
    requires Inv(cfg, start, s) && Enabled(cfg, s, step)
    ensures Inv(cfg, start, Apply(cfg, s, step))
  {
    RanksStep(cfg, s, step);
    BarriersStep(cfg, s, step);
    FilesStep(cfg, start.files, s, step);
    if IsGatherStep(step) {
      GatherStep(cfg, s, step);
    } else {
      BeforeGatherStep(cfg, s, step);
    }
    TimesStep(cfg, s, step);
  }

  // From a state that satisfies the invariant only such states are reached.
  lemma {:induction false} InvKept(cfg: Config, start: State, s: State, steps: seq<Step>, s': State)
    requires Inv(cfg, start, s) && Leads(cfg, s, steps, s')
    ensures Inv(cfg, start, s')
    decreases |steps|
  {
    if steps != [] {
      var before: State :| Leads(cfg, s, Front(steps), before) && Takes(cfg, before, Last(steps), s');
      InvKept(cfg, start, s, Front(steps), before);
      InvStep(cfg, start, before, Last(steps));
    }
  }

  // Every state of every run satisfies the invariant.
  lemma Reachable(cfg: Config, start: State, steps: seq<Step>, s: State)
    requires Runs(cfg, start, steps, s)
    ensures Inv(cfg, start, s)
  {
    StartInv(cfg, start);
    InvKept(cfg, start, start, steps, s);
  }

  // The state before the last step, for inductions over runs.
  lemma BeforeLast(cfg: Config, start: State, steps: seq<Step>, s: State) returns (before: State)
    requires Runs(cfg, start, steps, s) && steps != []
    ensures Runs(cfg, start, Front(steps), before) && Takes(cfg, before, Last(steps), s)
    ensures RanksOk(cfg, before)
  {
    before :| Leads(cfg, start, Front(steps), before) && Takes(cfg, before, Last(steps), s);
    Reachable(cfg, start, Front(steps), before);
  }

  // ---------- the log of a rank ----------

  lemma HolderUnique(cfg: Config, start: State, steps: seq<Step>, s: State, r: nat, t: nat, u: nat)
    requires Runs(cfg, start, steps, s) && r < |s.ranks| && t < |s.ranks[r].threads| && u < |s.ranks[r].threads|
    requires InLock(s.ranks[r].threads[t])
    ensures !FinalizeHolds(s.ranks[r].pc) && (InLock(s.ranks[r].threads[u]) ==> t == u)
  {
    assert LockOk(s.ranks[r]) by {
      Reachable(cfg, start, steps, s);
      assert RankOk(cfg, s.ranks[r], r);
    }
  }

  lemma FoundLater(cfg: Config, start: State, first: seq<Step>, s: State, more: seq<Step>, s': State, r: nat)
    requires Runs(cfg, start, first, s) && Leads(cfg, s, more, s') && r < |s'.ranks|
    ensures FoundOk(s'.ranks[r])
  {
    Reachable(cfg, start, first, s);
    InvKept(cfg, start, s, more, s');
    assert RankOk(cfg, s'.ranks[r], r);
  }

  lemma LogGrows(cfg: Config, s: State, step: Step, r: nat)
    requires Enabled(cfg, s, step) && r < |s.ranks| <= MAX_RANKS && FoundOk(s.ranks[Target(step)])
    ensures s.ranks[r].log <= Apply(cfg, s, step).ranks[r].log
  {
    LogAfter(cfg, s, step);
    assert Apply(cfg, s, step).ranks == s.ranks[Target(step) := RankAfter(cfg, s, step)];
  }

  // However a run goes on, the entries that a log has stay where they are: because of the lock no push is lost.
  lemma {:induction false} LogOnlyGrows(cfg: Config, start: State, first: seq<Step>, s: State, more: seq<Step>,
                                        s': State, r: nat)
    requires Runs(cfg, start, first, s) && Leads(cfg, s, more, s') && r < |s.ranks|
    ensures r < |s'.ranks| && s.ranks[r].log <= s'.ranks[r].log
    decreases |more|
  {
    if more != [] {
      var before: State :| Leads(cfg, s, Front(more), before) && Takes(cfg, before, Last(more), s');
      LogOnlyGrows(cfg, start, first, s, Front(more), before, r);
      FoundLater(cfg, start, first, s, Front(more), before, Target(Last(more)));
      LogGrows(cfg, before, Last(more), r);
    }
  }

  // ---------- the gathering ----------

  ghost predicate AllSaved(s: State) {
    forall r :: 0 <= r < |s.ranks| ==> s.ranks[r].saved.Whole?
  }

  function Logs(s: State): seq<seq<Event>> {
    seq(|s.ranks|, r requires 0 <= r < |s.ranks| => Events(s.ranks[r].log))
  }

  lemma ReachableRank(cfg: Config, start: State, steps: seq<Step>, s: State, r: nat)
    requires Runs(cfg, start, steps, s) && r < |s.ranks|
    ensures r < MAX_RANKS && FinalizeOk(s.ranks[r], cfg.Quiet(r)) && FileOk(s.files, r, s.ranks[r])
  {
    Reachable(cfg, start, steps, s);
    assert RankOk(cfg, s.ranks[r], r);
  }

  lemma SecondBarrierPassed(cfg: Config, start: State, steps: seq<Step>, s: State, r: nat)
    requires Runs(cfg, start, steps, s) && r < |s.ranks| && Phase(s.ranks[0].pc) >= 8
    ensures Phase(s.ranks[r].pc) >= 7
  {
    Reachable(cfg, start, steps, s);
  }

  lemma MergedMeansDone(cfg: Config, start: State, steps: seq<Step>, s: State)
    requires Runs(cfg, start, steps, s) && s.merged.Some?
    ensures |s.ranks| > 0 && s.ranks[0].pc == Done
  {
    Reachable(cfg, start, steps, s);
  }

  // The file reads back as the log up to and including Finalize, which is all of it if the calls were over by then.
  ghost predicate HoldsLog(files: Files, r: nat, k: Rank, quiet: bool)
    requires k.saved.Whole?
  {
    && r < MAX_RANKS && RankFile(r) in files && ParseTrace(files[RankFile(r)]) == Some(Events(k.saved.log))
    && SavedFits(k.saved.log, k.log, quiet)
  }

  lemma SavedFile(files: Files, r: nat, k: Rank, quiet: bool)
    requires r < MAX_RANKS && FileOk(files, r, k) && FinalizeOk(k, quiet) && k.saved.Whole?
    ensures HoldsLog(files, r, k, quiet)
  {
    TraceRoundTrip(Events(k.saved.log), Compact);
  }

  // While rank 0 collects the traces nobody is writing one, and the file of every rank whose write succeeded holds
  // that rank's log, complete with its Finalize event.
  lemma GatherReadsFinishedFiles(cfg: Config, start: State, steps: seq<Step>, s: State, r: nat)
    requires Runs(cfg, start, steps, s) && r < |s.ranks|
    requires Phase(s.ranks[0].pc) >= 8
    ensures !s.ranks[r].pc.Opening? && !s.ranks[r].pc.Writing? && Phase(s.ranks[r].pc) >= 7
    ensures s.ranks[r].saved.Whole? ==> HoldsLog(s.files, r, s.ranks[r], cfg.Quiet(r))
  {
    SecondBarrierPassed(cfg, start, steps, s, r);
    if s.ranks[r].saved.Whole? {
      ReachableRank(cfg, start, steps, s, r);
      SavedFile(s.files, r, s.ranks[r], cfg.Quiet(r));
    }
  }

  // A rank's trace is in the file named after it, on a single line, even if only part of it was written.
  lemma RankFileText(cfg: Config, start: State, steps: seq<Step>, s: State, r: nat, name: string)
    requires Runs(cfg, start, steps, s) && r < |s.ranks| && !s.ranks[r].saved.Unwritten?
    requires NamesRank(name, r)
    ensures name in s.files && '\n' !in s.files[name]
    ensures s.ranks[r].saved.Whole? ==> ParseTrace(s.files[name]) == Some(Events(s.ranks[r].saved.log))
  {
    ReachableRank(cfg, start, steps, s, r);
    RankFileExact(name, r);
    SavedLine(s.ranks[r].saved);
  }

  lemma SavedLine(saved: Saved)
    requires !saved.Unwritten?
    ensures '\n' !in SavedText(saved)
    ensures saved.Whole? ==> ParseTrace(SavedText(saved)) == Some(Events(saved.log))
  {
    TraceLines(Events(saved.log), Compact);
    TraceRoundTrip(Events(saved.log), Compact);
  }

  // ---------- writes that fail ----------

  // The write stopped before the end of the text.
  ghost predicate IsTorn(k: Rank) {
    k.saved.Part? && k.saved.length < |TraceText(Events(k.saved.log), Compact)|
  }

  lemma TornUnreadable(files: Files, r: nat, k: Rank)
    requires r < MAX_RANKS && FileOk(files, r, k) && IsTorn(k)
    ensures !AllReadable(files)
  {
    CutTrace(Events(k.saved.log), Compact, k.saved.length);
    RankFiles(r, r);
    assert !Readable(files, RankFile(r));
  }

  lemma SameRankFilesReadable(listed: Files, files: Files)
    requires SameRankFiles(listed, files) && AllReadable(listed)
    ensures AllReadable(files)
  {
    forall name | name in files
      ensures Readable(files, name)
    {
      assert name == MERGED || SameFile(listed, files, name);
    }
  }

  lemma SameRankFilesBack(listed: Files, files: Files)
    requires SameRankFiles(listed, files)
    ensures SameRankFiles(files, listed)
  {
    forall name | name != MERGED
      ensures SameFile(files, listed, name)
    {
      assert SameFile(listed, files, name);
    }
  }

  lemma ListedReadable(cfg: Config, start: State, steps: seq<Step>, s: State)
    requires Runs(cfg, start, steps, s) && |s.ranks| > 0 && Phase(s.ranks[0].pc) >= 9
    ensures SameRankFiles(s.listed, s.files) && (s.ranks[0].pc.Panicked? <==> !AllReadable(s.listed))
  {
    assert GatherOk(cfg, s.ranks[0].pc, s.files, s.listed, s.merged) by {
      Reachable(cfg, start, steps, s);
    }
  }

  lemma PastReading(cfg: Config, start: State, steps: seq<Step>, s: State)
    requires Runs(cfg, start, steps, s) && |s.ranks| > 0 && Phase(s.ranks[0].pc) >= 9
    ensures s.ranks[0].pc.Panicked? <==> !AllReadable(s.files)
  {
    ListedReadable(cfg, start, steps, s);
    SameRankFilesBack(s.listed, s.files);
    if AllReadable(s.listed) {
      SameRankFilesReadable(s.listed, s.files);
    } else if AllReadable(s.files) {
      SameRankFilesReadable(s.files, s.listed);
    }
  }

  // A torn rank file makes rank 0 panic: it is never merged, neither as a shorter log nor otherwise.
  lemma TornMakesPanic(cfg: Config, start: State, steps: seq<Step>, s: State, r: nat)
    requires Runs(cfg, start, steps, s) && r < |s.ranks| && IsTorn(s.ranks[r])
    ensures Phase(s.ranks[0].pc) >= 9 ==> s.ranks[0].pc.Panicked?
    ensures s.merged.None?
  {
    ReachableRank(cfg, start, steps, s, r);
    TornUnreadable(s.files, r, s.ranks[r]);
    if Phase(s.ranks[0].pc) >= 9 && !s.ranks[0].pc.Panicked? {
      PastReading(cfg, start, steps, s);
    }
    if s.merged.Some? {
      MergedMeansDone(cfg, start, steps, s);
      PastReading(cfg, start, steps, s);
    }
  }

  // ---------- when rank 0 panics ----------

  ghost predicate SomeTorn(s: State) {
    exists r :: 0 <= r < |s.ranks| && IsTorn(s.ranks[r])
  }

  // An entry that was in the directory from the start, cannot be read, and was not written by any rank since.
  ghost predicate Stuck(start: Files, s: State, name: string)
    requires |s.ranks| <= MAX_RANKS
  {
    && name in start && !Readable(start, name)
    && forall r :: 0 <= r < |s.ranks| && name == RankFile(r) ==> s.ranks[r].saved.Unwritten?
  }

  ghost predicate SomeStuck(start: Files, s: State)
    requires |s.ranks| <= MAX_RANKS
  {
    exists name :: Stuck(start, s, name)
  }

  lemma WrittenReadable(files: Files, r: nat, k: Rank)
    requires r < MAX_RANKS && FileOk(files, r, k) && !k.saved.Unwritten? && !IsTorn(k)
    ensures RankFile(r) in files && Readable(files, RankFile(r))
  {
    RankFiles(r, r);
    assert SavedText(k.saved) == TraceText(Events(k.saved.log), Compact);
    TraceRoundTrip(Events(k.saved.log), Compact);
  }

  lemma UnreadableEntry(start: Files, s: State, name: string)
    requires |s.ranks| <= MAX_RANKS && FilesOk(start, s)
    requires forall r :: 0 <= r < |s.ranks| ==> !s.ranks[r].pc.Writing?
    requires name in s.files && !Readable(s.files, name) && !SomeTorn(s)
    ensures Stuck(start, s, name)
  {
    if name in RankNames(|s.ranks|) {
      var r :| 0 <= r < |s.ranks| && RankNames(|s.ranks|)[r] == name;
      forall q | 0 <= q < |s.ranks| && name == RankFile(q) { RankFiles(q, r); }
      if !s.ranks[r].saved.Unwritten? {
        WrittenReadable(s.files, r, s.ranks[r]);
      }
      assert SameFile(start, s.files, name);
    } else {
      assert forall q :: 0 <= q < |s.ranks| ==> RankNames(|s.ranks|)[q] == RankFile(q);
      assert SameFile(start, s.files, name);
    }
  }

  lemma StuckUnreadable(start: Files, s: State, name: string)
    requires |s.ranks| <= MAX_RANKS && FilesOk(start, s)
    requires forall r :: 0 <= r < |s.ranks| ==> !s.ranks[r].pc.Writing?
    requires Stuck(start, s, name)
    ensures name in s.files && !Readable(s.files, name)
  {
    if name in RankNames(|s.ranks|) {
      var r :| 0 <= r < |s.ranks| && RankNames(|s.ranks|)[r] == name;
      assert Untouched(s.ranks[r]);
    }
    assert SameFile(start, s.files, name);
  }

  lemma UnreadableExactly(start: Files, s: State)
    requires |s.ranks| <= MAX_RANKS && FilesOk(start, s)
    requires forall r :: 0 <= r < |s.ranks| ==> !s.ranks[r].pc.Writing?
    ensures !AllReadable(s.files) <==> SomeTorn(s) || SomeStuck(start, s)
  {
    if SomeTorn(s) {
      var r :| 0 <= r < |s.ranks| && IsTorn(s.ranks[r]);
      TornUnreadable(s.files, r, s.ranks[r]);
    } else if !AllReadable(s.files) {
      var name :| name in s.files && !Readable(s.files, name);
      UnreadableEntry(start, s, name);
    } else if SomeStuck(start, s) {
      var name :| Stuck(start, s, name);
      StuckUnreadable(start, s, name);
    }
  }

  lemma FilesLeft(cfg: Config, start: State, steps: seq<Step>, s: State)
    requires Runs(cfg, start, steps, s) && 0 < |s.ranks| <= MAX_RANKS && Phase(s.ranks[0].pc) >= 8
    ensures FilesOk(start.files, s) && forall r :: 0 <= r < |s.ranks| ==> !s.ranks[r].pc.Writing?
  {
    assert FilesOk(start.files, s) by {
      Reachable(cfg, start, steps, s);
    }
    forall r | 0 <= r < |s.ranks|
      ensures !s.ranks[r].pc.Writing?
    {
      SecondBarrierPassed(cfg, start, steps, s, r);
    }
  }

  // Once it has read the directory, rank 0 has panicked if and only if some rank's write stopped half-way or an entry
  // that cannot be read was there from the start and was not overwritten.
  lemma PanicsExactly(cfg: Config, start: State, steps: seq<Step>, s: State)
    requires Runs(cfg, start, steps, s) && 0 < |s.ranks| <= MAX_RANKS && Phase(s.ranks[0].pc) >= 9
    ensures s.ranks[0].pc.Panicked? <==> SomeTorn(s) || SomeStuck(start.files, s)
  {
    FilesLeft(cfg, start, steps, s);
    UnreadableExactly(start.files, s);
    PastReading(cfg, start, steps, s);
  }

  // ---------- when a merged trace is written ----------

  predicate MergeStepSucceeds(step: Step) {
    match step
    case OpenMerged(ok) => ok
    case WriteMerged(cut) => cut.None?
    case _ => true
  }

  // The merged file could be opened and written, as far as this was tried.
  predicate MergeSucceeds(steps: seq<Step>) {
    forall i :: 0 <= i < |steps| ==> MergeStepSucceeds(steps[i])
  }

  // Until rank 0 is done it has met no failure with the merged file, and then it has written it unless it met one.
  ghost predicate MergeAccounted(pc: Pc, merged: Option<seq<Event>>, succeeds: bool) {
    if pc.Done? then merged.Some? <==> succeeds else succeeds
  }

  lemma MergeGatherStep(cfg: Config, s: State, step: Step, succeeds: bool)
    requires |s.ranks| <= MAX_RANKS && IsGatherStep(step) && Enabled(cfg, s, step)
    requires GatherOk(cfg, s.ranks[0].pc, s.files, s.listed, s.merged)
    requires MergeAccounted(s.ranks[0].pc, s.merged, succeeds)
    ensures MergeAccounted(RankAfter(cfg, s, step).pc, Apply(cfg, s, step).merged,
                           succeeds && MergeStepSucceeds(step))
  {
    var pc, pc', merged' := s.ranks[0].pc, RankAfter(cfg, s, step).pc, Apply(cfg, s, step).merged;
    match step
    case ReadOne(name) => assert !pc.Done? && !pc'.Done?;
    case SortEvents(m) => assert !pc.Done? && !pc'.Done?;
    case OpenMerged(ok) => assert s.merged == merged' == None && (pc'.Done? <==> !ok);
    case WriteMerged(cut) => assert pc'.Done? && merged' == if cut.None? then Some(pc.sorted) else None;
  }

  lemma MergeOtherStep(cfg: Config, s: State, step: Step)
    requires |s.ranks| <= MAX_RANKS && !IsGatherStep(step) && Enabled(cfg, s, step)
    ensures var s' := Apply(cfg, s, step);
            MergeStepSucceeds(step) && s'.merged == s.merged && (s'.ranks[0].pc.Done? <==> s.ranks[0].pc.Done?)
  {
    assert Apply(cfg, s, step).ranks == s.ranks[Target(step) := RankAfter(cfg, s, step)];
    PcStep(cfg, s, step);
  }

  lemma MergeLast(steps: seq<Step>)
    requires steps != []
    ensures MergeSucceeds(steps) <==> MergeSucceeds(Front(steps)) && MergeStepSucceeds(Last(steps))
  {
    assert steps == Front(steps) + [Last(steps)];
  }

  lemma {:induction false} MergeFollowed(cfg: Config, start: State, steps: seq<Step>, s: State)
    requires Runs(cfg, start, steps, s) && |s.ranks| > 0
    ensures MergeAccounted(s.ranks[0].pc, s.merged, MergeSucceeds(steps))
    decreases |steps|
  {
    if steps != [] {
      var before := BeforeLast(cfg, start, steps, s);
      MergeFollowed(cfg, start, Front(steps), before);
      MergeLast(steps);
      assert s.ranks == before.ranks[Target(Last(steps)) := RankAfter(cfg, before, Last(steps))];
      if IsGatherStep(Last(steps)) {
        assert GatherOk(cfg, before.ranks[0].pc, before.files, before.listed, before.merged) by {
          Reachable(cfg, start, Front(steps), before);
        }
        MergeGatherStep(cfg, before, Last(steps), MergeSucceeds(Front(steps)));
      } else {
        MergeOtherStep(cfg, before, Last(steps));
      }
    }
  }

  // When rank 0 is through, a merged trace has been written if and only if no rank's write stopped half-way, no
  // unreadable entry was left from before, and the merged file itself could be opened and written.
  lemma MergedExactly(cfg: Config, start: State, steps: seq<Step>, s: State)
    requires Runs(cfg, start, steps, s) && 0 < |s.ranks| <= MAX_RANKS && Phase(s.ranks[0].pc) == 11
    ensures s.merged.Some? <==> !SomeTorn(s) && !SomeStuck(start.files, s) && MergeSucceeds(steps)
  {
    PanicsExactly(cfg, start, steps, s);
    MergeFollowed(cfg, start, steps, s);
    if s.merged.Some? {
      MergedMeansDone(cfg, start, steps, s);
    }
  }

  // ---------- what the ranks left ----------

  // What a rank contributes to the merged trace: its log if it could write it, and otherwise what the directory held
  // under its name before, if anything.
  function LeftLog(start: Files, r: nat, k: Rank): seq<Event>
    requires r < MAX_RANKS
  {
    if k.saved.Unwritten? then Contribution(start, RankFile(r)) else Events(k.saved.log)
  }

  function LeftLogs(start: Files, s: State): seq<seq<Event>>
    requires |s.ranks| <= MAX_RANKS
  {
    seq(|s.ranks|, r requires 0 <= r < |s.ranks| => LeftLog(start, r, s.ranks[r]))
  }

  lemma LeftContribution(start: Files, s: State, r: nat)
    requires |s.ranks| <= MAX_RANKS && FilesOk(start, s) && r < |s.ranks|
    requires !s.ranks[r].pc.Writing? && !IsTorn(s.ranks[r])
    ensures Contribution(s.files, RankFile(r)) == LeftLog(start, r, s.ranks[r])
  {
    var k := s.ranks[r];
    assert FileOk(s.files, r, k);
    if k.saved.Unwritten? {
      assert SameFile(start, s.files, RankFile(r));
    } else {
      RankFiles(r, r);
      assert SavedText(k.saved) == TraceText(Events(k.saved.log), Compact);
      TraceRoundTrip(Events(k.saved.log), Compact);
    }
  }

  lemma LeftFiles(start: Files, s: State, others: seq<string>)
    requires |s.ranks| <= MAX_RANKS && FilesOk(start, s) && OtherTraces(start, |s.ranks|, others)
    requires forall r :: 0 <= r < |s.ranks| ==> !s.ranks[r].pc.Writing? && !IsTorn(s.ranks[r])
    ensures RanksContribute(s.files, LeftLogs(start, s)) && OtherTraces(s.files, |s.ranks|, others)
    ensures Collected(s.files, others) == Collected(start, others)
  {
    forall r | 0 <= r < |s.ranks|
      ensures Contribution(s.files, RankFile(r)) == LeftLogs(start, s)[r]
    {
      LeftContribution(start, s, r);
    }
    forall name | IsTrace(name) && name !in RankNames(|s.ranks|)
      ensures SameFile(start, s.files, name)
    {
    }
    FlatMapSame(others, Contributions(s.files), Contributions(start));
  }

  // ---------- the merged trace ----------

  lemma SameRankFilesSameMerge(listed: Files, files: Files, m: seq<Event>)
    requires SameRankFiles(listed, files) && IsMerge(listed, m)
    ensures IsMerge(files, m)
  {
    forall name | IsTrace(name)
      ensures (name in listed <==> name in files) && (name in listed ==> listed[name] == files[name])
    {
      assert SameFile(listed, files, name);
    }
    SameTracesSameMerge(listed, files, m);
  }

  lemma MergedIsMerge(cfg: Config, start: State, steps: seq<Step>, s: State)
    requires Runs(cfg, start, steps, s) && s.merged.Some?
    ensures IsMerge(s.files, s.merged.value)
    ensures MERGED in s.files && s.files[MERGED] == TraceText(s.merged.value, StyleFor(cfg.readable))
  {
    assert SameRankFiles(s.listed, s.files) && IsMerge(s.listed, s.merged.value) && MERGED in s.files
           && s.files[MERGED] == TraceText(s.merged.value, StyleFor(cfg.readable)) by {
      Reachable(cfg, start, steps, s);
    }
    SameRankFilesSameMerge(s.listed, s.files, s.merged.value);
  }

  lemma NothingUnderWay(cfg: Config, start: State, steps: seq<Step>, s: State, r: nat)
    requires Runs(cfg, start, steps, s) && s.merged.Some? && r < |s.ranks|
    ensures !s.ranks[r].pc.Writing? && !IsTorn(s.ranks[r]) && Phase(s.ranks[r].pc) >= 7
  {
    MergedMeansDone(cfg, start, steps, s);
    SecondBarrierPassed(cfg, start, steps, s, r);
    if IsTorn(s.ranks[r]) {
      TornMakesPanic(cfg, start, steps, s, r);
    }
  }

  // Whatever registrations and files failed, the merged file reads back as a sorted trace with exactly what the
  // ranks left, their logs or what was there before, and what other trace files hold.
  lemma MergedHasWhatWasLeft(cfg: Config, start: State, steps: seq<Step>, s: State, others: seq<string>)
    requires Runs(cfg, start, steps, s) && s.merged.Some? && |s.ranks| <= MAX_RANKS
    requires OtherTraces(start.files, |s.ranks|, others)
    ensures MERGED in s.files && ParseTrace(s.files[MERGED]) == s.merged
    ensures Sorted(s.merged.value, Tsc)
    ensures multiset(s.merged.value) ==
            multiset(Flatten(LeftLogs(start.files, s))) + multiset(Collected(start.files, others))
  {
    assert FilesOk(start.files, s) by {
      Reachable(cfg, start, steps, s);
    }
    MergedIsMerge(cfg, start, steps, s);
    forall r | 0 <= r < |s.ranks| { NothingUnderWay(cfg, start, steps, s, r); }
    LeftFiles(start.files, s, others);
    var names := SetAsSequence(s.files.Keys);
    CollectedLogs(s.files, LeftLogs(start.files, s), others, names);
    TraceRoundTrip(s.merged.value, StyleFor(cfg.readable));
  }

  // The merged file is in several lines if and only if the readable layout was asked for.
  lemma MergedLayout(cfg: Config, start: State, steps: seq<Step>, s: State)
    requires Runs(cfg, start, steps, s) && s.merged.Some? && s.merged.value != []
    ensures "interpol_traces.json" in s.files
    ensures cfg.readable <==> '\n' in s.files["interpol_traces.json"]
  {
    MergedIsMerge(cfg, start, steps, s);
    LayoutChosen(s.merged.value, cfg.readable);
  }

  // A rank that has saved its log contributes all of it if its calls were over, up to Finalize otherwise.
  lemma SavedIsLog(cfg: Config, start: State, steps: seq<Step>, s: State, r: nat)
    requires Runs(cfg, start, steps, s) && r < |s.ranks| && !s.ranks[r].saved.Unwritten?
    ensures SavedFits(s.ranks[r].saved.log, s.ranks[r].log, cfg.Quiet(r))
  {
    ReachableRank(cfg, start, steps, s, r);
  }

  // Nothing is lost or repeated: if every rank's trace was written and every rank's calls were over, the events of
  // the merged trace are exactly those of all the logs and of other trace files that were there.
  lemma MergedHasAllLogs(cfg: Config, start: State, steps: seq<Step>, s: State, others: seq<string>)
    requires Runs(cfg, start, steps, s) && s.merged.Some? && AllSaved(s) && AllQuiet(cfg, s)
    requires |s.ranks| <= MAX_RANKS && OtherTraces(start.files, |s.ranks|, others)
    ensures MERGED in s.files && ParseTrace(s.files[MERGED]) == s.merged
    ensures Sorted(s.merged.value, Tsc)
    ensures multiset(s.merged.value) == multiset(Flatten(Logs(s))) + multiset(Collected(start.files, others))
  {
    MergedHasWhatWasLeft(cfg, start, steps, s, others);
    forall r | 0 <= r < |s.ranks|
      ensures LeftLogs(start.files, s)[r] == Logs(s)[r]
    {
      SavedIsLog(cfg, start, steps, s, r);
    }
    assert LeftLogs(start.files, s) == Logs(s);
  }

  // ---------- runs as members of a history ----------

  function SavedLogs(s: State): seq<seq<Event>> {
    seq(|s.ranks|, r requires 0 <= r < |s.ranks| =>
      if s.ranks[r].saved.Whole? then Events(s.ranks[r].saved.log) else [])
  }

  lemma WrittenFile(start: Files, s: State, name: string)
    requires |s.ranks| <= MAX_RANKS && FilesOk(start, s) && AllSaved(s) && name != MERGED
    ensures SameFile(WriteRanks(start, SavedLogs(s)), s.files, name)
  {
    var logs := SavedLogs(s);
    if name in RankNames(|logs|) {
      var r :| 0 <= r < |logs| && RankNames(|logs|)[r] == name;
      WriteRanksFile(start, logs, r);
      assert FileOk(s.files, r, s.ranks[r]);
    } else {
      WriteRanksOther(start, logs, name);
      assert SameFile(start, s.files, name);
    }
  }

  // The protocol, seen from outside, is a run of the kind whose histories were studied: it leaves the directory
  // that writing all the logs and then a merged trace of the result leaves.
  lemma RunMatchesHistory(cfg: Config, start: State, steps: seq<Step>, s: State)
    requires Runs(cfg, start, steps, s) && s.merged.Some? && AllSaved(s)
    requires |s.ranks| <= MAX_RANKS
    ensures var run := Run(SavedLogs(s), StyleFor(cfg.readable), s.merged.value);
            RunOk(start.files, run) && s.files == AfterRun(start.files, run)
  {
    assert FilesOk(start.files, s) by {
      Reachable(cfg, start, steps, s);
    }
    MergedIsMerge(cfg, start, steps, s);
    var written := WriteRanks(start.files, SavedLogs(s));
    var text := TraceText(s.merged.value, StyleFor(cfg.readable));
    var after := written[MERGED := text];
    forall name
      ensures SameFile(after, s.files, name)
    {
      if name != MERGED {
        WrittenFile(start.files, s, name);
      }
    }
    SameFilesSameMap(after, s.files);
    MergedFileIgnored(written, text, s.merged.value);
  }
}
