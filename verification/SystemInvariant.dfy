/** What every step keeps true of the whole system: the barriers, the directory, and rank 0's reading of it. */
module SystemInvariant {
  import opened Types
  import opened Json
  import opened Codec
  import opened Traces
  import opened TraceDirectory
  import opened Protocol
  import opened RankInvariant

  ghost predicate RanksOk(cfg: Config, s: State) {
    && 1 <= |s.ranks| <= MAX_RANKS
    && forall r :: 0 <= r < |s.ranks| ==> RankOk(cfg, s.ranks[r], r)
  }

  // ---------- the barriers ----------

  // Once a rank has come as far as hi, all have come as far as lo.
  ghost predicate BarrierHolds(ranks: seq<Rank>, lo: nat, hi: nat) {
    forall p, q :: 0 <= p < |ranks| && 0 <= q < |ranks| && Phase(ranks[p].pc) >= hi ==> Phase(ranks[q].pc) >= lo
  }

  ghost predicate OnlyFirstCollects(ranks: seq<Rank>) {
    forall r :: 0 < r < |ranks| ==> Phase(ranks[r].pc) <= 7 || ranks[r].pc.Done?
  }

  ghost predicate BarriersOk(s: State) {
    BarrierHolds(s.ranks, 1, 2) && BarrierHolds(s.ranks, 7, 8) && OnlyFirstCollects(s.ranks)
  }

  lemma PcStep(cfg: Config, s: State, step: Step)
    requires Enabled(cfg, s, step) && !IsGatherStep(step)
    ensures var pc, pc' := s.ranks[Target(step)].pc, RankAfter(cfg, s, step).pc;
            match step
            case EnterFinalize(r) => pc == Running && pc' == AtBarrier1
            case LeaveBarrier1(r) => pc == AtBarrier1 && pc' == PastBarrier1 && AllReached(s, 1)
            case ReadFinalizeClock(r, now, call) => pc == PastBarrier1 && pc' == FinReturned(call)
            case LockFinalize(r) => pc.FinReturned? && pc' == FinLocked(pc.call)
            case ReserveFinalize(r, ok) =>
              pc.FinLocked? && pc' == if ok then FinReserved(pc.call, s.ranks[r].log) else AtBarrier2
            case PushFinalize(r) => pc.FinReserved? && pc' == Opening
            case OpenFile(r, ok) => pc == Opening && pc' == if ok then Writing else AtBarrier2
            case WriteFile(r, cut) => pc == Writing && pc' == AtBarrier2
            case LeaveBarrier2(r) =>
              pc == AtBarrier2 && AllReached(s, 7) && pc' == if r == 0 then Gathering(s.files.Keys, [], []) else Done
            case _ => pc' == pc
  {
  }

  lemma MainPhaseStep(cfg: Config, s: State, step: Step)
    requires Enabled(cfg, s, step) && !IsGatherStep(step)
    ensures var p, p' := Phase(s.ranks[Target(step)].pc), Phase(RankAfter(cfg, s, step).pc);
            p <= p' && (p < 2 <= p' ==> AllReached(s, 1)) && (p < 8 <= p' ==> AllReached(s, 7))
  {
    PcStep(cfg, s, step);
  }

  lemma PhaseStep(cfg: Config, s: State, step: Step)
    requires Enabled(cfg, s, step)
    ensures var p, p' := Phase(s.ranks[Target(step)].pc), Phase(RankAfter(cfg, s, step).pc);
            p <= p' && (p < 2 <= p' ==> AllReached(s, 1)) && (p < 8 <= p' ==> AllReached(s, 7))
  {
    if IsGatherStep(step) {
      GatherStepRank(cfg, s, step);
    } else {
      MainPhaseStep(cfg, s, step);
    }
  }

  lemma OtherRankStep(cfg: Config, s: State, step: Step)
    requires Enabled(cfg, s, step) && Target(step) > 0
    ensures var pc, pc' := s.ranks[Target(step)].pc, RankAfter(cfg, s, step).pc;
            Phase(pc') >= 8 ==> pc' == pc || pc'.Done?
  {
    PcStep(cfg, s, step);
  }

  lemma BarrierStep(ranks: seq<Rank>, r: nat, k: Rank, lo: nat, hi: nat)
    requires r < |ranks| && lo <= hi && BarrierHolds(ranks, lo, hi) && Phase(ranks[r].pc) <= Phase(k.pc)
    requires Phase(ranks[r].pc) < hi <= Phase(k.pc) ==> forall q :: 0 <= q < |ranks| ==> Phase(ranks[q].pc) >= lo
    ensures BarrierHolds(ranks[r := k], lo, hi)
  {
  }

  lemma BarriersStep(cfg: Config, s: State, step: Step)
    requires Enabled(cfg, s, step) && |s.ranks| <= MAX_RANKS && BarriersOk(s)
    ensures BarriersOk(Apply(cfg, s, step))
  {
    var r, k' := Target(step), RankAfter(cfg, s, step);
    PhaseStep(cfg, s, step);
    if r > 0 {
      OtherRankStep(cfg, s, step);
    }
    assert Apply(cfg, s, step).ranks == s.ranks[r := k'];
    BarrierStep(s.ranks, r, k', 1, 2);
    BarrierStep(s.ranks, r, k', 7, 8);
    assert OnlyFirstCollects(s.ranks[r := k']);
  }

  // ---------- the directory ----------

  // What a rank's write left in its file.
  function SavedText(saved: Saved): string
    requires !saved.Unwritten?
  {
    var text := TraceText(Events(saved.log), Compact);
    if saved.Whole? then text else Clip(text, saved.length)
  }

  // A rank that is writing has an empty file; one that has written has what the write left.
  ghost predicate FileOk(files: Files, r: nat, k: Rank)
    requires r < MAX_RANKS
  {
    && (k.pc.Writing? ==> RankFile(r) in files && files[RankFile(r)] == "")
    && (!k.saved.Unwritten? ==> RankFile(r) in files && files[RankFile(r)] == SavedText(k.saved))
  }

  // The rank has not opened its file, or could not.
  ghost predicate Untouched(k: Rank) {
    !k.pc.Writing? && k.saved.Unwritten?
  }

  ghost predicate FilesOk(start: Files, s: State)
    requires |s.ranks| <= MAX_RANKS
  {
    && (forall r :: 0 <= r < |s.ranks| ==> FileOk(s.files, r, s.ranks[r]))
    && (forall name :: name !in RankNames(|s.ranks|) && name != MERGED ==> SameFile(start, s.files, name))
    && (forall r :: 0 <= r < |s.ranks| && Untouched(s.ranks[r]) ==> SameFile(start, s.files, RankFile(r)))
  }

  // A step touches at most its own rank's file, or the merged trace if it belongs to the gathering.
  lemma FilesTouched(cfg: Config, s: State, step: Step, name: string)
    requires Enabled(cfg, s, step) && |s.ranks| <= MAX_RANKS
    requires !SameFile(s.files, FilesAfter(cfg, s, step), name)
    ensures if IsGatherStep(step) then name == MERGED
            else (step.OpenFile? || step.WriteFile?) && name == RankFile(Target(step))
  {
  }

  lemma OwnFileStep(cfg: Config, s: State, step: Step)
    requires Enabled(cfg, s, step) && RanksOk(cfg, s) && FileOk(s.files, Target(step), s.ranks[Target(step)])
    ensures FileOk(FilesAfter(cfg, s, step), Target(step), RankAfter(cfg, s, step))
  {
    var r := Target(step);
    var k, k' := s.ranks[r], RankAfter(cfg, s, step);
    if step.OpenFile? {
      assert k.saved.Unwritten? && k'.saved.Unwritten?;
    } else if step.WriteFile? {
      assert !k'.pc.Writing? && k'.saved == SavedAs(k.log, step.cut);
    } else {
      assert k'.saved == k.saved && (k'.pc.Writing? ==> k.pc.Writing?) by {
        if IsGatherStep(step) {
          GatherStepRank(cfg, s, step);
        }
      }
      RankFiles(r, r);
      if !SameFile(s.files, FilesAfter(cfg, s, step), RankFile(r)) {
        FilesTouched(cfg, s, step, RankFile(r));
      }
    }
  }

  lemma OtherFileStep(cfg: Config, s: State, step: Step, q: nat)
    requires Enabled(cfg, s, step) && RanksOk(cfg, s) && q < |s.ranks| && q != Target(step)
    ensures SameFile(s.files, FilesAfter(cfg, s, step), RankFile(q))
  {
    if !SameFile(s.files, FilesAfter(cfg, s, step), RankFile(q)) {
      FilesTouched(cfg, s, step, RankFile(q));
      RankFiles(q, Target(step));
    }
  }

  lemma UntouchedStep(cfg: Config, start: Files, s: State, step: Step, q: nat)
    requires Enabled(cfg, s, step) && RanksOk(cfg, s) && FilesOk(start, s) && q < |s.ranks|
    requires Untouched(Apply(cfg, s, step).ranks[q])
    ensures SameFile(start, Apply(cfg, s, step).files, RankFile(q))
  {
    var k, k' := s.ranks[Target(step)], RankAfter(cfg, s, step);
    assert Apply(cfg, s, step).files == FilesAfter(cfg, s, step);
    if q == Target(step) {
      assert Apply(cfg, s, step).ranks[q] == k';
      UntouchedBefore(cfg, s, step);
      RankFiles(q, q);
      if !SameFile(s.files, FilesAfter(cfg, s, step), RankFile(q)) {
        FilesTouched(cfg, s, step, RankFile(q));
      }
    } else {
      assert Apply(cfg, s, step).ranks[q] == s.ranks[q];
      OtherFileStep(cfg, s, step, q);
    }
  }

  lemma UntouchedBefore(cfg: Config, s: State, step: Step)
    requires Enabled(cfg, s, step) && Untouched(RankAfter(cfg, s, step))
    requires FinalizeOk(s.ranks[Target(step)], cfg.Quiet(Target(step)))
    ensures Untouched(s.ranks[Target(step)]) && !step.WriteFile? && (step.OpenFile? ==> !step.ok)
  {
    if IsGatherStep(step) {
      GatherStepRank(cfg, s, step);
    }
  }

  lemma FilesStep(cfg: Config, start: Files, s: State, step: Step)
    requires Enabled(cfg, s, step) && RanksOk(cfg, s) && FilesOk(start, s)
    ensures FilesOk(start, Apply(cfg, s, step))
  {
    var s' := Apply(cfg, s, step);
    var r := Target(step);
    assert s'.ranks == s.ranks[r := RankAfter(cfg, s, step)] && s'.files == FilesAfter(cfg, s, step);
    OwnFileStep(cfg, s, step);
    assert RankNames(|s.ranks|)[r] == RankFile(r);
    forall q | 0 <= q < |s.ranks| && q != r
      ensures FileOk(s'.files, q, s'.ranks[q])
    {
      OtherFileStep(cfg, s, step, q);
    }
    forall q | 0 <= q < |s.ranks| && Untouched(s'.ranks[q])
      ensures SameFile(start, s'.files, RankFile(q))
    {
      UntouchedStep(cfg, start, s, step, q);
    }
    forall name | name !in RankNames(|s.ranks|) && name != MERGED
      ensures SameFile(s.files, s'.files, name)
    {
      if !SameFile(s.files, s'.files, name) {
        FilesTouched(cfg, s, step, name);
      }
    }
  }

  // ---------- the gathering ----------

  ghost predicate SameRankFiles(listed: Files, files: Files) {
    forall name :: name != MERGED ==> SameFile(listed, files, name)
  }

  lemma SameRankFilesWithMerged(listed: Files, files: Files, name: string, text: string)
    requires name == MERGED && SameRankFiles(listed, files)
    ensures SameRankFiles(listed, files[name := text])
  {
    var files' := files[name := text];
    forall other | other != name
      ensures SameFile(listed, files', other)
    {
      assert SameFile(listed, files, other);
    }
  }

  // Where rank 0 stands in collecting the traces.
  ghost predicate GatherOk(cfg: Config, pc: Pc, files: Files, listed: Files, merged: Option<seq<Event>>) {
    && (!pc.Done? ==> merged.None?)
    && (Phase(pc) >= 8 ==> SameRankFiles(listed, files))
    && match pc
       case Gathering(todo, seen, events) => ReadSoFar(listed, files, todo, seen, events)
       case OpeningMerged(sorted) => AllReadable(listed) && IsMerge(listed, sorted) && MERGED !in files
       case WritingMerged(sorted) => AllReadable(listed) && IsMerge(listed, sorted)
       case Panicked => !AllReadable(listed)
       case Done =>
         && AllReadable(listed)
         && (merged.Some? ==>
               && IsMerge(listed, merged.value)
               && MERGED in files && files[MERGED] == TraceText(merged.value, StyleFor(cfg.readable)))
       case _ => true
  }

  lemma GatherStep(cfg: Config, s: State, step: Step)
    requires IsGatherStep(step) && Enabled(cfg, s, step) && |s.ranks| <= MAX_RANKS
    requires GatherOk(cfg, s.ranks[0].pc, s.files, s.listed, s.merged)
    ensures var s' := Apply(cfg, s, step); GatherOk(cfg, s'.ranks[0].pc, s'.files, s'.listed, s'.merged)
  {
    var s' := Apply(cfg, s, step);
    var pc, pc' := s.ranks[0].pc, RankAfter(cfg, s, step).pc;
    assert s'.ranks[0].pc == pc' && s'.listed == s.listed && s'.files == FilesAfter(cfg, s, step);
    match step
    case ReadOne(name) => ReadSoFarStep(s.listed, s.files, pc.todo, pc.seen, pc.events, name);
    case SortEvents(m) => ReadEverything(s.listed, s.files, pc.seen, pc.events);
    case OpenMerged(ok) =>
      assert s'.merged == s.merged == None;
      if ok {
        assert pc' == WritingMerged(pc.sorted) && s'.files == s.files[MERGED := ""];
        SameRankFilesWithMerged(s.listed, s.files, MERGED, "");
      } else {
        assert pc' == Done && s'.files == s.files;
      }
    case WriteMerged(cut) =>
      var text := TraceText(pc.sorted, StyleFor(cfg.readable));
      var part := if cut.None? then text else if cut.value <= |text| then text[..cut.value] else text;
      assert pc' == Done && s'.merged == if cut.None? then Some(pc.sorted) else s.merged;
      assert s'.files == s.files[MERGED := part];
      SameRankFilesWithMerged(s.listed, s.files, MERGED, part);
  }

  // Once rank 0 collects every rank is past its writing, so nothing changes for rank 0.
  lemma NothingChanges(cfg: Config, s: State, step: Step)
    requires !IsGatherStep(step) && Enabled(cfg, s, step) && |s.ranks| <= MAX_RANKS && BarriersOk(s)
    requires Phase(s.ranks[0].pc) >= 8
    ensures var s' := Apply(cfg, s, step);
            s'.files == s.files && s'.listed == s.listed && s'.ranks[0].pc == s.ranks[0].pc
  {
    assert Phase(s.ranks[Target(step)].pc) >= 7;
    PcStep(cfg, s, step);
  }

  lemma CollectingStarts(cfg: Config, files: Files)
    ensures GatherOk(cfg, Gathering(files.Keys, [], []), files, files, None)
  {
  }

  lemma BeforeGatherStep(cfg: Config, s: State, step: Step)
    requires !IsGatherStep(step) && Enabled(cfg, s, step) && |s.ranks| <= MAX_RANKS && BarriersOk(s)
    requires GatherOk(cfg, s.ranks[0].pc, s.files, s.listed, s.merged)
    ensures var s' := Apply(cfg, s, step); GatherOk(cfg, s'.ranks[0].pc, s'.files, s'.listed, s'.merged)
  {
    var s' := Apply(cfg, s, step);
    assert s'.merged == s.merged;
    if Phase(s.ranks[0].pc) >= 8 {
      NothingChanges(cfg, s, step);
    } else if step == LeaveBarrier2(0) {
      assert s'.ranks[0].pc == Gathering(s.files.Keys, [], []) && s'.files == s.files && s'.listed == s.files;
      CollectingStarts(cfg, s.files);
    } else {
      assert Phase(s'.ranks[0].pc) < 8 by {
        PcStep(cfg, s, step);
      }
    }
  }
}
