/** What every step keeps true of a single rank: who holds the lock, how the log interleaves the threads' calls,
    and what the log and its saved copy have to do with MPI_Finalize. */
module RankInvariant {
  import opened Types
  import opened Traces
  import opened Protocol

  ghost predicate FinalizeHolds(pc: Pc) {
    pc.FinLocked? || pc.FinReserved? || pc.Opening? || pc.Writing?
  }

  ghost predicate InLock(t: Thread) {
    t.Locked? || t.Reserved?
  }

  // At most one holder of the lock: the main thread inside the registration of Finalize, or one thread.
  ghost predicate LockOk(k: Rank) {
    && |k.threads| > MAIN
    && (k.pc.Running? || k.threads[MAIN].Idle?)
    && (FinalizeHolds(k.pc) ==> k.lock == Some(MAIN))
    && (forall t :: 0 <= t < |k.threads| && InLock(k.threads[t]) ==> k.lock == Some(t) && !FinalizeHolds(k.pc))
    && (k.lock.Some? && !FinalizeHolds(k.pc) ==> k.lock.value < |k.threads| && InLock(k.threads[k.lock.value]))
  }

  // The log is still as it was found by whoever is about to push onto it.
  ghost predicate FoundOk(k: Rank) {
    && (forall t :: 0 <= t < |k.threads| && k.threads[t].Reserved? ==> k.threads[t].found == k.log)
    && (k.pc.FinReserved? ==> k.pc.found == k.log)
  }

  // The calls of thread t, in log order.
  function CallsOf(log: seq<Entry>, t: nat): seq<Call> {
    if log == [] then []
    else
      var e := log[|log| - 1];
      CallsOf(log[..|log| - 1], t) + if e.tid == t then [e.call] else []
  }

  ghost predicate OwnCall(call: Call, r: nat, final: bool) {
    call.currentRank == r && (call.kind == Finalize <==> final)
  }

  ghost predicate CallsOk(k: Rank, r: nat) {
    && (forall i :: 0 <= i < |k.log| ==> k.log[i].call.currentRank == r)
    && (forall t :: 0 <= t < |k.threads| && k.threads[t].Returned? ==> OwnCall(k.threads[t].call, r, false))
    && (forall t :: 0 <= t < |k.threads| && k.threads[t].Locked? ==> OwnCall(k.threads[t].call, r, false))
    && (forall t :: 0 <= t < |k.threads| && k.threads[t].Reserved? ==> OwnCall(k.threads[t].call, r, false))
    && (k.pc.FinReturned? ==> OwnCall(k.pc.call, r, true))
    && (k.pc.FinLocked? ==> OwnCall(k.pc.call, r, true))
    && (k.pc.FinReserved? ==> OwnCall(k.pc.call, r, true))
  }

  ghost predicate NoFinalize(log: seq<Entry>) {
    forall i :: 0 <= i < |log| ==> log[i].call.kind != Finalize
  }

  ghost predicate EndsWithFinalize(log: seq<Entry>) {
    log != [] && log[|log| - 1].call.kind == Finalize && NoFinalize(log[..|log| - 1])
  }

  // What was saved is the log up to Finalize, and all of it if nothing could be logged later.
  ghost predicate SavedFits(saved: seq<Entry>, log: seq<Entry>, quiet: bool) {
    saved <= log && EndsWithFinalize(saved) && (quiet ==> saved == log)
  }

  ghost predicate FinalizeOk(k: Rank, quiet: bool) {
    && (Phase(k.pc) <= 4 ==> NoFinalize(k.log))
    && (k.pc.Opening? || k.pc.Writing? ==> EndsWithFinalize(k.log))
    && (!k.saved.Unwritten? ==> Phase(k.pc) >= 7 && SavedFits(k.saved.log, k.log, quiet))
    && (quiet && !k.pc.Running? ==> AllIdle(k))
  }

  // Of a rank whose calls are serialised at most one thread is inside a call, and none once Finalize has begun.
  ghost predicate OneBusy(k: Rank) {
    && (forall t, u ::
          0 <= t < |k.threads| && 0 <= u < |k.threads| && !k.threads[t].Idle? && !k.threads[u].Idle? ==> t == u)
    && (!k.pc.Running? ==> AllIdle(k))
  }

  ghost predicate RankOk(cfg: Config, k: Rank, r: nat) {
    && LockOk(k) && FoundOk(k) && CallsOk(k, r) && FinalizeOk(k, cfg.Quiet(r))
    && (r in cfg.serial ==> OneBusy(k))
  }

  lemma CallsOfAppend(log: seq<Entry>, e: Entry, t: nat)
    ensures CallsOf(log + [e], t) == CallsOf(log, t) + if e.tid == t then [e.call] else []
  {
    assert (log + [e])[..|log|] == log;
  }

  predicate IsThreadStep(step: Step) {
    step.Begin? || step.Return? || step.Lock? || step.Reserve? || step.Push?
  }

  lemma LockThreadStep(cfg: Config, s: State, step: Step)
    requires IsThreadStep(step) && Enabled(cfg, s, step) && LockOk(s.ranks[step.r])
    ensures LockOk(RankAfter(cfg, s, step))
  {
  }

  lemma LockMainStep(cfg: Config, s: State, step: Step)
    requires !IsThreadStep(step) && Enabled(cfg, s, step) && LockOk(s.ranks[Target(step)])
    ensures LockOk(RankAfter(cfg, s, step))
  {
  }

  // Nobody takes the lock while another holds it.
  lemma LockStep(cfg: Config, s: State, step: Step)
    requires Enabled(cfg, s, step) && LockOk(s.ranks[Target(step)])
    ensures LockOk(RankAfter(cfg, s, step))
  {
    if IsThreadStep(step) {
      LockThreadStep(cfg, s, step);
    } else {
      LockMainStep(cfg, s, step);
    }
  }

  // Only the holder of the lock changes the log, so nobody pushes onto an outdated one.
  lemma FoundStep(cfg: Config, s: State, step: Step)
    requires Enabled(cfg, s, step) && LockOk(s.ranks[Target(step)]) && FoundOk(s.ranks[Target(step)])
    ensures FoundOk(RankAfter(cfg, s, step))
  {
  }

  lemma CallsThreadStep(cfg: Config, s: State, step: Step)
    requires IsThreadStep(step)
    requires Enabled(cfg, s, step) && LockOk(s.ranks[Target(step)]) && FoundOk(s.ranks[Target(step)])
    requires CallsOk(s.ranks[Target(step)], Target(step))
    ensures CallsOk(RankAfter(cfg, s, step), Target(step))
  {
  }

  lemma CallsMainStep(cfg: Config, s: State, step: Step)
    requires !IsThreadStep(step)
    requires Enabled(cfg, s, step) && LockOk(s.ranks[Target(step)]) && FoundOk(s.ranks[Target(step)])
    requires CallsOk(s.ranks[Target(step)], Target(step))
    ensures CallsOk(RankAfter(cfg, s, step), Target(step))
  {
  }

  lemma FinalizeThreadStep(cfg: Config, s: State, step: Step)
    requires IsThreadStep(step)
    requires Enabled(cfg, s, step) && RankOk(cfg, s.ranks[Target(step)], Target(step))
    ensures FinalizeOk(RankAfter(cfg, s, step), cfg.Quiet(Target(step)))
  {
    var k, k' := s.ranks[step.r], RankAfter(cfg, s, step);
    assert k'.pc == k.pc && k'.saved == k.saved;
    assert !(cfg.Quiet(step.r) && !k.pc.Running?) by {
      assert step.Begin? || !k.threads[step.t].Idle?;
    }
    if step.Push? {
      var e := Entry(step.t, k.threads[step.t].call);
      assert k'.log == k.log + [e] && e.call.kind != Finalize;
      FinalizeLonger(k, k', e, cfg.Quiet(step.r));
    } else {
      assert k'.log == k.log;
    }
  }

  // Another entry after the one of Finalize only adds to what was not saved.
  lemma FinalizeLonger(k: Rank, k': Rank, e: Entry, quiet: bool)
    requires FinalizeOk(k, quiet) && !FinalizeHolds(k.pc) && e.call.kind != Finalize && !(quiet && !k.pc.Running?)
    requires k'.pc == k.pc && k'.saved == k.saved && k'.log == k.log + [e]
    ensures FinalizeOk(k', quiet)
  {
  }

  lemma EndsAppend(log: seq<Entry>, e: Entry)
    requires NoFinalize(log) && e.call.kind == Finalize
    ensures EndsWithFinalize(log + [e])
  {
    assert (log + [e])[..|log|] == log;
  }

  lemma FinalizePushes(k: Rank, e: Entry, quiet: bool)
    requires FinalizeOk(k, quiet) && k.pc.FinReserved? && e.call.kind == Finalize
    ensures FinalizeOk(k.(pc := Opening, log := k.log + [e]), quiet)
  {
    var k' := k.(pc := Opening, log := k.log + [e]);
    EndsAppend(k.log, e);
    assert k'.threads == k.threads && k'.saved == k.saved && Phase(k'.pc) == 5;
    assert quiet ==> AllIdle(k');
  }

  lemma FinalizePushStep(cfg: Config, s: State, step: Step)
    requires step.PushFinalize?
    requires Enabled(cfg, s, step) && RankOk(cfg, s.ranks[step.r], step.r)
    ensures FinalizeOk(RankAfter(cfg, s, step), cfg.Quiet(step.r))
  {
    var k, k' := s.ranks[step.r], RankAfter(cfg, s, step);
    var e := Entry(MAIN, k.pc.call);
    assert k' == k.(pc := Opening, log := k.log + [e]) && e.call.kind == Finalize;
    FinalizePushes(k, e, cfg.Quiet(step.r));
  }

  predicate IsGatherStep(step: Step) {
    step.ReadOne? || step.SortEvents? || step.OpenMerged? || step.WriteMerged?
  }

  // Reading and merging only move rank 0's program counter on.
  lemma GatherStepRank(cfg: Config, s: State, step: Step)
    requires IsGatherStep(step) && Enabled(cfg, s, step)
    ensures RankAfter(cfg, s, step) == s.ranks[0].(pc := RankAfter(cfg, s, step).pc)
    ensures 8 <= Phase(s.ranks[0].pc) <= Phase(RankAfter(cfg, s, step).pc)
  {
    var k, k' := s.ranks[0], RankAfter(cfg, s, step);
    match step
    case ReadOne(name) =>
      var g := ReadEntry(Gather(s.files, k.pc.events), name);
      assert k' == k.(pc := if g.None? then Panicked
                            else Gathering(k.pc.todo - {name}, k.pc.seen + [name], g.value.events));
    case SortEvents(m) => assert k' == k.(pc := OpeningMerged(m));
    case OpenMerged(ok) => assert k' == k.(pc := if ok then WritingMerged(k.pc.sorted) else Done);
    case WriteMerged(cut) => assert k' == k.(pc := Done);
  }

  lemma FinalizeGatherStep(cfg: Config, s: State, step: Step)
    requires IsGatherStep(step)
    requires Enabled(cfg, s, step) && RankOk(cfg, s.ranks[0], 0)
    ensures FinalizeOk(RankAfter(cfg, s, step), cfg.Quiet(0))
  {
    GatherStepRank(cfg, s, step);
  }

  // Moving on, with the log as it is.
  lemma FinalizeMovesOn(k: Rank, pc: Pc, lock: Option<nat>, clock: nat, quiet: bool)
    requires FinalizeOk(k, quiet)
    requires Phase(k.pc) <= Phase(pc) && (Phase(pc) in {5, 6} ==> Phase(k.pc) in {5, 6})
    requires quiet && k.pc.Running? && !pc.Running? ==> AllIdle(k)
    ensures FinalizeOk(k.(pc := pc, lock := lock, clock := clock), quiet)
  {
    assert AllIdle(k) ==> AllIdle(k.(pc := pc, lock := lock, clock := clock));
  }

  lemma FinalizeSaves(k: Rank, saved: Saved, quiet: bool)
    requires FinalizeOk(k, quiet) && k.pc.Writing? && !saved.Unwritten? && saved.log == k.log
    ensures FinalizeOk(k.(pc := AtBarrier2, lock := None, saved := saved), quiet)
  {
    var k' := k.(pc := AtBarrier2, lock := None, saved := saved);
    assert k'.threads == k.threads && k'.log == k.log && k'.saved == saved && Phase(k'.pc) == 7;
    assert quiet ==> AllIdle(k');
    SavesWhole(k.log, quiet);
  }

  lemma SavesWhole(log: seq<Entry>, quiet: bool)
    requires EndsWithFinalize(log)
    ensures SavedFits(log, log, quiet)
  {
  }

  // On the way to the log.
  lemma FinalizeEarlyStep(cfg: Config, s: State, step: Step)
    requires || step.EnterFinalize? || step.LeaveBarrier1? || step.ReadFinalizeClock? || step.LockFinalize?
             || step.ReserveFinalize?
    requires Enabled(cfg, s, step) && FinalizeOk(s.ranks[step.r], cfg.Quiet(step.r))
    ensures FinalizeOk(RankAfter(cfg, s, step), cfg.Quiet(step.r))
  {
    var k, q := s.ranks[step.r], cfg.Quiet(step.r);
    match step
    case EnterFinalize(r) => FinalizeMovesOn(k, AtBarrier1, k.lock, k.clock, q);
    case LeaveBarrier1(r) => FinalizeMovesOn(k, PastBarrier1, k.lock, k.clock, q);
    case ReadFinalizeClock(r, now, call) => FinalizeMovesOn(k, FinReturned(call), k.lock, now, q);
    case LockFinalize(r) => FinalizeMovesOn(k, FinLocked(k.pc.call), Some(MAIN), k.clock, q);
    case ReserveFinalize(r, ok) =>
      FinalizeMovesOn(k, if ok then FinReserved(k.pc.call, k.log) else AtBarrier2, if ok then k.lock else None,
                      k.clock, q);
  }

  // On the way from the log to the file and past the second barrier.
  lemma FinalizeLateStep(cfg: Config, s: State, step: Step)
    requires step.OpenFile? || step.WriteFile? || step.LeaveBarrier2?
    requires Enabled(cfg, s, step) && FinalizeOk(s.ranks[step.r], cfg.Quiet(step.r))
    ensures FinalizeOk(RankAfter(cfg, s, step), cfg.Quiet(step.r))
  {
    var k, q := s.ranks[step.r], cfg.Quiet(step.r);
    match step
    case OpenFile(r, ok) =>
      FinalizeMovesOn(k, if ok then Writing else AtBarrier2, if ok then k.lock else None, k.clock, q);
    case WriteFile(r, cut) => FinalizeSaves(k, SavedAs(k.log, cut), q);
    case LeaveBarrier2(r) =>
      FinalizeMovesOn(k, if r == 0 then Gathering(s.files.Keys, [], []) else Done, k.lock, k.clock, q);
  }

  lemma FinalizeMainStep(cfg: Config, s: State, step: Step)
    requires !IsThreadStep(step)
    requires Enabled(cfg, s, step) && RankOk(cfg, s.ranks[Target(step)], Target(step))
    ensures FinalizeOk(RankAfter(cfg, s, step), cfg.Quiet(Target(step)))
  {
    if step.PushFinalize? {
      FinalizePushStep(cfg, s, step);
    } else if IsGatherStep(step) {
      FinalizeGatherStep(cfg, s, step);
    } else if step.OpenFile? || step.WriteFile? || step.LeaveBarrier2? {
      FinalizeLateStep(cfg, s, step);
    } else {
      FinalizeEarlyStep(cfg, s, step);
    }
  }

  // What a thread step does to its thread.
  lemma ThreadStepEffect(cfg: Config, s: State, step: Step)
    requires Enabled(cfg, s, step) && IsThreadStep(step) && LockOk(s.ranks[step.r]) && FoundOk(s.ranks[step.r])
    ensures var k, k' := s.ranks[step.r], RankAfter(cfg, s, step);
            k'.pc == k.pc &&
            match step
            case Begin(_, t, now) => k.threads[t].Idle? && k'.threads == k.threads[t := InCall(now)]
            case Return(_, t, _, call) => k.threads[t].InCall? && k'.threads == k.threads[t := Returned(call)]
            case Lock(_, t) => k.threads[t].Returned? && k'.threads == k.threads[t := Locked(k.threads[t].call)]
            case Reserve(_, t, ok) =>
              k.threads[t].Locked?
              && k'.threads == k.threads[t := if ok then Reserved(k.threads[t].call, k.log) else Idle]
            case Push(_, t) => k.threads[t].Reserved? && k'.threads == k.threads[t := Idle]
            case _ => false
  {
  }

  lemma MainStepThreads(cfg: Config, s: State, step: Step)
    requires Enabled(cfg, s, step) && !IsThreadStep(step)
    ensures RankAfter(cfg, s, step).threads == s.ranks[Target(step)].threads
  {
  }

  // Because of the lock a push adds its call to the log as it is, and nothing else changes the log.
  lemma LogAfter(cfg: Config, s: State, step: Step)
    requires Enabled(cfg, s, step) && FoundOk(s.ranks[Target(step)])
    ensures var k := s.ranks[Target(step)];
            RankAfter(cfg, s, step).log ==
              if step.Push? then k.log + [Entry(step.t, k.threads[step.t].call)]
              else if step.PushFinalize? then k.log + [Entry(MAIN, k.pc.call)]
              else k.log
  {
    if IsGatherStep(step) {
      GatherStepRank(cfg, s, step);
    }
  }

  lemma OneBusyThreadStep(cfg: Config, s: State, step: Step)
    requires IsThreadStep(step) && step.r in cfg.serial
    requires Enabled(cfg, s, step) && LockOk(s.ranks[step.r]) && FoundOk(s.ranks[step.r]) && OneBusy(s.ranks[step.r])
    ensures OneBusy(RankAfter(cfg, s, step))
  {
    var k, k' := s.ranks[step.r], RankAfter(cfg, s, step);
    ThreadStepEffect(cfg, s, step);
    assert k'.threads == k.threads[step.t := k'.threads[step.t]];
    assert k.pc.Running? && forall u :: 0 <= u < |k.threads| && u != step.t ==> k.threads[u].Idle? by {
      assert step.Begin? || !k.threads[step.t].Idle?;
    }
  }

  lemma OneBusyMainStep(cfg: Config, s: State, step: Step)
    requires !IsThreadStep(step) && Target(step) in cfg.serial
    requires Enabled(cfg, s, step) && OneBusy(s.ranks[Target(step)])
    ensures OneBusy(RankAfter(cfg, s, step))
  {
    var k, k' := s.ranks[Target(step)], RankAfter(cfg, s, step);
    MainStepThreads(cfg, s, step);
    if step.EnterFinalize? {
      assert AllIdle(k);
    } else {
      assert !k.pc.Running?;
    }
  }

  lemma OneBusyStep(cfg: Config, s: State, step: Step)
    requires Enabled(cfg, s, step) && RankOk(cfg, s.ranks[Target(step)], Target(step))
    ensures Target(step) in cfg.serial ==> OneBusy(RankAfter(cfg, s, step))
  {
    if Target(step) in cfg.serial {
      if IsThreadStep(step) {
        OneBusyThreadStep(cfg, s, step);
      } else {
        OneBusyMainStep(cfg, s, step);
      }
    }
  }

  // Every step keeps its rank in order.
  lemma RankStep(cfg: Config, s: State, step: Step)
    requires Enabled(cfg, s, step) && RankOk(cfg, s.ranks[Target(step)], Target(step))
    ensures RankOk(cfg, RankAfter(cfg, s, step), Target(step))
  {
    LockStep(cfg, s, step);
    FoundStep(cfg, s, step);
    OneBusyStep(cfg, s, step);
    if IsThreadStep(step) {
      CallsThreadStep(cfg, s, step);
      FinalizeThreadStep(cfg, s, step);
    } else {
      CallsMainStep(cfg, s, step);
      FinalizeMainStep(cfg, s, step);
    }
  }
}
