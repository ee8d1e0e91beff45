/** No deadlock: until every rank is done some step other than a new call is always possible, and only so many such
    steps can follow one another, whatever registrations and writes fail. */
module Progress {
  import opened Types
  import opened Json
  import opened Codec
  import opened Sequences
  import opened Traces
  import opened Protocol
  import opened RankInvariant
  import opened SystemInvariant
  import opened Safety

  // ---------- some step is possible ----------

  ghost predicate Finished(s: State) {
    forall r :: 0 <= r < |s.ranks| ==> s.ranks[r].pc.Done? || s.ranks[r].pc.Panicked?
  }

  lemma HolderStep(cfg: Config, s: State, r: nat) returns (step: Step)
    requires RanksOk(cfg, s) && r < |s.ranks| && s.ranks[r].lock.Some?
    ensures Enabled(AnyClock(cfg), s, step) && !step.Begin?
  {
    var k := s.ranks[r];
    assert RankOk(cfg, k, r);
    if k.pc.FinLocked? {
      step := ReserveFinalize(r, true);
    } else if k.pc.FinReserved? {
      step := PushFinalize(r);
    } else if k.pc.Opening? {
      step := OpenFile(r, true);
    } else if k.pc.Writing? {
      step := WriteFile(r, None);
    } else if k.threads[k.lock.value].Locked? {
      step := Reserve(r, k.lock.value, true);
    } else {
      step := Push(r, k.lock.value);
    }
  }

  lemma BusyThreadStep(cfg: Config, s: State, r: nat, t: nat) returns (step: Step)
    requires RanksOk(cfg, s)
    requires r < |s.ranks| && t < |s.ranks[r].threads| && !s.ranks[r].threads[t].Idle?
    ensures Enabled(AnyClock(cfg), s, step) && !step.Begin?
  {
    var k := s.ranks[r];
    match k.threads[t]
    case InCall(since) =>
      var call := MpiCall(Wait, "0", since, 0, r, -1, 0, 0, -1, 0, -1, -1, -1, -1, false);
      step := Return(r, t, since, call);
    case Returned(call) =>
      if k.lock.None? {
        step := Lock(r, t);
      } else {
        step := HolderStep(cfg, s, r);
      }
    case Locked(call) => step := Reserve(r, t, true);
    case Reserved(call, _) => step := Push(r, t);
  }

  // A rank whose threads are all idle and that waits for nobody.
  lemma MainStep(cfg: Config, s: State, r: nat) returns (step: Step)
    requires RanksOk(cfg, s) && r < |s.ranks| && AllIdle(s.ranks[r])
    requires Phase(s.ranks[r].pc) in {0, 2, 3, 4, 5, 6}
    ensures Enabled(AnyClock(cfg), s, step) && !step.Begin?
  {
    var k := s.ranks[r];
    assert RankOk(cfg, k, r);
    if k.lock.Some? {
      step := HolderStep(cfg, s, r);
    } else if k.pc.Running? {
      step := EnterFinalize(r);
    } else if k.pc.PastBarrier1? {
      step := ReadFinalizeClock(r, 0, MpiCall(Finalize, "0", 0, 0, r, -1, 0, 0, -1, -1, -1, -1, -1, -1, false));
    } else {
      step := LockFinalize(r);
    }
  }

  lemma RankZeroStep(cfg: Config, s: State) returns (step: Step)
    requires |s.ranks| > 0 && GatherOk(cfg, s.ranks[0].pc, s.files, s.listed, s.merged)
    requires Phase(s.ranks[0].pc) in {8, 9, 10}
    ensures Enabled(AnyClock(cfg), s, step) && !step.Begin?
  {
    match s.ranks[0].pc
    case Gathering(todo, seen, events) =>
      if todo == {} {
        var m := SortedArrangement(events, Tsc);
        step := SortEvents(m);
      } else {
        var name :| name in todo;
        assert name !in seen && SameFile(s.listed, s.files, name);
        step := ReadOne(name);
      }
    case OpeningMerged(_) => step := OpenMerged(true);
    case WritingMerged(_) => step := WriteMerged(None);
  }

  lemma IdleThreadsStep(cfg: Config, s: State) returns (step: Step)
    requires RanksOk(cfg, s) && GatherOk(cfg, s.ranks[0].pc, s.files, s.listed, s.merged) && BarriersOk(s)
    requires !Finished(s)
    requires forall r :: 0 <= r < |s.ranks| ==> AllIdle(s.ranks[r])
    ensures Enabled(AnyClock(cfg), s, step) && !step.Begin?
  {
    if r: nat :| r < |s.ranks| && Phase(s.ranks[r].pc) in {0, 2, 3, 4, 5, 6} {
      assert AllIdle(s.ranks[r]);
      step := MainStep(cfg, s, r);
    } else {
      step := PastOwnWorkStep(cfg, s);
    }
  }

  // Every rank is at a barrier, collecting or done.
  lemma PastOwnWorkStep(cfg: Config, s: State) returns (step: Step)
    requires |s.ranks| > 0 && BarriersOk(s) && !Finished(s)
    requires GatherOk(cfg, s.ranks[0].pc, s.files, s.listed, s.merged)
    requires forall r :: 0 <= r < |s.ranks| ==> Phase(s.ranks[r].pc) in {1, 7, 8, 9, 10, 11}
    ensures Enabled(AnyClock(cfg), s, step) && !step.Begin?
  {
    if r: nat :| r < |s.ranks| && s.ranks[r].pc.AtBarrier1? {
      assert AllReached(s, 1);
      step := LeaveBarrier1(r);
    } else if r: nat :| r < |s.ranks| && s.ranks[r].pc.AtBarrier2? {
      assert AllReached(s, 7);
      step := LeaveBarrier2(r);
    } else {
      var r: nat :| r < |s.ranks| && !s.ranks[r].pc.Done? && !s.ranks[r].pc.Panicked?;
      assert Phase(s.ranks[r].pc) in {8, 9, 10};
      assert r == 0;
      step := RankZeroStep(cfg, s);
    }
  }

  // As long as some rank is not done, the system can take a step that starts no new call.
  lemma CanProceed(cfg: Config, s: State) returns (step: Step)
    requires RanksOk(cfg, s) && GatherOk(cfg, s.ranks[0].pc, s.files, s.listed, s.merged) && BarriersOk(s)
    requires !Finished(s)
    ensures Enabled(AnyClock(cfg), s, step) && !step.Begin?
  {
    if r: nat :| r < |s.ranks| && !AllIdle(s.ranks[r]) {
      var t: nat :| t < |s.ranks[r].threads| && !s.ranks[r].threads[t].Idle?;
      step := BusyThreadStep(cfg, s, r, t);
    } else {
      step := IdleThreadsStep(cfg, s);
    }
  }

  // No state of any run is a deadlock, provided the clocks can be read; what they show does not matter.
  lemma NoDeadlock(cfg: Config, start: State, steps: seq<Step>, s: State)
    requires Runs(cfg, start, steps, s) && !Finished(s)
    ensures exists step :: Enabled(AnyClock(cfg), s, step) && !step.Begin?
  {
    Reachable(cfg, start, steps, s);
    var step := CanProceed(cfg, s);
  }

  // ---------- and only so many steps can be taken ----------

  function ThreadLeft(t: Thread): nat {
    match t
    case Idle => 0
    case Reserved(_, _) => 1
    case Locked(_) => 2
    case Returned(_) => 3
    case InCall(_) => 4
  }

  function MainLeft(pc: Pc): nat {
    match pc
    case Running => 12
    case AtBarrier1 => 11
    case PastBarrier1 => 10
    case FinReturned(_) => 9
    case FinLocked(_) => 8
    case FinReserved(_, _) => 7
    case Opening => 6
    case Writing => 5
    case AtBarrier2 => 4
    case Gathering(_, _, _) => 3
    case OpeningMerged(_) => 2
    case WritingMerged(_) => 1
    case Done => 0
    case Panicked => 0
  }

  function ThreadsLeft(threads: seq<Thread>): seq<nat> {
    seq(|threads|, t requires 0 <= t < |threads| => ThreadLeft(threads[t]))
  }

  function RankLeft(k: Rank): nat {
    Total(ThreadsLeft(k.threads)) + MainLeft(k.pc)
  }

  function RanksLeft(ranks: seq<Rank>): seq<nat> {
    seq(|ranks|, r requires 0 <= r < |ranks| => RankLeft(ranks[r]))
  }

  // The directory entries rank 0 has still to read.
  function Unread(pc: Pc, files: Files): nat {
    if pc.Gathering? then |pc.todo| else if Phase(pc) < 8 then |files.Keys| else 0
  }

  // No more than so many steps can follow without a new call: a step of a rank may also add a file to be read.
  function Remaining(s: State): nat
    requires |s.ranks| > 0
  {
    2 * Total(RanksLeft(s.ranks)) + Unread(s.ranks[0].pc, s.files)
  }

  lemma ThreadStepLess(cfg: Config, s: State, step: Step)
    requires Enabled(cfg, s, step) && IsThreadStep(step) && !step.Begin?
    requires LockOk(s.ranks[step.r]) && FoundOk(s.ranks[step.r])
    ensures RankLeft(RankAfter(cfg, s, step)) < RankLeft(s.ranks[step.r])
  {
    var k, k' := s.ranks[step.r], RankAfter(cfg, s, step);
    ThreadStepEffect(cfg, s, step);
    var after := k'.threads[step.t];
    assert k'.threads == k.threads[step.t := after];
    TotalUpdate(ThreadsLeft(k.threads), step.t, ThreadLeft(after));
    assert ThreadsLeft(k'.threads) == ThreadsLeft(k.threads)[step.t := ThreadLeft(after)];
  }

  lemma MainStepLess(cfg: Config, s: State, step: Step)
    requires Enabled(cfg, s, step) && !IsThreadStep(step) && !IsGatherStep(step)
    ensures RankLeft(RankAfter(cfg, s, step)) < RankLeft(s.ranks[step.r])
  {
    MainStepThreads(cfg, s, step);
    PcStep(cfg, s, step);
  }

  lemma GatherStepLess(cfg: Config, s: State, step: Step)
    requires Enabled(cfg, s, step) && IsGatherStep(step)
    ensures var k, k' := s.ranks[0], RankAfter(cfg, s, step);
            || RankLeft(k') < RankLeft(k)
            || (RankLeft(k') == RankLeft(k) && k.pc.Gathering? && k'.pc.Gathering? && k'.pc.todo < k.pc.todo)
  {
    var k, k' := s.ranks[0], RankAfter(cfg, s, step);
    GatherStepRank(cfg, s, step);
    if step.ReadOne? && k'.pc.Gathering? {
      assert k'.pc.todo == k.pc.todo - {step.name};
    }
  }

  lemma SmallerSet<T>(a: set<T>, b: set<T>)
    requires a < b
    ensures |a| < |b|
  {
    var x :| x in b && x !in a;
    assert a <= b - {x};
    SubsetSize(a, b - {x});
  }

  lemma {:induction false} SubsetSize<T>(a: set<T>, b: set<T>)
    requires a <= b
    ensures |a| <= |b|
  {
    if a != {} {
      var x :| x in a;
      SubsetSize(a - {x}, b - {x});
    }
  }

  lemma OneMoreFile(files: Files, name: string, text: string)
    ensures |files[name := text].Keys| <= |files.Keys| + 1
  {
    assert files[name := text].Keys == files.Keys + {name};
  }

  lemma FilesGrowth(cfg: Config, s: State, step: Step)
    requires Enabled(cfg, s, step) && |s.ranks| <= MAX_RANKS && !IsGatherStep(step)
    ensures |FilesAfter(cfg, s, step).Keys| <= |s.files.Keys| + if IsThreadStep(step) then 0 else 1
  {
    if step.OpenFile? {
      OneMoreFile(s.files, RankFile(step.r), "");
    } else if step.WriteFile? {
      var text := TraceText(Events(s.ranks[step.r].log), Compact);
      OneMoreFile(s.files, RankFile(step.r), if step.cut.None? then text else Clip(text, step.cut.value));
    }
  }

  lemma UnreadGrowth(cfg: Config, s: State, step: Step)
    requires Enabled(cfg, s, step) && |s.ranks| <= MAX_RANKS && !IsGatherStep(step)
    ensures var s' := Apply(cfg, s, step);
            Unread(s'.ranks[0].pc, s'.files) <= Unread(s.ranks[0].pc, s.files) + 1
  {
    FilesGrowth(cfg, s, step);
    assert Apply(cfg, s, step).ranks == s.ranks[Target(step) := RankAfter(cfg, s, step)];
    if Target(step) == 0 {
      PcStep(cfg, s, step);
    }
  }

  lemma TotalLeft(ranks: seq<Rank>, r: nat, k: Rank)
    requires r < |ranks|
    ensures Total(RanksLeft(ranks[r := k])) + RankLeft(ranks[r]) == Total(RanksLeft(ranks)) + RankLeft(k)
  {
    assert RanksLeft(ranks[r := k]) == RanksLeft(ranks)[r := RankLeft(k)];
    TotalUpdate(RanksLeft(ranks), r, RankLeft(k));
  }

  lemma OwnStepCounts(cfg: Config, s: State, step: Step)
    requires RanksOk(cfg, s) && Enabled(cfg, s, step) && !step.Begin? && !IsGatherStep(step)
    ensures Remaining(Apply(cfg, s, step)) < Remaining(s)
  {
    var r, k' := Target(step), RankAfter(cfg, s, step);
    assert Apply(cfg, s, step).ranks == s.ranks[r := k'];
    assert RankLeft(k') < RankLeft(s.ranks[r]) by {
      assert RankOk(cfg, s.ranks[r], r);
      if IsThreadStep(step) {
        ThreadStepLess(cfg, s, step);
      } else {
        MainStepLess(cfg, s, step);
      }
    }
    TotalLeft(s.ranks, r, k');
    UnreadGrowth(cfg, s, step);
  }

  lemma GatherStepCounts(cfg: Config, s: State, step: Step)
    requires |s.ranks| <= MAX_RANKS && Enabled(cfg, s, step) && IsGatherStep(step)
    ensures Remaining(Apply(cfg, s, step)) < Remaining(s)
  {
    var k, k' := s.ranks[0], RankAfter(cfg, s, step);
    assert Apply(cfg, s, step).ranks == s.ranks[0 := k'];
    GatherStepLess(cfg, s, step);
    GatherStepRank(cfg, s, step);
    TotalLeft(s.ranks, 0, k');
    if RankLeft(k') == RankLeft(k) {
      SmallerSet(k'.pc.todo, k.pc.todo);
    } else {
      assert !k'.pc.Gathering?;
    }
  }

  // Every step but the start of a new call leaves less to do.
  lemma EveryStepCounts(cfg: Config, s: State, step: Step)
    requires RanksOk(cfg, s) && Enabled(cfg, s, step) && !step.Begin?
    ensures Remaining(Apply(cfg, s, step)) < Remaining(s)
  {
    if IsGatherStep(step) {
      GatherStepCounts(cfg, s, step);
    } else {
      OwnStepCounts(cfg, s, step);
    }
  }

  // Every rank is inside MPI_Finalize or past it, and nobody calls MPI beside it.
  ghost predicate Finalizing(cfg: Config, s: State) {
    AllQuiet(cfg, s) && forall r :: 0 <= r < |s.ranks| ==> !s.ranks[r].pc.Running?
  }

  lemma FinalizingStep(cfg: Config, s: State, step: Step)
    requires |s.ranks| <= MAX_RANKS && Enabled(cfg, s, step) && Finalizing(cfg, s)
    ensures !step.Begin? && Finalizing(cfg, Apply(cfg, s, step))
  {
    PhaseStep(cfg, s, step);
    assert Apply(cfg, s, step).ranks == s.ranks[Target(step) := RankAfter(cfg, s, step)];
    assert Phase(s.ranks[Target(step)].pc) >= 1;
  }

  lemma {:induction false} StepsLeft(cfg: Config, start: State, s: State, more: seq<Step>, s': State)
    requires Inv(cfg, start, s) && Finalizing(cfg, s) && Leads(cfg, s, more, s')
    ensures |s'.ranks| == |s.ranks| > 0 && Finalizing(cfg, s') && |more| + Remaining(s') <= Remaining(s)
    decreases |more|
  {
    if more != [] {
      var before: State :| Leads(cfg, s, Front(more), before) && Takes(cfg, before, Last(more), s');
      StepsLeft(cfg, start, s, Front(more), before);
      assert RanksOk(cfg, before) by {
        InvKept(cfg, start, s, Front(more), before);
      }
      FinalizingStep(cfg, before, Last(more));
      EveryStepCounts(cfg, before, Last(more));
    }
  }

  // Finalize ends. Once all ranks are in it, only so many steps can follow whatever fails and however they are
  // chosen, and when no step is possible any more every rank is done.
  lemma FinalizeEnds(cfg: Config, start: State, first: seq<Step>, s: State, more: seq<Step>, s': State)
    requires Runs(cfg, start, first, s) && Finalizing(cfg, s) && Leads(cfg, s, more, s')
    ensures |s.ranks| > 0 && |more| <= Remaining(s)
    ensures (forall step :: !Enabled(AnyClock(cfg), s', step)) ==> Finished(s')
  {
    Reachable(cfg, start, first, s);
    StepsLeft(cfg, start, s, more, s');
    InvKept(cfg, start, s, more, s');
    if !Finished(s') {
      var step := CanProceed(cfg, s');
    }
  }
}
