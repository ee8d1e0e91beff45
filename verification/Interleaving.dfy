/** The log of a rank against the calls its threads made: the mutex and the order of a serialised rank. */
module Interleaving {
  import opened Sequences
  import opened Traces
  import opened Protocol
  import opened RankInvariant
  import opened SystemInvariant
  import opened Safety

  // What a step does to a call: nothing, or the call is made, which is when its wrapper comes to the point of
  // registering it, or it is dropped because its reservation fails, or it is logged.
  datatype Move = Stays | Made(call: Call) | Dropped | Logged

  function MoveOf(step: Step): Move {
    match step
    case Return(_, _, _, call) => Made(call)
    case ReadFinalizeClock(_, _, call) => Made(call)
    case Reserve(_, _, ok) => if ok then Stays else Dropped
    case ReserveFinalize(_, ok) => if ok then Stays else Dropped
    case Push(_, _) => Logged
    case PushFinalize(_) => Logged
    case _ => Stays
  }

  // The calls made and not dropped.
  function KeptAfter(kept: seq<Call>, move: Move): seq<Call> {
    match move
    case Made(call) => kept + [call]
    case Dropped => if kept == [] then [] else kept[..|kept| - 1]
    case _ => kept
  }

  // What is on its way to the log, if anything.
  ghost predicate Moves(move: Move, pending: seq<Call>, pending': seq<Call>) {
    match move
    case Stays => pending' == pending
    case Made(call) => pending == [] && pending' == [call]
    case Dropped => |pending| == 1 && pending' == []
    case Logged => |pending| == 1 && pending' == []
  }

  lemma Tally(kept: seq<Call>, logged: seq<Call>, pending: seq<Call>, move: Move, pending': seq<Call>)
    requires kept == logged + pending && Moves(move, pending, pending')
    ensures KeptAfter(kept, move) == (if move.Logged? then logged + pending else logged) + pending'
  {
  }

  // ---------- one thread ----------

  // MPI_Finalize is a call of the main thread.
  predicate OfThread(step: Step, r: nat, t: nat) {
    if IsThreadStep(step) then step.r == r && step.t == t
    else !IsGatherStep(step) && step.r == r && t == MAIN
  }

  function ThreadMove(step: Step, r: nat, t: nat): Move {
    if OfThread(step, r, t) then MoveOf(step) else Stays
  }

  // The calls a thread has made, in its own order, without those whose reservation failed.
  function Kept(steps: seq<Step>, r: nat, t: nat): seq<Call> {
    if steps == [] then [] else KeptAfter(Kept(Front(steps), r, t), ThreadMove(Last(steps), r, t))
  }

  function ThreadPending(t: Thread): seq<Call> {
    if t.Returned? || t.Locked? || t.Reserved? then [t.call] else []
  }

  function MainPending(pc: Pc): seq<Call> {
    if pc.FinReturned? || pc.FinLocked? || pc.FinReserved? then [pc.call] else []
  }

  // What a thread has made and not yet logged.
  function Pending(k: Rank, t: nat): seq<Call>
    requires t < |k.threads|
  {
    if t == MAIN && !k.pc.Running? then MainPending(k.pc) else ThreadPending(k.threads[t])
  }

  // The thread's part of the log and what it is about to add are all it made and kept.
  ghost predicate Accounted(k: Rank, t: nat, kept: seq<Call>) {
    t < |k.threads| && kept == CallsOf(k.log, t) + Pending(k, t)
  }

  lemma OwnThreadMoves(cfg: Config, s: State, step: Step)
    requires Enabled(cfg, s, step) && IsThreadStep(step) && LockOk(s.ranks[step.r]) && FoundOk(s.ranks[step.r])
    ensures var k, k', t := s.ranks[step.r], RankAfter(cfg, s, step), step.t;
            |k'.threads| == |k.threads| && Moves(MoveOf(step), Pending(k, t), Pending(k', t))
    ensures step.Push? ==> Pending(s.ranks[step.r], step.t) == [s.ranks[step.r].threads[step.t].call]
  {
    var k, t := s.ranks[step.r], step.t;
    ThreadStepEffect(cfg, s, step);
    assert t == MAIN ==> k.pc.Running?;
  }

  lemma OwnMainMoves(cfg: Config, s: State, step: Step)
    requires Enabled(cfg, s, step) && !IsThreadStep(step) && LockOk(s.ranks[Target(step)])
    ensures var k, k' := s.ranks[Target(step)], RankAfter(cfg, s, step);
            |k'.threads| == |k.threads| && Moves(MoveOf(step), Pending(k, MAIN), Pending(k', MAIN))
    ensures step.PushFinalize? ==> Pending(s.ranks[step.r], MAIN) == [s.ranks[step.r].pc.call]
  {
    MainStepThreads(cfg, s, step);
    if IsGatherStep(step) {
      GatherStepRank(cfg, s, step);
    } else {
      PcStep(cfg, s, step);
    }
  }

  lemma OtherMoves(cfg: Config, s: State, step: Step, t: nat)
    requires Enabled(cfg, s, step) && LockOk(s.ranks[Target(step)]) && FoundOk(s.ranks[Target(step)])
    requires t < |s.ranks[Target(step)].threads| && !OfThread(step, Target(step), t)
    ensures var k, k' := s.ranks[Target(step)], RankAfter(cfg, s, step);
            t < |k'.threads| && Pending(k', t) == Pending(k, t)
  {
    if IsThreadStep(step) {
      ThreadStepEffect(cfg, s, step);
    } else {
      MainStepThreads(cfg, s, step);
      if IsGatherStep(step) {
        GatherStepRank(cfg, s, step);
      }
    }
  }

  lemma ThreadMoves(cfg: Config, s: State, step: Step, t: nat)
    requires Enabled(cfg, s, step) && LockOk(s.ranks[Target(step)]) && FoundOk(s.ranks[Target(step)])
    requires t < |s.ranks[Target(step)].threads|
    ensures var k, k' := s.ranks[Target(step)], RankAfter(cfg, s, step);
            t < |k'.threads| && Moves(ThreadMove(step, Target(step), t), Pending(k, t), Pending(k', t))
  {
    if !OfThread(step, Target(step), t) {
      OtherMoves(cfg, s, step, t);
    } else if IsThreadStep(step) {
      OwnThreadMoves(cfg, s, step);
    } else {
      OwnMainMoves(cfg, s, step);
    }
  }

  // A push adds to the thread's part of the log what the thread has pending.
  lemma ThreadLogs(cfg: Config, s: State, step: Step, t: nat)
    requires Enabled(cfg, s, step) && LockOk(s.ranks[Target(step)]) && FoundOk(s.ranks[Target(step)])
    requires t < |s.ranks[Target(step)].threads|
    ensures var k, k' := s.ranks[Target(step)], RankAfter(cfg, s, step);
            CallsOf(k'.log, t) == if ThreadMove(step, Target(step), t).Logged? then CallsOf(k.log, t) + Pending(k, t)
                                  else CallsOf(k.log, t)
  {
    var k := s.ranks[Target(step)];
    LogAfter(cfg, s, step);
    if step.Push? {
      OwnThreadMoves(cfg, s, step);
      CallsOfAppend(k.log, Entry(step.t, k.threads[step.t].call), t);
    } else if step.PushFinalize? {
      OwnMainMoves(cfg, s, step);
      CallsOfAppend(k.log, Entry(MAIN, k.pc.call), t);
    }
  }

  lemma StepAccounted(cfg: Config, s: State, step: Step, t: nat, kept: seq<Call>)
    requires Enabled(cfg, s, step) && LockOk(s.ranks[Target(step)]) && FoundOk(s.ranks[Target(step)])
    requires Accounted(s.ranks[Target(step)], t, kept)
    ensures Accounted(RankAfter(cfg, s, step), t, KeptAfter(kept, ThreadMove(step, Target(step), t)))
  {
    var k, k' := s.ranks[Target(step)], RankAfter(cfg, s, step);
    ThreadMoves(cfg, s, step, t);
    ThreadLogs(cfg, s, step, t);
    Tally(kept, CallsOf(k.log, t), Pending(k, t), ThreadMove(step, Target(step), t), Pending(k', t));
  }

  lemma {:induction false} ThreadAccounted(cfg: Config, start: State, steps: seq<Step>, s: State, r: nat, t: nat)
    requires Runs(cfg, start, steps, s) && r < |s.ranks| && t < |s.ranks[r].threads|
    ensures Accounted(s.ranks[r], t, Kept(steps, r, t))
    decreases |steps|
  {
    if steps != [] {
      var before := BeforeLast(cfg, start, steps, s);
      var step := Last(steps);
      var kept := Kept(Front(steps), r, t);
      SameThreads(cfg, before, step, r);
      ThreadAccounted(cfg, start, Front(steps), before, r, t);
      if r == Target(step) {
        assert LockOk(before.ranks[r]) && FoundOk(before.ranks[r]) by {
          assert RankOk(cfg, before.ranks[r], r);
        }
        StepAccounted(cfg, before, step, t, kept);
      } else {
        assert ThreadMove(step, r, t).Stays?;
      }
    }
  }

  lemma SameThreads(cfg: Config, s: State, step: Step, r: nat)
    requires |s.ranks| <= MAX_RANKS && Enabled(cfg, s, step) && RanksOk(cfg, s) && r < |s.ranks|
    ensures |Apply(cfg, s, step).ranks[r].threads| == |s.ranks[r].threads|
  {
    assert Apply(cfg, s, step).ranks == s.ranks[Target(step) := RankAfter(cfg, s, step)];
    if r == Target(step) {
      assert LockOk(s.ranks[r]) && FoundOk(s.ranks[r]) by {
        assert RankOk(cfg, s.ranks[r], r);
      }
      if IsThreadStep(step) {
        ThreadStepEffect(cfg, s, step);
      } else {
        MainStepThreads(cfg, s, step);
      }
    }
  }

  // In any run, however the threads are scheduled and whichever reservations fail, each thread's part of a rank's
  // log, followed by at most one call that is on its way, is exactly what the thread made and kept, in its order.
  lemma LogInterleavesThreads(cfg: Config, start: State, steps: seq<Step>, s: State, r: nat, t: nat)
    requires Runs(cfg, start, steps, s) && r < |s.ranks| && t < |s.ranks[r].threads|
    ensures Kept(steps, r, t) == CallsOf(s.ranks[r].log, t) + Pending(s.ranks[r], t) && |Pending(s.ranks[r], t)| <= 1
  {
    ThreadAccounted(cfg, start, steps, s, r, t);
  }

  // And there is nothing else in the log.
  lemma {:induction false} LogOfThreads(cfg: Config, start: State, steps: seq<Step>, s: State, r: nat, i: nat)
    requires Runs(cfg, start, steps, s) && r < |s.ranks| && i < |s.ranks[r].log|
    ensures s.ranks[r].log[i].tid < |s.ranks[r].threads|
    decreases |steps|
  {
    if steps != [] {
      var before := BeforeLast(cfg, start, steps, s);
      SameThreads(cfg, before, Last(steps), r);
      if r == Target(Last(steps)) {
        assert RankOk(cfg, before.ranks[r], r);
        LogAfter(cfg, before, Last(steps));
      }
      if i < |before.ranks[r].log| {
        LogOfThreads(cfg, start, Front(steps), before, r, i);
      }
    }
  }

  // ---------- a rank whose calls are serialised ----------

  function RankMove(step: Step, r: nat): Move {
    if !IsGatherStep(step) && step.r == r then MoveOf(step) else Stays
  }

  // The calls of all the rank's threads in the order in which they were made, without those whose reservation failed.
  function RankKept(steps: seq<Step>, r: nat): seq<Call> {
    if steps == [] then [] else KeptAfter(RankKept(Front(steps), r), RankMove(Last(steps), r))
  }

  // All the calls a rank has made, in order.
  function RankCalls(steps: seq<Step>, r: nat): seq<Call> {
    if steps == [] then []
    else
      RankCalls(Front(steps), r) +
      match RankMove(Last(steps), r)
      case Made(call) => [call]
      case _ => []
  }

  // The positions among them of those it kept.
  function KeptAt(steps: seq<Step>, r: nat): seq<int> {
    if steps == [] then []
    else
      var at := KeptAt(Front(steps), r);
      match RankMove(Last(steps), r)
      case Made(_) => at + [|RankCalls(Front(steps), r)|]
      case Dropped => if at == [] then [] else at[..|at| - 1]
      case _ => at
  }

  lemma {:induction false} KeptPicked(steps: seq<Step>, r: nat)
    ensures Picks(RankCalls(steps, r), KeptAt(steps, r), RankKept(steps, r))
  {
    if steps != [] {
      var calls, at, kept := RankCalls(Front(steps), r), KeptAt(Front(steps), r), RankKept(Front(steps), r);
      KeptPicked(Front(steps), r);
      match RankMove(Last(steps), r)
      case Made(call) => PicksMore(calls, at, kept, call);
      case Dropped =>
        if at != [] {
          PicksFirst(calls, at, kept, |at| - 1);
        }
      case _ =>
    }
  }

  function RankPending(k: Rank): seq<Call> {
    if k.pc.Running? then FlatMap(k.threads, ThreadPending) else MainPending(k.pc)
  }

  function CallsIn(log: seq<Entry>): seq<Call> {
    seq(|log|, i requires 0 <= i < |log| => log[i].call)
  }

  lemma {:induction false} NonePending(threads: seq<Thread>)
    requires forall t :: 0 <= t < |threads| ==> threads[t].Idle?
    ensures FlatMap(threads, ThreadPending) == []
  {
    if threads != [] {
      NonePending(threads[..|threads| - 1]);
    }
  }

  lemma OnePending(threads: seq<Thread>, t: nat)
    requires t < |threads| && forall u :: 0 <= u < |threads| && u != t ==> threads[u].Idle?
    ensures FlatMap(threads, ThreadPending) == ThreadPending(threads[t])
  {
    var before, after, pending := threads[..t], threads[t + 1..], ThreadPending(threads[t]);
    assert FlatMap(threads, ThreadPending)
           == FlatMap(before, ThreadPending) + pending + FlatMap(after, ThreadPending) by {
      assert threads == before + [threads[t]] + after;
      FlatMapAround(before, threads[t], after, ThreadPending);
    }
    NonePending(before);
    NonePending(after);
    assert [] + pending + [] == pending;
  }

  lemma CallsInAppend(log: seq<Entry>, e: Entry)
    ensures CallsIn(log + [e]) == CallsIn(log) + [e.call]
  {
  }

  // Nobody else is inside a call, so what the thread has pending is all that the rank has.
  lemma OnlyThread(cfg: Config, s: State, step: Step)
    requires Enabled(cfg, s, step) && IsThreadStep(step) && step.r in cfg.serial
    requires LockOk(s.ranks[step.r]) && FoundOk(s.ranks[step.r]) && OneBusy(s.ranks[step.r])
    ensures var k, k', t := s.ranks[step.r], RankAfter(cfg, s, step), step.t;
            && t < |k'.threads|
            && RankPending(k) == Pending(k, t) && RankPending(k') == Pending(k', t)
  {
    var k, k', t := s.ranks[step.r], RankAfter(cfg, s, step), step.t;
    ThreadStepEffect(cfg, s, step);
    assert k.pc.Running? && forall u :: 0 <= u < |k.threads| && u != t ==> k.threads[u].Idle? by {
      assert step.Begin? || !k.threads[t].Idle?;
    }
    assert k'.threads == k.threads[t := k'.threads[t]];
    OnePending(k.threads, t);
    OnePending(k'.threads, t);
  }

  lemma OnlyMain(k: Rank)
    requires OneBusy(k) && |k.threads| > MAIN && (k.pc.Running? ==> AllIdle(k))
    ensures RankPending(k) == Pending(k, MAIN)
  {
    if k.pc.Running? {
      NonePending(k.threads);
    }
  }

  lemma RankAfterMain(cfg: Config, s: State, step: Step)
    requires Enabled(cfg, s, step) && !IsThreadStep(step)
    ensures !RankAfter(cfg, s, step).pc.Running?
  {
    if IsGatherStep(step) {
      GatherStepRank(cfg, s, step);
    } else {
      PcStep(cfg, s, step);
    }
  }

  lemma RankThreadMoves(cfg: Config, s: State, step: Step)
    requires Enabled(cfg, s, step) && IsThreadStep(step) && step.r in cfg.serial
    requires LockOk(s.ranks[step.r]) && FoundOk(s.ranks[step.r]) && OneBusy(s.ranks[step.r])
    ensures Moves(MoveOf(step), RankPending(s.ranks[step.r]), RankPending(RankAfter(cfg, s, step)))
    ensures step.Push? ==> RankPending(s.ranks[step.r]) == [s.ranks[step.r].threads[step.t].call]
  {
    OnlyThread(cfg, s, step);
    OwnThreadMoves(cfg, s, step);
  }

  lemma RankMainMoves(cfg: Config, s: State, step: Step)
    requires Enabled(cfg, s, step) && !IsThreadStep(step) && Target(step) in cfg.serial
    requires LockOk(s.ranks[Target(step)]) && FoundOk(s.ranks[Target(step)]) && OneBusy(s.ranks[Target(step)])
    ensures Moves(MoveOf(step), RankPending(s.ranks[Target(step)]), RankPending(RankAfter(cfg, s, step)))
    ensures step.PushFinalize? ==> RankPending(s.ranks[step.r]) == [s.ranks[step.r].pc.call]
  {
    var k := s.ranks[Target(step)];
    assert k.pc.Running? ==> step.EnterFinalize?;
    OnlyMain(k);
    OneBusyMainStep(cfg, s, step);
    MainStepThreads(cfg, s, step);
    RankAfterMain(cfg, s, step);
    OnlyMain(RankAfter(cfg, s, step));
    OwnMainMoves(cfg, s, step);
  }

  lemma RankMoves(cfg: Config, s: State, step: Step)
    requires Enabled(cfg, s, step) && Target(step) in cfg.serial
    requires LockOk(s.ranks[Target(step)]) && FoundOk(s.ranks[Target(step)]) && OneBusy(s.ranks[Target(step)])
    ensures var k, k' := s.ranks[Target(step)], RankAfter(cfg, s, step);
            && Moves(MoveOf(step), RankPending(k), RankPending(k'))
            && CallsIn(k'.log) == if MoveOf(step).Logged? then CallsIn(k.log) + RankPending(k) else CallsIn(k.log)
  {
    var k := s.ranks[Target(step)];
    LogAfter(cfg, s, step);
    if IsThreadStep(step) {
      RankThreadMoves(cfg, s, step);
      if step.Push? {
        CallsInAppend(k.log, Entry(step.t, k.threads[step.t].call));
      }
    } else {
      RankMainMoves(cfg, s, step);
      if step.PushFinalize? {
        CallsInAppend(k.log, Entry(MAIN, k.pc.call));
      }
    }
  }

  lemma RankStepKept(cfg: Config, s: State, step: Step, kept: seq<Call>)
    requires Enabled(cfg, s, step) && Target(step) in cfg.serial
    requires LockOk(s.ranks[Target(step)]) && FoundOk(s.ranks[Target(step)]) && OneBusy(s.ranks[Target(step)])
    requires kept == CallsIn(s.ranks[Target(step)].log) + RankPending(s.ranks[Target(step)])
    ensures var k' := RankAfter(cfg, s, step);
            KeptAfter(kept, MoveOf(step)) == CallsIn(k'.log) + RankPending(k')
  {
    var k, k' := s.ranks[Target(step)], RankAfter(cfg, s, step);
    RankMoves(cfg, s, step);
    Tally(kept, CallsIn(k.log), RankPending(k), MoveOf(step), RankPending(k'));
  }

  ghost predicate RankAccounted(k: Rank, kept: seq<Call>) {
    kept == CallsIn(k.log) + RankPending(k)
  }

  lemma RankAccountedStep(cfg: Config, s: State, step: Step, r: nat, kept: seq<Call>)
    requires RanksOk(cfg, s) && Enabled(cfg, s, step) && r < |s.ranks| && r in cfg.serial
    requires RankAccounted(s.ranks[r], kept)
    ensures RankAccounted(Apply(cfg, s, step).ranks[r], KeptAfter(kept, RankMove(step, r)))
  {
    var k' := RankAfter(cfg, s, step);
    assert Apply(cfg, s, step).ranks == s.ranks[Target(step) := k'];
    if r == Target(step) {
      assert LockOk(s.ranks[r]) && FoundOk(s.ranks[r]) && OneBusy(s.ranks[r]) by {
        assert RankOk(cfg, s.ranks[r], r);
      }
      assert RankMove(step, r) == MoveOf(step);
      assert RankAccounted(k', KeptAfter(kept, MoveOf(step))) by {
        RankStepKept(cfg, s, step, kept);
      }
    } else {
      assert RankMove(step, r).Stays?;
    }
  }

  // The log of a rank whose calls are serialised, followed by at most one call on its way, is the sequence of the
  // calls that the rank made and kept.
  lemma {:induction false} SerialLog(cfg: Config, start: State, steps: seq<Step>, s: State, r: nat)
    requires Runs(cfg, start, steps, s) && r < |s.ranks| && r in cfg.serial
    ensures RankAccounted(s.ranks[r], RankKept(steps, r))
    decreases |steps|
  {
    if steps == [] {
      NonePending(s.ranks[r].threads);
    } else {
      var before := BeforeLast(cfg, start, steps, s);
      SerialLog(cfg, start, Front(steps), before, r);
      RankAccountedStep(cfg, before, Last(steps), r, RankKept(Front(steps), r));
    }
  }

  // So the log consists of the calls at known positions among all those the rank made.
  function LoggedAt(steps: seq<Step>, k: Rank, r: nat): seq<int> {
    var at := KeptAt(steps, r);
    if |k.log| <= |at| then at[..|k.log|] else at
  }

  lemma LogPicked(cfg: Config, start: State, steps: seq<Step>, s: State, r: nat)
    requires Runs(cfg, start, steps, s) && r < |s.ranks| && r in cfg.serial
    ensures Picks(RankCalls(steps, r), LoggedAt(steps, s.ranks[r], r), CallsIn(s.ranks[r].log))
  {
    var k := s.ranks[r];
    SerialLog(cfg, start, steps, s, r);
    KeptPicked(steps, r);
    PicksFirst(RankCalls(steps, r), KeptAt(steps, r), RankKept(steps, r), |k.log|);
    assert RankKept(steps, r)[..|k.log|] == CallsIn(k.log);
  }

  lemma AtMostOnePending(cfg: Config, start: State, steps: seq<Step>, s: State, r: nat)
    requires Runs(cfg, start, steps, s) && r < |s.ranks| && r in cfg.serial
    ensures |RankPending(s.ranks[r])| <= 1
  {
    var k := s.ranks[r];
    assert OneBusy(k) by {
      Reachable(cfg, start, steps, s);
      assert RankOk(cfg, k, r);
    }
    if t: nat :| t < |k.threads| && !k.threads[t].Idle? {
      OnePending(k.threads, t);
    } else {
      NonePending(k.threads);
    }
  }
}
