/** What every step keeps true of the time stamps. */
module TimeInvariant {
  import opened Types
  import opened Traces
  import opened Protocol
  import opened RankInvariant
  import opened SystemInvariant

  // Everything a rank has recorded is in its clock's past.
  ghost predicate PastOk(k: Rank) {
    && (forall i :: 0 <= i < |k.log| ==> CallEnd(k.log[i].call) <= k.clock)
    && (forall t :: 0 <= t < |k.threads| && k.threads[t].InCall? ==> k.threads[t].since <= k.clock)
    && (forall t :: 0 <= t < |k.threads| && k.threads[t].Returned? ==> CallEnd(k.threads[t].call) <= k.clock)
    && (forall t :: 0 <= t < |k.threads| && k.threads[t].Locked? ==> CallEnd(k.threads[t].call) <= k.clock)
    && (forall t :: 0 <= t < |k.threads| && k.threads[t].Reserved? ==> CallEnd(k.threads[t].call) <= k.clock)
    && (k.pc.FinReturned? ==> CallEnd(k.pc.call) <= k.clock)
    && (k.pc.FinLocked? ==> CallEnd(k.pc.call) <= k.clock)
    && (k.pc.FinReserved? ==> CallEnd(k.pc.call) <= k.clock)
  }

  lemma ClockStep(cfg: Config, s: State, step: Step)
    requires Enabled(cfg, s, step) && cfg.Steady(Target(step))
    ensures s.ranks[Target(step)].clock <= RankAfter(cfg, s, step).clock
  {
    if IsGatherStep(step) {
      GatherStepRank(cfg, s, step);
    }
  }

  // A steady clock leaves nothing to wrap around: the duration is the time between the two readings.
  lemma SteadyCall(call: Call, r: nat, since: nat, now: nat)
    requires Records(call, r, since, now) && since < now < TWO_64
    ensures CallEnd(call) == now && since <= call.tsc
  {
  }

  lemma PastThreadStep(cfg: Config, s: State, step: Step)
    requires Enabled(cfg, s, step) && IsThreadStep(step) && cfg.Steady(step.r)
    requires LockOk(s.ranks[step.r]) && FoundOk(s.ranks[step.r]) && PastOk(s.ranks[step.r])
    ensures PastOk(RankAfter(cfg, s, step))
  {
    var k, k' := s.ranks[step.r], RankAfter(cfg, s, step);
    ClockStep(cfg, s, step);
    ThreadStepEffect(cfg, s, step);
    LogAfter(cfg, s, step);
    if step.Return? {
      SteadyCall(step.call, step.r, k.threads[step.t].since, step.now);
    }
  }

  lemma PastMainStep(cfg: Config, s: State, step: Step)
    requires Enabled(cfg, s, step) && !IsThreadStep(step) && cfg.Steady(Target(step))
    requires FoundOk(s.ranks[Target(step)]) && PastOk(s.ranks[Target(step)])
    ensures PastOk(RankAfter(cfg, s, step))
  {
    var k, k' := s.ranks[Target(step)], RankAfter(cfg, s, step);
    ClockStep(cfg, s, step);
    MainStepThreads(cfg, s, step);
    LogAfter(cfg, s, step);
    if IsGatherStep(step) {
      GatherStepRank(cfg, s, step);
    } else {
      PcStep(cfg, s, step);
    }
  }

  lemma PastStep(cfg: Config, s: State, step: Step)
    requires Enabled(cfg, s, step) && cfg.Steady(Target(step))
    requires RankOk(cfg, s.ranks[Target(step)], Target(step)) && PastOk(s.ranks[Target(step)])
    ensures PastOk(RankAfter(cfg, s, step))
  {
    if IsThreadStep(step) {
      PastThreadStep(cfg, s, step);
    } else {
      PastMainStep(cfg, s, step);
    }
  }

  // ---------- serialised ranks ----------

  // The instant belongs after everything logged.
  ghost predicate AfterLog(log: seq<Entry>, tsc: int) {
    forall i :: 0 <= i < |log| ==> CallEnd(log[i].call) < tsc
  }

  // Recorded intervals are disjoint and in log order.
  ghost predicate InOrder(log: seq<Entry>) {
    forall i, j :: 0 <= i < j < |log| ==> CallEnd(log[i].call) < log[j].call.tsc
  }

  // What a thread is about to log belongs after everything logged.
  ghost predicate ThreadInOrder(log: seq<Entry>, t: Thread) {
    match t
    case Idle => true
    case InCall(since) => AfterLog(log, since)
    case Returned(call) => AfterLog(log, call.tsc)
    case Locked(call) => AfterLog(log, call.tsc)
    case Reserved(call, _) => AfterLog(log, call.tsc)
  }

  ghost predicate MainInOrder(log: seq<Entry>, pc: Pc) {
    match pc
    case FinReturned(call) => AfterLog(log, call.tsc)
    case FinLocked(call) => AfterLog(log, call.tsc)
    case FinReserved(call, _) => AfterLog(log, call.tsc)
    case _ => true
  }

  ghost predicate SerialOk(k: Rank) {
    && InOrder(k.log) && MainInOrder(k.log, k.pc)
    && forall t :: 0 <= t < |k.threads| ==> ThreadInOrder(k.log, k.threads[t])
  }

  lemma InOrderAppend(log: seq<Entry>, e: Entry)
    requires InOrder(log) && AfterLog(log, e.call.tsc)
    ensures InOrder(log + [e])
  {
  }

  lemma LaterAfterLog(log: seq<Entry>, since: int, tsc: int)
    requires AfterLog(log, since) && since <= tsc
    ensures AfterLog(log, tsc)
  {
  }

  lemma NowAfterLog(k: Rank, now: int)
    requires PastOk(k) && k.clock < now
    ensures AfterLog(k.log, now)
  {
  }

  // The thread's next state is in order if its log stays.
  lemma ThreadInOrderStep(cfg: Config, s: State, step: Step)
    requires IsThreadStep(step) && cfg.Steady(step.r) && Enabled(cfg, s, step) && LockOk(s.ranks[step.r])
    requires FoundOk(s.ranks[step.r]) && PastOk(s.ranks[step.r])
    requires ThreadInOrder(s.ranks[step.r].log, s.ranks[step.r].threads[step.t])
    ensures ThreadInOrder(s.ranks[step.r].log, RankAfter(cfg, s, step).threads[step.t])
  {
    var k, k' := s.ranks[step.r], RankAfter(cfg, s, step);
    ThreadStepEffect(cfg, s, step);
    match step
    case Begin(r, t, now) => NowAfterLog(k, now);
    case Return(r, t, now, call) =>
      var since := k.threads[t].since;
      assert since <= k.clock < now;
      SteadyCall(call, r, since, now);
      LaterAfterLog(k.log, since, call.tsc);
    case Lock(r, t) =>
    case Reserve(r, t, ok) =>
    case Push(r, t) =>
  }

  lemma SerialThreadStep(cfg: Config, s: State, step: Step)
    requires IsThreadStep(step) && step.r in cfg.serial && cfg.Steady(step.r)
    requires Enabled(cfg, s, step) && RankOk(cfg, s.ranks[step.r], step.r)
    requires PastOk(s.ranks[step.r]) && SerialOk(s.ranks[step.r])
    ensures SerialOk(RankAfter(cfg, s, step))
  {
    var k, k' := s.ranks[step.r], RankAfter(cfg, s, step);
    ThreadStepEffect(cfg, s, step);
    LogAfter(cfg, s, step);
    assert ThreadInOrder(k.log, k.threads[step.t]);
    ThreadInOrderStep(cfg, s, step);
    if step.Push? {
      SerialPush(cfg, s, step);
    } else {
      assert k'.log == k.log && k'.pc == k.pc;
    }
  }

  lemma SerialPush(cfg: Config, s: State, step: Step)
    requires step.Push? && step.r in cfg.serial
    requires Enabled(cfg, s, step) && RankOk(cfg, s.ranks[step.r], step.r) && SerialOk(s.ranks[step.r])
    ensures SerialOk(RankAfter(cfg, s, step))
  {
    var k, k' := s.ranks[step.r], RankAfter(cfg, s, step);
    var e := Entry(step.t, k.threads[step.t].call);
    ThreadStepEffect(cfg, s, step);
    LogAfter(cfg, s, step);
    assert ThreadInOrder(k.log, k.threads[step.t]);
    InOrderAppend(k.log, e);
    assert k'.log == k.log + [e] && k'.pc == k.pc == Running;
    forall u | 0 <= u < |k'.threads|
      ensures k'.threads[u].Idle?
    {
      assert u != step.t ==> k.threads[u].Idle?;
    }
  }

  lemma SerialPushFinalize(cfg: Config, s: State, step: Step)
    requires step.PushFinalize? && step.r in cfg.serial
    requires Enabled(cfg, s, step) && RankOk(cfg, s.ranks[step.r], step.r) && SerialOk(s.ranks[step.r])
    ensures SerialOk(RankAfter(cfg, s, step))
  {
    var k, k' := s.ranks[step.r], RankAfter(cfg, s, step);
    MainStepThreads(cfg, s, step);
    LogAfter(cfg, s, step);
    InOrderAppend(k.log, Entry(MAIN, k.pc.call));
    assert AllIdle(k) && k'.pc == Opening;
  }

  lemma SerialOtherMainStep(cfg: Config, s: State, step: Step)
    requires !IsThreadStep(step) && !IsGatherStep(step) && !step.PushFinalize? && cfg.Steady(step.r)
    requires Enabled(cfg, s, step) && FoundOk(s.ranks[step.r])
    requires PastOk(s.ranks[step.r]) && SerialOk(s.ranks[step.r])
    ensures SerialOk(RankAfter(cfg, s, step))
  {
    var k, k' := s.ranks[step.r], RankAfter(cfg, s, step);
    MainStepThreads(cfg, s, step);
    LogAfter(cfg, s, step);
    assert MainInOrder(k.log, k'.pc) by {
      PcStep(cfg, s, step);
      if step.ReadFinalizeClock? {
        NowAfterLog(k, step.now);
      }
    }
  }

  lemma SerialMainStep(cfg: Config, s: State, step: Step)
    requires !IsThreadStep(step) && Target(step) in cfg.serial && cfg.Steady(Target(step))
    requires Enabled(cfg, s, step) && RankOk(cfg, s.ranks[Target(step)], Target(step))
    requires PastOk(s.ranks[Target(step)]) && SerialOk(s.ranks[Target(step)])
    ensures SerialOk(RankAfter(cfg, s, step))
  {
    if IsGatherStep(step) {
      GatherStepRank(cfg, s, step);
    } else if step.PushFinalize? {
      SerialPushFinalize(cfg, s, step);
    } else {
      SerialOtherMainStep(cfg, s, step);
    }
  }

  // ---------- one clock shared by all ranks ----------

  // The calls of the program proper, all but Finalize, had returned before the instant.
  ghost predicate ProperBefore(log: seq<Entry>, tsc: int) {
    forall i :: 0 <= i < |log| && log[i].call.kind != Finalize ==> CallEnd(log[i].call) < tsc
  }

  // The calls of one rank had returned before the other read its Finalize time.
  ghost predicate FinalAfter(k: Rank, l: Rank) {
    && (forall j :: 0 <= j < |l.log| && l.log[j].call.kind == Finalize ==> ProperBefore(k.log, l.log[j].call.tsc))
    && (l.pc.FinReturned? ==> ProperBefore(k.log, l.pc.call.tsc))
    && (l.pc.FinLocked? ==> ProperBefore(k.log, l.pc.call.tsc))
    && (l.pc.FinReserved? ==> ProperBefore(k.log, l.pc.call.tsc))
  }

  ghost predicate SharedOk(cfg: Config, s: State) {
    forall r, q :: 0 <= r < |s.ranks| && 0 <= q < |s.ranks| && cfg.Quiet(r) ==> FinalAfter(s.ranks[r], s.ranks[q])
  }

  // What a step does to a rank's Finalize record.
  lemma FinalStep(cfg: Config, s: State, step: Step)
    requires Enabled(cfg, s, step)
    ensures var pc, pc' := s.ranks[Target(step)].pc, RankAfter(cfg, s, step).pc;
            && (pc'.FinReserved? ==> (pc.FinLocked? || pc.FinReserved?) && pc'.call == pc.call)
            && (pc'.FinLocked? ==> (pc.FinLocked? || pc.FinReturned?) && pc'.call == pc.call)
            && (pc'.FinReturned? ==> pc' == pc || (step.ReadFinalizeClock? && pc'.call.tsc == step.now))
  {
    if IsGatherStep(step) {
      GatherStepRank(cfg, s, step);
    } else {
      PcStep(cfg, s, step);
    }
  }

  lemma NoFinalYet(k: Rank, l: Rank)
    requires NoFinalize(l.log) && Phase(l.pc) <= 1
    ensures FinalAfter(k, l)
  {
  }

  // A change of the first rank only.
  lemma FirstChanges(cfg: Config, s: State, step: Step, q: nat)
    requires cfg.Quiet(Target(step)) && Enabled(cfg, s, step) && RanksOk(cfg, s) && BarriersOk(s)
    requires q < |s.ranks| && FinalAfter(s.ranks[Target(step)], s.ranks[q])
    ensures FinalAfter(RankAfter(cfg, s, step), s.ranks[q])
  {
    var k, k' := s.ranks[Target(step)], RankAfter(cfg, s, step);
    assert RankOk(cfg, k, Target(step));
    LogAfter(cfg, s, step);
    if step.Push? {
      assert !AllIdle(k) && Phase(k.pc) == 0;
      assert Phase(s.ranks[q].pc) <= 1;
      assert NoFinalize(s.ranks[q].log) by {
        assert RankOk(cfg, s.ranks[q], q);
      }
      NoFinalYet(k', s.ranks[q]);
    } else {
      assert forall tsc {:trigger ProperBefore(k'.log, tsc)} ::
          ProperBefore(k.log, tsc) ==> ProperBefore(k'.log, tsc) by {
        if step.PushFinalize? {
          assert k.pc.call.kind == Finalize;
        }
      }
    }
  }

  // A change of the second rank only; the first one may already have changed.
  lemma SecondChanges(cfg: Config, s: State, step: Step, k: Rank)
    requires Enabled(cfg, s, step) && RankOk(cfg, s.ranks[Target(step)], Target(step))
    requires FinalAfter(k, s.ranks[Target(step)])
    requires step.ReadFinalizeClock? ==> ProperBefore(k.log, step.now)
    ensures FinalAfter(k, RankAfter(cfg, s, step))
  {
    var l, l' := s.ranks[Target(step)], RankAfter(cfg, s, step);
    LogAfter(cfg, s, step);
    FinalStep(cfg, s, step);
    forall j | 0 <= j < |l'.log| && l'.log[j].call.kind == Finalize
      ensures ProperBefore(k.log, l'.log[j].call.tsc)
    {
      if j < |l.log| {
        assert l'.log[j] == l.log[j];
      } else {
        assert step.PushFinalize? && l'.log[j].call == l.pc.call;
      }
    }
  }

  lemma SharedStep(cfg: Config, s: State, step: Step)
    requires cfg.shared && Enabled(cfg, s, step) && RanksOk(cfg, s) && BarriersOk(s)
    requires forall r :: 0 <= r < |s.ranks| ==> PastOk(s.ranks[r])
    requires SharedOk(cfg, s)
    ensures SharedOk(cfg, Apply(cfg, s, step))
  {
    var s', x := Apply(cfg, s, step), Target(step);
    var k' := RankAfter(cfg, s, step);
    assert s'.ranks == s.ranks[x := k'];
    forall r, q | 0 <= r < |s.ranks| && 0 <= q < |s.ranks| && cfg.Quiet(r)
      ensures FinalAfter(s'.ranks[r], s'.ranks[q])
    {
      assert FinalAfter(s.ranks[r], s.ranks[q]);
      if r == x {
        FirstChanges(cfg, s, step, q);
      }
      if q == x {
        assert RankOk(cfg, s.ranks[x], x);
        if step.ReadFinalizeClock? {
          NowAfterFirst(cfg, s, step, r);
        }
        SecondChanges(cfg, s, step, s'.ranks[r]);
      }
    }
  }

  lemma NowAfterFirst(cfg: Config, s: State, step: Step, r: nat)
    requires step.ReadFinalizeClock? && cfg.shared && Enabled(cfg, s, step) && r < |s.ranks| && PastOk(s.ranks[r])
    requires |s.ranks| <= MAX_RANKS && RankOk(cfg, s.ranks[step.r], step.r)
    ensures ProperBefore(Apply(cfg, s, step).ranks[r].log, step.now)
  {
    LogAfter(cfg, s, step);
    assert Apply(cfg, s, step).ranks[r].log == s.ranks[r].log;
    assert s.ranks[r].clock < step.now;
  }
}
