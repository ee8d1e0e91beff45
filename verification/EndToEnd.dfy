/** From the calls a program makes to the events of the merged trace. */
module EndToEnd {
  import opened Types
  import opened Codec
  import opened Dispatcher
  import opened Sort
  import opened Sequences
  import opened Traces
  import opened Protocol
  import opened RankInvariant
  import opened SystemInvariant
  import opened Safety
  import opened Progress

  // The calls whose wrappers have reached the point of registration, in the order in which they did.
  function CallsMade(steps: seq<Step>): seq<Call> {
    if steps == [] then []
    else CallsMade(Front(steps)) + CallOf(Last(steps))
  }

  function CallOf(step: Step): seq<Call> {
    if step.Return? || step.ReadFinalizeClock? then [step.call] else []
  }

  function EventOf(call: Call): Event {
    Dispatch(call)
  }

  function Stored(calls: seq<Call>): seq<Event> {
    Mapped(calls, EventOf)
  }

  // No registration failed and every rank file was written.
  predicate StepSucceeds(step: Step) {
    match step
    case Reserve(_, _, ok) => ok
    case ReserveFinalize(_, ok) => ok
    case OpenFile(_, ok) => ok
    case WriteFile(_, cut) => cut.None?
    case _ => true
  }

  predicate Successful(steps: seq<Step>) {
    forall i :: 0 <= i < |steps| ==> StepSucceeds(steps[i])
  }

  // No failure happened to this rank.
  predicate SuccessfulFor(steps: seq<Step>, r: nat) {
    forall i :: 0 <= i < |steps| && Target(steps[i]) == r ==> StepSucceeds(steps[i])
  }

  // ---------- how often an event is logged or about to be ----------

  function Times(e: Event, call: Call): nat {
    if Dispatch(call) == e then 1 else 0
  }

  function ThreadHolds(e: Event, t: Thread): nat {
    if t.Returned? || t.Locked? || t.Reserved? then Times(e, t.call) else 0
  }

  function ThreadsHold(e: Event, threads: seq<Thread>): seq<nat> {
    seq(|threads|, t requires 0 <= t < |threads| => ThreadHolds(e, threads[t]))
  }

  function MainHolds(e: Event, pc: Pc): nat {
    if pc.FinReturned? || pc.FinLocked? || pc.FinReserved? then Times(e, pc.call) else 0
  }

  function RankHolds(e: Event, k: Rank): nat {
    multiset(Events(k.log))[e] + Total(ThreadsHold(e, k.threads)) + MainHolds(e, k.pc)
  }

  function RanksHoldEvent(e: Event, ranks: seq<Rank>): seq<nat> {
    seq(|ranks|, r requires 0 <= r < |ranks| => RankHolds(e, ranks[r]))
  }

  lemma EventsAppend(log: seq<Entry>, x: Entry, e: Event)
    ensures multiset(Events(log + [x]))[e] == multiset(Events(log))[e] + Times(e, x.call)
  {
    assert Events(log + [x]) == Events(log) + [Dispatch(x.call)];
  }

  lemma ThreadMoves(e: Event, threads: seq<Thread>, t: nat, after: Thread)
    requires t < |threads|
    ensures Total(ThreadsHold(e, threads[t := after])) + ThreadHolds(e, threads[t])
            == Total(ThreadsHold(e, threads)) + ThreadHolds(e, after)
  {
    TotalUpdate(ThreadsHold(e, threads), t, ThreadHolds(e, after));
    assert ThreadsHold(e, threads[t := after]) == ThreadsHold(e, threads)[t := ThreadHolds(e, after)];
  }

  lemma RankMoves(e: Event, ranks: seq<Rank>, r: nat, k: Rank)
    requires r < |ranks|
    ensures Total(RanksHoldEvent(e, ranks[r := k])) + RankHolds(e, ranks[r])
            == Total(RanksHoldEvent(e, ranks)) + RankHolds(e, k)
  {
    TotalUpdate(RanksHoldEvent(e, ranks), r, RankHolds(e, k));
    assert RanksHoldEvent(e, ranks[r := k]) == RanksHoldEvent(e, ranks)[r := RankHolds(e, k)];
  }

  lemma ThreadStepHolds(cfg: Config, s: State, step: Step, e: Event)
    requires Enabled(cfg, s, step) && IsThreadStep(step) && StepSucceeds(step)
    requires LockOk(s.ranks[step.r]) && FoundOk(s.ranks[step.r])
    ensures RankHolds(e, RankAfter(cfg, s, step))
            == RankHolds(e, s.ranks[step.r]) + multiset(Stored(CallOf(step)))[e]
  {
    var k, k', t := s.ranks[step.r], RankAfter(cfg, s, step), step.t;
    ThreadStepEffect(cfg, s, step);
    LogAfter(cfg, s, step);
    ThreadMoves(e, k.threads, t, k'.threads[t]);
    StoredCall(step, e);
    if step.Push? {
      EventsAppend(k.log, Entry(t, k.threads[t].call), e);
    }
  }

  lemma StoredCall(step: Step, e: Event)
    ensures multiset(Stored(CallOf(step)))[e] ==
            if step.Return? || step.ReadFinalizeClock? then Times(e, step.call) else 0
  {
    if step.Return? || step.ReadFinalizeClock? {
      assert CallOf(step) == [step.call];
      assert Stored([step.call]) == [EventOf(step.call)];
    } else {
      assert Stored(CallOf(step)) == [];
    }
  }

  lemma MainStepMoves(cfg: Config, s: State, step: Step, e: Event)
    requires Enabled(cfg, s, step) && !IsThreadStep(step) && StepSucceeds(step)
    ensures var pc, pc' := s.ranks[Target(step)].pc, RankAfter(cfg, s, step).pc;
            MainHolds(e, pc') + (if step.PushFinalize? then Times(e, pc.call) else 0)
            == MainHolds(e, pc) + (if step.ReadFinalizeClock? then Times(e, step.call) else 0)
  {
    if IsGatherStep(step) {
      GatherStepRank(cfg, s, step);
    } else {
      PcStep(cfg, s, step);
    }
  }

  lemma MainStepHolds(cfg: Config, s: State, step: Step, e: Event)
    requires Enabled(cfg, s, step) && !IsThreadStep(step) && StepSucceeds(step)
    requires FoundOk(s.ranks[Target(step)])
    ensures RankHolds(e, RankAfter(cfg, s, step))
            == RankHolds(e, s.ranks[Target(step)]) + multiset(Stored(CallOf(step)))[e]
  {
    var k := s.ranks[Target(step)];
    StoredCall(step, e);
    LogAfter(cfg, s, step);
    MainStepThreads(cfg, s, step);
    MainStepMoves(cfg, s, step, e);
    if step.PushFinalize? {
      EventsAppend(k.log, Entry(MAIN, k.pc.call), e);
    }
  }

  lemma StepHolds(cfg: Config, s: State, step: Step, e: Event)
    requires Enabled(cfg, s, step) && StepSucceeds(step) && RanksOk(cfg, s)
    ensures Total(RanksHoldEvent(e, Apply(cfg, s, step).ranks))
            == Total(RanksHoldEvent(e, s.ranks)) + multiset(Stored(CallOf(step)))[e]
  {
    var r, k' := Target(step), RankAfter(cfg, s, step);
    assert LockOk(s.ranks[r]) && FoundOk(s.ranks[r]) by {
      assert RankOk(cfg, s.ranks[r], r);
    }
    if IsThreadStep(step) {
      ThreadStepHolds(cfg, s, step, e);
    } else {
      MainStepHolds(cfg, s, step, e);
    }
    RankMoves(e, s.ranks, r, k');
    assert Apply(cfg, s, step).ranks == s.ranks[r := k'];
  }

  lemma IdleHolds(e: Event, k: Rank)
    requires AllIdle(k) && (Phase(k.pc) <= 2 || Phase(k.pc) >= 5)
    ensures RankHolds(e, k) == multiset(Events(k.log))[e]
  {
    assert forall t :: 0 <= t < |k.threads| ==> ThreadsHold(e, k.threads)[t] == 0;
    assert Total(ThreadsHold(e, k.threads)) == 0 by {
      TotalZero(ThreadsHold(e, k.threads));
    }
    assert MainHolds(e, k.pc) == 0;
  }

  lemma NothingHeld(s: State, e: Event)
    requires Start(s)
    ensures Total(RanksHoldEvent(e, s.ranks)) == 0
  {
    forall r | 0 <= r < |s.ranks|
      ensures RankHolds(e, s.ranks[r]) == 0
    {
      IdleHolds(e, s.ranks[r]);
      assert Events(s.ranks[r].log) == [];
    }
    TotalZero(RanksHoldEvent(e, s.ranks));
  }

  lemma StoredAppend(a: seq<Call>, b: seq<Call>)
    ensures multiset(Stored(a + b)) == multiset(Stored(a)) + multiset(Stored(b))
  {
    MappedConcat(a, b, EventOf);
  }

  // At every moment of a run without failures, the calls made so far are those logged and those on their way.
  lemma {:induction false} CallsAccountedFor(cfg: Config, start: State, steps: seq<Step>, s: State, e: Event)
    requires Runs(cfg, start, steps, s) && Successful(steps)
    ensures multiset(Stored(CallsMade(steps)))[e] == Total(RanksHoldEvent(e, s.ranks))
    decreases |steps|
  {
    if steps == [] {
      NothingHeld(s, e);
    } else {
      var before := BeforeLast(cfg, start, steps, s);
      CallsAccountedFor(cfg, start, Front(steps), before, e);
      StepHolds(cfg, before, Last(steps), e);
      StoredAppend(CallsMade(Front(steps)), CallOf(Last(steps)));
    }
  }

  // ---------- the rank files ----------

  ghost predicate SavedOk(k: Rank) {
    Phase(k.pc) >= 7 ==> k.saved.Whole?
  }

  lemma SavedStep(cfg: Config, s: State, step: Step)
    requires Enabled(cfg, s, step) && StepSucceeds(step)
    requires SavedOk(s.ranks[Target(step)])
    ensures SavedOk(RankAfter(cfg, s, step))
  {
    var k, k' := s.ranks[Target(step)], RankAfter(cfg, s, step);
    if IsGatherStep(step) {
      GatherStepRank(cfg, s, step);
    } else {
      PcStep(cfg, s, step);
      if step.WriteFile? {
        assert k'.saved == Whole(k.log);
      } else {
        assert k'.saved == k.saved;
      }
    }
  }

  lemma {:induction false} SuccessfulSaves(cfg: Config, start: State, steps: seq<Step>, s: State, r: nat)
    requires Runs(cfg, start, steps, s) && SuccessfulFor(steps, r) && r < |s.ranks|
    ensures SavedOk(s.ranks[r])
    decreases |steps|
  {
    if steps != [] {
      var before := BeforeLast(cfg, start, steps, s);
      SuccessfulSaves(cfg, start, Front(steps), before, r);
      assert s.ranks == before.ranks[Target(Last(steps)) := RankAfter(cfg, before, Last(steps))];
      if r == Target(Last(steps)) {
        SavedStep(cfg, before, Last(steps));
      }
    }
  }

  // ---------- main results ----------

  // Whenever rank 0 is inside the collection the file of every rank that met no failure, and whose calls were over
  // before Finalize, reads back as that rank's entire log, Finalize last, and the rank is not writing.
  lemma SuccessfulGather(cfg: Config, start: State, steps: seq<Step>, s: State, r: nat)
    requires Runs(cfg, start, steps, s) && SuccessfulFor(steps, r)
    requires r < |s.ranks| && cfg.Quiet(r) && Phase(s.ranks[0].pc) >= 8
    ensures !s.ranks[r].pc.Opening? && !s.ranks[r].pc.Writing?
    ensures r < MAX_RANKS && RankFile(r) in s.files
    ensures ParseTrace(s.files[RankFile(r)]) == Some(Events(s.ranks[r].log)) && EndsWithFinalize(s.ranks[r].log)
  {
    GatherReadsFinishedFiles(cfg, start, steps, s, r);
    SuccessfulSaves(cfg, start, steps, s, r);
    assert HoldsLog(s.files, r, s.ranks[r], true);
  }

  lemma QuietAfterFinalize(cfg: Config, start: State, steps: seq<Step>, s: State, r: nat)
    requires Runs(cfg, start, steps, s) && r < |s.ranks| && cfg.Quiet(r) && !s.ranks[r].pc.Running?
    ensures AllIdle(s.ranks[r])
  {
    ReachableRank(cfg, start, steps, s, r);
  }

  // When rank 0 has written the merged trace, every rank is past its own file and nothing is on its way.
  lemma MergedAtEnd(cfg: Config, start: State, steps: seq<Step>, s: State, r: nat)
    requires Runs(cfg, start, steps, s) && s.merged.Some? && r < |s.ranks| && cfg.Quiet(r)
    ensures Phase(s.ranks[r].pc) >= 7 && AllIdle(s.ranks[r])
  {
    MergedMeansDone(cfg, start, steps, s);
    SecondBarrierPassed(cfg, start, steps, s, r);
    QuietAfterFinalize(cfg, start, steps, s, r);
  }

  // What the directory holds besides the files of these ranks can be read. The files of these ranks are written anew.
  ghost predicate RestReadable(files: Files, n: nat)
    requires n <= MAX_RANKS
  {
    forall name :: name in files && name !in RankNames(n) ==> Readable(files, name)
  }

  // A run without failures, from a directory that can be read, does write a merged trace.
  lemma MergedInTheEnd(cfg: Config, start: State, steps: seq<Step>, s: State)
    requires Runs(cfg, start, steps, s) && Successful(steps) && MergeSucceeds(steps)
    requires |s.ranks| <= MAX_RANKS && Finished(s) && RestReadable(start.files, |s.ranks|)
    ensures s.merged.Some?
  {
    assert |s.ranks| > 0 by {
      Reachable(cfg, start, steps, s);
    }
    forall r | 0 <= r < |s.ranks|
      ensures s.ranks[r].saved.Whole?
    {
      SuccessfulSaves(cfg, start, steps, s, r);
    }
    forall name
      ensures !Stuck(start.files, s, name)
    {
      if name in RankNames(|s.ranks|) {
        var r :| 0 <= r < |s.ranks| && RankNames(|s.ranks|)[r] == name;
      }
    }
    MergedExactly(cfg, start, steps, s);
  }

  lemma {:induction false} LeadsOn(cfg: Config, s: State, first: seq<Step>, mid: State, more: seq<Step>, s': State)
    requires Leads(cfg, s, first, mid) && Leads(cfg, mid, more, s')
    ensures Leads(cfg, s, first + more, s')
    decreases |more|
  {
    var all := first + more;
    if more == [] {
      assert all == first;
    } else {
      var before: State :| Leads(cfg, mid, Front(more), before) && Takes(cfg, before, Last(more), s');
      LeadsOn(cfg, s, first, mid, Front(more), before);
      assert Front(all) == first + Front(more) && Last(all) == Last(more);
    }
  }

  // And it comes to that: once all ranks are in Finalize, whatever order the steps are taken in, only so many can
  // follow, and when none is possible any more the merged trace is there.
  lemma FinalizeMerges(cfg: Config, start: State, first: seq<Step>, s: State, more: seq<Step>, s': State)
    requires Runs(cfg, start, first, s) && Finalizing(cfg, s) && Leads(cfg, s, more, s')
    requires Successful(first + more) && MergeSucceeds(first + more)
    requires |start.ranks| <= MAX_RANKS && RestReadable(start.files, |start.ranks|)
    ensures |s.ranks| > 0 && |more| <= Remaining(s)
    ensures (forall step :: !Enabled(AnyClock(cfg), s', step)) ==> s'.merged.Some?
  {
    FinalizeEnds(cfg, start, first, s, more, s');
    LeadsOn(cfg, start, first, s, more, s');
    assert |s'.ranks| == |start.ranks| by {
      Reachable(cfg, start, first + more, s');
    }
    if Finished(s') {
      MergedInTheEnd(cfg, start, first + more, s');
    }
  }

  // Every call made in a run without failures yields exactly one event of the merged trace: whatever the ranks, the
  // threads and the interleaving. The only other events are those of trace files that belong to none of the ranks.
  lemma EveryCallMergedOnce(cfg: Config, start: State, steps: seq<Step>, s: State, others: seq<string>)
    requires Runs(cfg, start, steps, s) && Successful(steps) && MergeSucceeds(steps)
    requires |s.ranks| <= MAX_RANKS && Finished(s) && AllQuiet(cfg, s)
    requires RestReadable(start.files, |s.ranks|) && OtherTraces(start.files, |s.ranks|, others)
    ensures s.merged.Some? && MERGED in s.files && ParseTrace(s.files[MERGED]) == s.merged
    ensures Sorted(s.merged.value, Tsc)
    ensures multiset(s.merged.value) ==
            multiset(Stored(CallsMade(steps))) + multiset(Collected(start.files, others))
  {
    MergedInTheEnd(cfg, start, steps, s);
    forall r | 0 <= r < |s.ranks|
      ensures s.ranks[r].saved.Whole? && Phase(s.ranks[r].pc) >= 7 && AllIdle(s.ranks[r])
    {
      MergedAtEnd(cfg, start, steps, s, r);
      SuccessfulSaves(cfg, start, steps, s, r);
    }
    MergedHasAllLogs(cfg, start, steps, s, others);
    assert multiset(Stored(CallsMade(steps))) == multiset(Flatten(Logs(s))) by {
      forall e: Event
        ensures multiset(Flatten(Logs(s)))[e] == multiset(Stored(CallsMade(steps)))[e]
      {
        CallsAccountedFor(cfg, start, steps, s, e);
        LoggedAtEnd(s, e);
      }
    }
  }

  lemma LoggedAtEnd(s: State, e: Event)
    requires forall r :: 0 <= r < |s.ranks| ==> Phase(s.ranks[r].pc) >= 7 && AllIdle(s.ranks[r])
    ensures Total(RanksHoldEvent(e, s.ranks)) == multiset(Flatten(Logs(s)))[e]
  {
    forall r | 0 <= r < |s.ranks|
      ensures RanksHoldEvent(e, s.ranks)[r] == multiset(Logs(s)[r])[e]
    {
      IdleHolds(e, s.ranks[r]);
    }
    FlattenTotal(Logs(s), RanksHoldEvent(e, s.ranks), e);
  }

  ghost predicate KeepsFields(c: Call, e: Event) {
    e.Kind() == c.kind && forall f :: f in Layout(c.kind) ==> Get(e, f) == CallField(c, f)
  }

  lemma FieldsKept(c: Call, e: Event)
    requires e == EventOf(c)
    ensures KeepsFields(c, e)
  {
    DispatchKind(c);
    forall f | f in Layout(c.kind)
      ensures Get(e, f) == CallField(c, f)
    {
      LayoutComplete(e, f);
      DispatchField(c, f);
    }
  }

  // So each call of the program is found in the merged trace, as an event of its kind whose every field has the
  // value it had in the call.
  lemma EveryCallFound(cfg: Config, start: State, steps: seq<Step>, s: State, i: nat) returns (j: nat)
    requires Runs(cfg, start, steps, s) && Successful(steps) && MergeSucceeds(steps)
    requires |s.ranks| <= MAX_RANKS && Finished(s) && AllQuiet(cfg, s)
    requires RestReadable(start.files, |s.ranks|) && i < |CallsMade(steps)|
    ensures s.merged.Some? && j < |s.merged.value|
    ensures KeepsFields(CallsMade(steps)[i], s.merged.value[j])
  {
    var others := OtherTracesListed(start.files, |s.ranks|);
    var e := Stored(CallsMade(steps))[i];
    EveryCallMergedOnce(cfg, start, steps, s, others);
    assert e in s.merged.value by {
      assert e in multiset(Stored(CallsMade(steps)));
      assert e in multiset(s.merged.value);
    }
    j :| 0 <= j < |s.merged.value| && s.merged.value[j] == e;
    FieldsKept(CallsMade(steps)[i], e);
  }
}
