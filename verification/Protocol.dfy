/** The whole of a traced MPI program as a state machine: any number of ranks, each with any number of threads that
    register calls in the rank's log, the collective MPI_Finalize, and the collection of the traces by rank 0.
    A run is a sequence of labelled steps in any interleaving. */
module Protocol {
  import opened Types
  import opened Json
  import opened Codec
  import opened Dispatcher
  import opened Sort
  import opened Traces
  import opened TraceDirectory

  // What is assumed of the program and of the clocks, rank by rank; nothing is, when the sets are empty and shared
  // is false.
  //  - quiet: the rank's MPI calls have all returned when it calls MPI_Finalize (section 8.7 of MPI 3.1)
  //  - serial: the rank's calls never overlap, MPI_Finalize included (thread levels below MPI_THREAD_MULTIPLE,
  //    section 12.4)
  //  - steady: the rank's clock increases between two readings and does not wrap around
  //  - shared: all ranks read one such clock
  datatype Config = Config(readable: bool, quiet: set<nat>, serial: set<nat>, steady: set<nat>, shared: bool) {
    predicate Quiet(r: nat) {
      r in quiet || r in serial
    }

    predicate Steady(r: nat) {
      r in steady || shared
    }
  }

  // The same program on clocks of which nothing is known.
  function AnyClock(cfg: Config): Config {
    cfg.(steady := {}, shared := false)
  }

  type Call = c: MpiCall | Storable(c) witness MpiCall(Init, "0", 0, 0, 0, 0, 0, 0, 0, 0, 0, 0, 0, 0, false)

  // A log entry, with the thread that made it.
  datatype Entry = Entry(tid: nat, call: Call) {
    function Event(): Event {
      Dispatch(call)
    }
  }

  // Registration is two steps under the lock: reserving, which finds the log as it is, and pushing, which puts it
  // back with the new entry. In between the thread relies on the log as it found it.
  datatype Thread =
    | Idle
    | InCall(since: Uint64)
    | Returned(call: Call)
    | Locked(call: Call)
    | Reserved(call: Call, found: seq<Entry>)

  const MAIN: nat := 0

  // Where the main thread of a rank is in MPI_Finalize.
  datatype Pc =
    | Running
    | AtBarrier1
    | PastBarrier1
    | FinReturned(call: Call)
    | FinLocked(call: Call)
    | FinReserved(call: Call, found: seq<Entry>)
    | Opening
    | Writing
    | AtBarrier2
    | Gathering(todo: set<string>, seen: seq<string>, events: seq<Event>)
    | OpeningMerged(sorted: seq<Event>)
    | WritingMerged(sorted: seq<Event>)
    | Done
    | Panicked

  function Phase(pc: Pc): nat {
    match pc
    case Running => 0
    case AtBarrier1 => 1
    case PastBarrier1 => 2
    case FinReturned(_) => 3
    case FinLocked(_) => 4
    case FinReserved(_, _) => 4
    case Opening => 5
    case Writing => 6
    case AtBarrier2 => 7
    case Gathering(_, _, _) => 8
    case OpeningMerged(_) => 9
    case WritingMerged(_) => 10
    case Done => 11
    case Panicked => 11
  }

  // What became of the rank's file: not opened, written with the log as it stood, or cut short.
  datatype Saved = Unwritten | Whole(log: seq<Entry>) | Part(log: seq<Entry>, length: nat)

  // The field saved only records what happened.
  datatype Rank = Rank(
    pc: Pc,
    threads: seq<Thread>,
    lock: Option<nat>,
    log: seq<Entry>,
    clock: nat,
    saved: Saved)

  // listed is the directory as it was when rank 0 began to read it; merged is the merged trace, once written.
  datatype State = State(ranks: seq<Rank>, files: Files, listed: Files, merged: Option<seq<Event>>)

  function Events(log: seq<Entry>): seq<Event> {
    seq(|log|, i requires 0 <= i < |log| => log[i].Event())
  }

  datatype Step =
    | Begin(r: nat, t: nat, now: nat)
    | Return(r: nat, t: nat, now: nat, call: Call)
    | Lock(r: nat, t: nat)
    | Reserve(r: nat, t: nat, ok: bool)
    | Push(r: nat, t: nat)
    | EnterFinalize(r: nat)
    | LeaveBarrier1(r: nat)
    | ReadFinalizeClock(r: nat, now: nat, call: Call)
    | LockFinalize(r: nat)
    | ReserveFinalize(r: nat, ok: bool)
    | PushFinalize(r: nat)
    | OpenFile(r: nat, ok: bool)
    | WriteFile(r: nat, cut: Option<nat>)
    | LeaveBarrier2(r: nat)
    | ReadOne(name: string)
    | SortEvents(m: seq<Event>)
    | OpenMerged(ok: bool)
    | WriteMerged(cut: Option<nat>)

  function Target(step: Step): nat {
    match step
    case ReadOne(_) => 0
    case SortEvents(_) => 0
    case OpenMerged(_) => 0
    case WriteMerged(_) => 0
    case _ => step.r
  }

  // ---------- when a step can happen ----------

  ghost predicate ReadsClock(cfg: Config, s: State, r: nat, now: nat)
    requires r < |s.ranks|
  {
    && now < TWO_64
    && (r in cfg.steady ==> s.ranks[r].clock < now)
    && (cfg.shared ==> forall q :: 0 <= q < |s.ranks| ==> s.ranks[q].clock < now)
  }

  predicate AllIdle(k: Rank) {
    forall t :: 0 <= t < |k.threads| ==> k.threads[t].Idle?
  }

  // The record a wrapper builds: Init reads the clock once, after the call, every other one before and after it.
  predicate Records(call: Call, r: nat, since: nat, now: nat) {
    && call.currentRank == r
    && call.kind != Finalize
    && if call.kind == Init || call.kind == Initthread then call.tsc == now && call.duration == 0
       else call.tsc == since && call.duration == (now - since) % TWO_64
  }

  // MPI 3.1, section 5.3: nobody leaves a barrier before everybody has entered it.
  ghost predicate AllReached(s: State, phase: nat) {
    forall q :: 0 <= q < |s.ranks| ==> Phase(s.ranks[q].pc) >= phase
  }

  ghost predicate Enabled(cfg: Config, s: State, step: Step) {
    && Target(step) < |s.ranks|
    && var k := s.ranks[Target(step)];
       match step
       case Begin(r, t, now) =>
         && t < |k.threads| && k.threads[t].Idle? && ReadsClock(cfg, s, r, now)
         && (t == MAIN || cfg.Quiet(r) ==> k.pc.Running?)
         && (r in cfg.serial ==> AllIdle(k))
       case Return(r, t, now, call) =>
         && t < |k.threads| && k.threads[t].InCall? && ReadsClock(cfg, s, r, now)
         && Records(call, r, k.threads[t].since, now)
       case Lock(r, t) => t < |k.threads| && k.threads[t].Returned? && k.lock.None?
       case Reserve(r, t, ok) => t < |k.threads| && k.threads[t].Locked?
       case Push(r, t) => t < |k.threads| && k.threads[t].Reserved?
       case EnterFinalize(r) =>
         k.pc.Running? && |k.threads| > MAIN && k.threads[MAIN].Idle? && (cfg.Quiet(r) ==> AllIdle(k))
       case LeaveBarrier1(r) => k.pc.AtBarrier1? && AllReached(s, 1)
       case ReadFinalizeClock(r, now, call) =>
         && k.pc.PastBarrier1? && ReadsClock(cfg, s, r, now)
         && call.kind == Finalize && call.currentRank == r && call.tsc == now && call.duration == 0
       case LockFinalize(r) => k.pc.FinReturned? && k.lock.None?
       case ReserveFinalize(r, ok) => k.pc.FinLocked?
       case PushFinalize(r) => k.pc.FinReserved?
       case OpenFile(r, ok) => k.pc.Opening?
       case WriteFile(r, cut) => k.pc.Writing?
       case LeaveBarrier2(r) => k.pc.AtBarrier2? && AllReached(s, 7)
       case ReadOne(name) => k.pc.Gathering? && name in k.pc.todo && name in s.files
       case SortEvents(m) =>
         k.pc.Gathering? && k.pc.todo == {} && Sorted(m, Tsc) && multiset(m) == multiset(k.pc.events)
       case OpenMerged(ok) => k.pc.OpeningMerged?
       case WriteMerged(cut) => k.pc.WritingMerged?
  }

  // ---------- what it does ----------

  // A reservation may fail: the error is reported and the lock given back. A push replaces the log by what was found
  // with one more entry.
  function RankAfter(cfg: Config, s: State, step: Step): Rank
    requires Target(step) < |s.ranks|
  {
    var k := s.ranks[Target(step)];
    match step
    case Begin(r, t, now) =>
      if t < |k.threads| && now < TWO_64 then k.(threads := k.threads[t := InCall(now)], clock := now) else k
    case Return(r, t, now, call) =>
      if t < |k.threads| then k.(threads := k.threads[t := Returned(call)], clock := now) else k
    case Lock(r, t) =>
      if t < |k.threads| && k.threads[t].Returned? then
        k.(threads := k.threads[t := Locked(k.threads[t].call)], lock := Some(t))
      else k
    case Reserve(r, t, ok) =>
      if t < |k.threads| && k.threads[t].Locked? then
        if ok then k.(threads := k.threads[t := Reserved(k.threads[t].call, k.log)])
        else k.(threads := k.threads[t := Idle], lock := None)
      else k
    case Push(r, t) =>
      if t < |k.threads| && k.threads[t].Reserved? then
        k.(threads := k.threads[t := Idle], lock := None,
           log := k.threads[t].found + [Entry(t, k.threads[t].call)])
      else k
    case EnterFinalize(r) => k.(pc := AtBarrier1)
    case LeaveBarrier1(r) => k.(pc := PastBarrier1)
    case ReadFinalizeClock(r, now, call) => k.(pc := FinReturned(call), clock := now)
    case LockFinalize(r) => if k.pc.FinReturned? then k.(pc := FinLocked(k.pc.call), lock := Some(MAIN)) else k
    case ReserveFinalize(r, ok) =>
      if !ok then k.(pc := AtBarrier2, lock := None)
      else if k.pc.FinLocked? then k.(pc := FinReserved(k.pc.call, k.log))
      else k
    case PushFinalize(r) =>
      if k.pc.FinReserved? then k.(pc := Opening, log := k.pc.found + [Entry(MAIN, k.pc.call)]) else k
    case OpenFile(r, ok) => if ok then k.(pc := Writing) else k.(pc := AtBarrier2, lock := None)
    case WriteFile(r, cut) => k.(pc := AtBarrier2, lock := None, saved := SavedAs(k.log, cut))
    case LeaveBarrier2(r) => k.(pc := if r == 0 then Gathering(s.files.Keys, [], []) else Done)
    case ReadOne(name) =>
      if k.pc.Gathering? && name in s.files then
        match ReadEntry(Gather(s.files, k.pc.events), name)
        case None => k.(pc := Panicked)
        case Some(g) => k.(pc := Gathering(k.pc.todo - {name}, k.pc.seen + [name], g.events))
      else k
    case SortEvents(m) => k.(pc := OpeningMerged(m))
    case OpenMerged(ok) =>
      if !ok then k.(pc := Done) else if k.pc.OpeningMerged? then k.(pc := WritingMerged(k.pc.sorted)) else k
    case WriteMerged(cut) => k.(pc := Done)
  }

  function FateOf(cut: Option<nat>): Fate {
    match cut
    case None => Succeeds
    case Some(k) => WriteStops(k)
  }

  function SavedAs(log: seq<Entry>, cut: Option<nat>): Saved {
    match cut
    case None => Whole(log)
    case Some(n) => Part(log, n)
  }

  // Opening a file truncates it; the text is written in a separate step, which may stop half-way.
  function FilesAfter(cfg: Config, s: State, step: Step): Files
    requires Target(step) < |s.ranks| <= MAX_RANKS
  {
    var k := s.ranks[Target(step)];
    match step
    case OpenFile(r, ok) => if ok then s.files[RankFile(r) := ""] else s.files
    case WriteFile(r, cut) => Written(s.files, RankFile(r), TraceText(Events(k.log), Compact), FateOf(cut))
    case ReadOne(name) =>
      if k.pc.Gathering? && name in s.files then
        match ReadEntry(Gather(s.files, k.pc.events), name)
        case None => s.files
        case Some(g) => g.files
      else s.files
    case OpenMerged(ok) => if ok then s.files[MERGED := ""] else s.files
    case WriteMerged(cut) =>
      if k.pc.WritingMerged? then
        Written(s.files, MERGED, TraceText(k.pc.sorted, StyleFor(cfg.readable)), FateOf(cut))
      else s.files
    case _ => s.files
  }

  function Apply(cfg: Config, s: State, step: Step): State
    requires Target(step) < |s.ranks| <= MAX_RANKS
  {
    var k := s.ranks[Target(step)];
    State(s.ranks[Target(step) := RankAfter(cfg, s, step)],
          FilesAfter(cfg, s, step),
          if step.LeaveBarrier2? && step.r == 0 then s.files else s.listed,
          if step.WriteMerged? && step.cut.None? && k.pc.WritingMerged? then Some(k.pc.sorted) else s.merged)
  }

  ghost predicate Start(s: State) {
    && 1 <= |s.ranks| <= MAX_RANKS
    && s.merged.None?
    && forall r :: 0 <= r < |s.ranks| ==>
         var k := s.ranks[r];
         k.pc.Running? && AllIdle(k) && |k.threads| > MAIN && k.lock.None? && k.log == [] && k.saved.Unwritten?
  }

  ghost predicate Takes(cfg: Config, s: State, step: Step, s': State) {
    |s.ranks| <= MAX_RANKS && Enabled(cfg, s, step) && s' == Apply(cfg, s, step)
  }

  function Front(steps: seq<Step>): seq<Step>
    requires steps != []
  {
    steps[..|steps| - 1]
  }

  function Last(steps: seq<Step>): Step
    requires steps != []
  {
    steps[|steps| - 1]
  }

  // The steps lead from the first state to the second.
  ghost predicate Leads(cfg: Config, s: State, steps: seq<Step>, s': State)
    decreases |steps|
  {
    if steps == [] then s' == s
    else exists before: State :: Leads(cfg, s, Front(steps), before) && Takes(cfg, before, Last(steps), s')
  }

  // A run: the steps taken from a start.
  ghost predicate Runs(cfg: Config, start: State, steps: seq<Step>, s: State) {
    Start(start) && Leads(cfg, start, steps, s)
  }

  ghost predicate AllQuiet(cfg: Config, s: State) {
    forall r :: 0 <= r < |s.ranks| ==> cfg.Quiet(r)
  }
}
