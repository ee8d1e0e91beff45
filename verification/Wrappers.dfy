/** The C wrappers of one process: what each traced MPI call records, and what the records say about the requests
    and the times of the calls. */
module Wrappers {
  import opened Types
  import opened Json
  import opened Codec
  import opened Dispatcher
  import opened Log
  import opened Traces
  import opened TraceDirectory
  import opened Requests

  const UNTIMED: Usecs := "-1.0"

  // An MPI_Op as far as the wrapper of MPI_Ireduce tells operators apart.
  datatype Operator = Predefined(op: MpiOp) | NoOp | UserDefined

  // The enumerators count from zero in the order of their declaration.
  function Code(o: MpiOp): Int8 {
    match o
    case Opnull => 0
    case Max => 1
    case Min => 2
    case Sum => 3
    case Prod => 4
    case Land => 5
    case Band => 6
    case Lor => 7
    case Bor => 8
    case Lxor => 9
    case Bxor => 10
    case Minloc => 11
    case Maxloc => 12
    case Replace => 13
  }

  function OpCode(op: Operator): Int8 {
    match op
    case Predefined(o) => Code(o)
    case NoOp => Code(Opnull)
    case UserDefined => -1
  }

  const OPERATORS := [Opnull, Max, Min, Sum, Prod, Land, Band, Lor, Bor, Lxor, Bxor, Minloc, Maxloc, Replace]

  // A code is read as the operator at its place in the declaration, and there are no others.
  lemma CodesInOrder(o: MpiOp, code: Int8)
    ensures 0 <= Code(o) < 14 && OPERATORS[Code(o)] == o
    ensures OpOf(code) == if 0 <= code < 14 then Some(OPERATORS[code]) else None
  {
  }

  // The operator that is stored: the one passed, except that MPI_NO_OP cannot be told from MPI_OP_NULL afterwards
  // and a user-defined operator has no code that could be stored.
  lemma OperatorStored(op: Operator, o: MpiOp)
    ensures OpOf(OpCode(op)) == Some(o) <==> op == Predefined(o) || (op == NoOp && o == Opnull)
  {
  }

  lemma OperatorHasCode(op: Operator)
    ensures OpOf(OpCode(op)).Some? <==> op != UserDefined
  {
    match op
    case Predefined(o) => OperatorStored(op, o);
    case NoOp => OperatorStored(op, Opnull);
    case UserDefined =>
  }

  // The difference of two readings of the 64-bit counter, as the wrappers compute it.
  function Elapsed(t0: Uint64, t1: Uint64): Uint64 {
    (t1 - t0) % TWO_64
  }

  lemma ElapsedExact(t0: Uint64, t1: Uint64)
    ensures Elapsed(t0, t1) == t1 - t0 <==> t0 <= t1
    ensures (t0 + Elapsed(t0, t1)) % 0x1_0000_0000_0000_0000 == t1
  {
  }

  // A traced call, with what MPI and the clocks answer to it; or an assignment to a request variable.
  datatype Action =
    | Enter(kind: MpiCallType, rank: Int32, required: Int32, provided: Int32, time: Usecs, now: Uint64)
    | Leave(time: Usecs, now: Uint64)
    | Block(kind: MpiCallType, partner: Int32, sent: Uint32, received: Uint32, comm: Int32, tag: Int32,
            t0: Uint64, t1: Uint64)
    | Begin(kind: MpiCallType, partner: Int32, sent: Uint32, received: Uint32, op: Int8, comm: Int32, tag: Int32,
            slot: nat, handle: Int32, t0: Uint64, t1: Uint64)
    | TestOnce(slot: nat, flag: bool, t0: Uint64, t1: Uint64)
    | WaitFor(slot: nat, t0: Uint64, t1: Uint64)
    | Assign(slot: nat, handle: Int32)

  // The process: its rank as the wrappers know it, the request variables of the program, and the calls recorded.
  datatype World = World(rank: Int32, requests: seq<Int32>, calls: seq<MpiCall>)

  predicate SlotExists(w: World, a: Action) {
    a.Begin? || a.TestOnce? || a.WaitFor? || a.Assign? ==> a.slot < |w.requests|
  }

  // What the call really does to the requests. MPI looks at the handle in the variable when the call is made.
  function Meaning(w: World, a: Action): Role
    requires SlotExists(w, a)
  {
    match a
    case Begin(_, _, _, _, _, _, _, _, handle, _, _) => Starts(handle)
    case TestOnce(slot, flag, _, _) => if flag then Completes(w.requests[slot]) else Polls(w.requests[slot])
    case WaitFor(slot, _, _) => Completes(w.requests[slot])
    case _ => Unrelated
  }

  // A completed request's variable is reset.
  function RequestsAfter(nullReq: Int32, w: World, a: Action): seq<Int32>
    requires SlotExists(w, a)
  {
    match a
    case Begin(_, _, _, _, _, _, _, slot, handle, _, _) => w.requests[slot := handle]
    case TestOnce(slot, flag, _, _) => if flag then w.requests[slot := nullReq] else w.requests
    case WaitFor(slot, _, _) => w.requests[slot := nullReq]
    case Assign(slot, handle) => w.requests[slot := handle]
    case _ => w.requests
  }

  function RankAfterwards(w: World, a: Action): Int32 {
    if a.Enter? then a.rank else w.rank
  }

  const BLANK := MpiCall(Init, UNTIMED, 0, 0, -1, -1, 0, 0, -1, -1, -1, -1, -1, -1, false)

  // The records: a start is recorded with the handle found in its variable afterwards, a completion with the one
  // found there before.
  function Record(nullReq: Int32, w: World, a: Action): seq<MpiCall>
    requires SlotExists(w, a)
  {
    var blank := BLANK.(currentRank := RankAfterwards(w, a));
    match a
    case Enter(kind, _, required, provided, time, now) =>
      if kind == Initthread then
        [blank.(kind := kind, time := time, tsc := now, requiredThreadLvl := required, providedThreadLvl := provided)]
      else [blank.(kind := kind, time := time, tsc := now)]
    case Leave(time, now) => [blank.(kind := Finalize, time := time, tsc := now)]
    case Block(kind, partner, sent, received, comm, tag, t0, t1) =>
      [blank.(kind := kind, tsc := t0, duration := Elapsed(t0, t1), partnerRank := partner, nbBytesS := sent,
              nbBytesR := received, comm := comm, tag := tag)]
    case Begin(kind, partner, sent, received, op, comm, tag, slot, _, t0, t1) =>
      [blank.(kind := kind, tsc := t0, duration := Elapsed(t0, t1), partnerRank := partner, nbBytesS := sent,
              nbBytesR := received, opType := op, comm := comm, tag := tag,
              req := RequestsAfter(nullReq, w, a)[slot])]
    case TestOnce(slot, flag, t0, t1) =>
      [blank.(kind := Test, tsc := t0, duration := Elapsed(t0, t1), req := w.requests[slot], finished := flag)]
    case WaitFor(slot, t0, t1) =>
      [blank.(kind := Wait, tsc := t0, duration := Elapsed(t0, t1), req := w.requests[slot])]
    case Assign(_, _) => []
  }

  function After(nullReq: Int32, w: World, a: Action): World
    requires SlotExists(w, a)
  {
    World(RankAfterwards(w, a), RequestsAfter(nullReq, w, a), w.calls + Record(nullReq, w, a))
  }

  // ---------- the imperative wrappers ----------

  // The latest call was stored as an event, if its registration succeeded.
  ghost predicate Logged(before: seq<Event>, after: seq<Event>, calls: seq<MpiCall>, outcome: Outcome) {
    if outcome == Registered then
      calls != [] && Storable(calls[|calls| - 1]) && after == before + [Dispatch(calls[|calls| - 1])]
    else after == before
  }

  class Process {
    const nullReq: Int32
    var currentRank: Int32
    const requests: array<Int32>
    const log: TraceLog
    const dir: TraceDir
    ghost var calls: seq<MpiCall>

    constructor (nullReq: Int32, variables: array<Int32>)
      ensures this.nullReq == nullReq && requests == variables && fresh(log) && fresh(log.data) && fresh(dir)
      ensures log.Valid() && log.Contents() == [] && GetWorld() == World(-1, variables[..], [])
    {
      this.nullReq := nullReq;
      currentRank := -1;
      requests := variables;
      log := new TraceLog();
      dir := new TraceDir();
      calls := [];
    }

    ghost function GetWorld(): World
      reads this, requests
    {
      World(currentRank, requests[..], calls)
    }

    // The log can be used further, unless the process has ended.
    ghost predicate LogOk(outcome: Outcome)
      reads log
    {
      log.len <= log.data.Length && (outcome != Aborted ==> log.Valid())
    }

    method Store(e: Event, grows: bool, boxes: bool, fate: Fate) returns (outcome: Outcome)
      requires log.Valid()
      modifies log, log.data, dir
      ensures LogOk(outcome) && (log.data == old(log.data) || fresh(log.data))
      ensures log.Contents() == if outcome == Registered then old(log.Contents()) + [e] else old(log.Contents())
      ensures outcome == OutcomeOf(old(log.GetShape()), grows, boxes)
      ensures dir.files ==
              if e.MpiFinalize? && outcome == Registered then
                Written(old(dir.files), RankFile(e.currentRank), TraceText(log.Contents(), Compact), fate)
              else old(dir.files)
    {
      if e.MpiFinalize? {
        outcome := dir.RegisterFinalize(log, e, grows, boxes, fate);
      } else {
        outcome := log.Register(e, grows, boxes);
      }
    }

    // register_mpi_call: an error is reported and otherwise ignored.
    method RegisterMpiCall(call: MpiCall, grows: bool, boxes: bool, fate: Fate) returns (outcome: Outcome)
      requires log.Valid() && Storable(call)
      modifies `calls, log, log.data, dir
      ensures LogOk(outcome) && (log.data == old(log.data) || fresh(log.data))
      ensures calls == old(calls) + [call]
      ensures Logged(old(log.Contents()), log.Contents(), calls, outcome)
      ensures outcome == OutcomeOf(old(log.GetShape()), grows, boxes)
      ensures dir.files ==
              if call.kind == Finalize && outcome == Registered then
                Written(old(dir.files), RankFile(call.currentRank), TraceText(log.Contents(), Compact), fate)
              else old(dir.files)
    {
      var e := Dispatch(call);
      assert (e.MpiFinalize? <==> call.kind == Finalize) && e.currentRank == call.currentRank by {
        DispatchTimes(call);
        FinalizeStored(call);
      }
      calls := calls + [call];
      outcome := Store(e, grows, boxes, fate);
    }

    // PMPI_Isend and the like store the new handle in the caller's variable.
    method StartRequest(slot: nat, handle: Int32)
      requires slot < requests.Length
      modifies requests
      ensures requests[..] == old(requests[..])[slot := handle]
    {
      requests[slot] := handle;
    }

    // PMPI_Test and PMPI_Wait reset it when the request is over.
    method CompleteRequest(slot: nat, over: bool)
      requires slot < requests.Length
      modifies requests
      ensures requests[..] == if over then old(requests[..])[slot := nullReq] else old(requests[..])
    {
      if over {
        requests[slot] := nullReq;
      }
    }

    method MpiInit(rank: Int32, time: Usecs, now: Uint64, grows: bool, boxes: bool)
      returns (outcome: Outcome)
      requires log.Valid()
      modifies `currentRank, `calls, log, log.data, dir
      ensures LogOk(outcome) && (log.data == old(log.data) || fresh(log.data))
      ensures GetWorld() == After(nullReq, old(GetWorld()), Enter(Init, rank, -1, -1, time, now))
      ensures Logged(old(log.Contents()), log.Contents(), calls, outcome)
      ensures outcome == Registered ==> log.Contents() == old(log.Contents()) + [Event.MpiInit(rank, now, time)]
      ensures dir.files == old(dir.files)
      ensures outcome == OutcomeOf(old(log.GetShape()), grows, boxes)
    {
      var tsc := now;
      currentRank := rank;
      var init := MpiCall(Init, time, tsc, 0, currentRank, -1, 0, 0, -1, -1, -1, -1, -1, -1, false);
      outcome := RegisterMpiCall(init, grows, boxes, Succeeds);
    }

    method MpiInitThread(rank: Int32, required: Int32, provided: Int32, time: Usecs, now: Uint64, grows: bool,
        boxes: bool)
      returns (outcome: Outcome)
      requires log.Valid()
      modifies `currentRank, `calls, log, log.data, dir
      ensures LogOk(outcome) && (log.data == old(log.data) || fresh(log.data))
      ensures GetWorld() == After(nullReq, old(GetWorld()), Enter(Initthread, rank, required, provided, time, now))
      ensures Logged(old(log.Contents()), log.Contents(), calls, outcome)
      ensures outcome == Registered ==>
                log.Contents() == old(log.Contents()) +
                    [Event.MpiInitThread(rank, required, provided, now, time)]
      ensures dir.files == old(dir.files)
      ensures outcome == OutcomeOf(old(log.GetShape()), grows, boxes)
    {
      var tsc := now;
      currentRank := rank;
      var initthread := MpiCall(Initthread, time, tsc, 0, currentRank, -1, 0, 0, -1, -1, -1, required, provided, -1,
          false);
      outcome := RegisterMpiCall(initthread, grows, boxes, Succeeds);
    }

    // Meanwhile the other ranks have written their files; then everybody goes on.
    method SecondBarrier(others: Files)
      modifies dir
      ensures dir.files == old(dir.files) + others
    {
      dir.files := dir.files + others;
    }

    // The rank's own file is written between the barriers; behind the second one rank 0 collects the traces, with
    // those that the other ranks have written by then.
    method MpiFinalize(time: Usecs, now: Uint64, grows: bool, boxes: bool, fate: Fate, others: Files, readable: bool,
        mergedFate: Fate)
      returns (outcome: Outcome, panicked: bool, ghost merged: seq<Event>)
      requires log.Valid() && RankFile(currentRank) !in others
      modifies `calls, log, log.data, dir
      ensures LogOk(outcome) && (log.data == old(log.data) || fresh(log.data))
      ensures GetWorld() == After(nullReq, old(GetWorld()), Leave(time, now))
      ensures Logged(old(log.Contents()), log.Contents(), calls, outcome)
      ensures outcome == Registered ==>
                log.Contents() == old(log.Contents()) + [Event.MpiFinalize(currentRank, now, time)]
      ensures outcome == OutcomeOf(old(log.GetShape()), grows, boxes)
      ensures outcome == Aborted ==> dir.files == old(dir.files)
      ensures outcome != Aborted ==>
                var text := TraceText(log.Contents(), Compact);
                var own := if outcome == Registered then Written(old(dir.files), RankFile(currentRank), text, fate)
                           else old(dir.files);
                GoesOn(own + others, readable, mergedFate, panicked, merged)
    {
      var tsc := now;
      var finalize := MpiCall(Finalize, time, tsc, 0, currentRank, -1, 0, 0, -1, -1, -1, -1, -1, -1, false);
      outcome := RegisterMpiCall(finalize, grows, boxes, fate);
      panicked, merged := false, [];
      if outcome != Aborted {
        SecondBarrier(others);
        if currentRank == 0 {
          panicked, merged := dir.SortAllTraces(readable, mergedFate);
        }
      }
    }

    // What the rank does with the directory it finds behind the second barrier.
    ghost predicate GoesOn(found: Files, readable: bool, fate: Fate, panicked: bool, merged: seq<Event>)
      reads `currentRank, dir
    {
      if currentRank != 0 then dir.files == found && !panicked
      else
        && (panicked <==> !AllReadable(found))
        && (panicked ==> dir.files == found || dir.files == found - {MERGED})
        && (!panicked ==>
              IsMerge(found, merged)
              && dir.files == Written(found - {MERGED}, MERGED, TraceText(merged, StyleFor(readable)), fate))
    }

    method MpiSend(bytes: Uint32, dest: Int32, tag: Int32, comm: Int32, t0: Uint64, t1: Uint64, grows: bool,
        boxes: bool)
      returns (outcome: Outcome)
      requires log.Valid()
      modifies `calls, log, log.data, dir
      ensures LogOk(outcome) && (log.data == old(log.data) || fresh(log.data))
      ensures GetWorld() == After(nullReq, old(GetWorld()), Block(Send, dest, bytes, 0, comm, tag, t0, t1))
      ensures Logged(old(log.Contents()), log.Contents(), calls, outcome)
      ensures outcome == Registered ==>
                log.Contents() == old(log.Contents()) +
                    [Event.MpiSend(currentRank, dest, bytes, comm, tag, t0, Elapsed(t0, t1))]
      ensures dir.files == old(dir.files)
      ensures outcome == OutcomeOf(old(log.GetShape()), grows, boxes)
    {
      var duration := Elapsed(t0, t1);
      var send := MpiCall(Send, UNTIMED, t0, duration, currentRank, dest, bytes, 0, comm, -1, tag, -1, -1, -1, false);
      outcome := RegisterMpiCall(send, grows, boxes, Succeeds);
    }

    method MpiRecv(bytes: Uint32, source: Int32, tag: Int32, comm: Int32, t0: Uint64, t1: Uint64, grows: bool,
        boxes: bool)
      returns (outcome: Outcome)
      requires log.Valid()
      modifies `calls, log, log.data, dir
      ensures LogOk(outcome) && (log.data == old(log.data) || fresh(log.data))
      ensures GetWorld() == After(nullReq, old(GetWorld()), Block(Recv, source, 0, bytes, comm, tag, t0, t1))
      ensures Logged(old(log.Contents()), log.Contents(), calls, outcome)
      ensures outcome == Registered ==>
                log.Contents() == old(log.Contents()) +
                    [Event.MpiRecv(currentRank, source, bytes, comm, tag, t0, Elapsed(t0, t1))]
      ensures dir.files == old(dir.files)
      ensures outcome == OutcomeOf(old(log.GetShape()), grows, boxes)
    {
      var duration := Elapsed(t0, t1);
      var recv := MpiCall(Recv, UNTIMED, t0, duration, currentRank, source, 0, bytes, comm, -1, tag, -1, -1, -1, false);
      outcome := RegisterMpiCall(recv, grows, boxes, Succeeds);
    }

    method MpiIsend(bytes: Uint32, dest: Int32, tag: Int32, comm: Int32, slot: nat, handle: Int32, t0: Uint64,
        t1: Uint64, grows: bool, boxes: bool)
      returns (outcome: Outcome)
      requires log.Valid() && slot < requests.Length
      modifies requests, `calls, log, log.data, dir
      ensures LogOk(outcome) && (log.data == old(log.data) || fresh(log.data))
      ensures GetWorld() == After(nullReq, old(GetWorld()), Begin(Isend, dest, bytes, 0, -1, comm, tag, slot,
          handle, t0, t1))
      ensures Logged(old(log.Contents()), log.Contents(), calls, outcome)
      ensures outcome == Registered ==>
                log.Contents() == old(log.Contents()) +
                    [Event.MpiIsend(currentRank, dest, bytes, comm, handle, tag, t0, Elapsed(t0, t1))]
      ensures dir.files == old(dir.files)
      ensures outcome == OutcomeOf(old(log.GetShape()), grows, boxes)
    {
      ghost var w := GetWorld();
      StartRequest(slot, handle);
      var duration := Elapsed(t0, t1);
      var isend := MpiCall(Isend, UNTIMED, t0, duration, currentRank, dest, bytes, 0, comm, requests[slot], tag, -1,
          -1, -1, false);
      assert After(nullReq, w, Begin(Isend, dest, bytes, 0, -1, comm, tag, slot, handle, t0, t1))
             == World(currentRank, requests[..], w.calls + [isend]);
      outcome := RegisterMpiCall(isend, grows, boxes, Succeeds);
    }

    method MpiIrecv(bytes: Uint32, source: Int32, tag: Int32, comm: Int32, slot: nat, handle: Int32, t0: Uint64,
        t1: Uint64, grows: bool, boxes: bool)
      returns (outcome: Outcome)
      requires log.Valid() && slot < requests.Length
      modifies requests, `calls, log, log.data, dir
      ensures LogOk(outcome) && (log.data == old(log.data) || fresh(log.data))
      ensures GetWorld() == After(nullReq, old(GetWorld()), Begin(Irecv, source, 0, bytes, -1, comm, tag, slot,
          handle, t0, t1))
      ensures Logged(old(log.Contents()), log.Contents(), calls, outcome)
      ensures outcome == Registered ==>
                log.Contents() == old(log.Contents()) +
                    [Event.MpiIrecv(currentRank, source, bytes, comm, handle, tag, t0, Elapsed(t0, t1))]
      ensures dir.files == old(dir.files)
      ensures outcome == OutcomeOf(old(log.GetShape()), grows, boxes)
    {
      ghost var w := GetWorld();
      StartRequest(slot, handle);
      var duration := Elapsed(t0, t1);
      var irecv := MpiCall(Irecv, UNTIMED, t0, duration, currentRank, source, 0, bytes, comm, requests[slot], tag,
          -1, -1, -1, false);
      assert After(nullReq, w, Begin(Irecv, source, 0, bytes, -1, comm, tag, slot, handle, t0, t1))
             == World(currentRank, requests[..], w.calls + [irecv]);
      outcome := RegisterMpiCall(irecv, grows, boxes, Succeeds);
    }

    method MpiBarrier(comm: Int32, t0: Uint64, t1: Uint64, grows: bool, boxes: bool)
      returns (outcome: Outcome)
      requires log.Valid()
      modifies `calls, log, log.data, dir
      ensures LogOk(outcome) && (log.data == old(log.data) || fresh(log.data))
      ensures GetWorld() == After(nullReq, old(GetWorld()), Block(Barrier, -1, 0, 0, comm, -1, t0, t1))
      ensures Logged(old(log.Contents()), log.Contents(), calls, outcome)
      ensures outcome == Registered ==>
                log.Contents() == old(log.Contents()) +
                    [Event.MpiBarrier(currentRank, comm, t0, Elapsed(t0, t1))]
      ensures dir.files == old(dir.files)
      ensures outcome == OutcomeOf(old(log.GetShape()), grows, boxes)
    {
      var duration := Elapsed(t0, t1);
      var barrier := MpiCall(Barrier, UNTIMED, t0, duration, currentRank, -1, 0, 0, comm, -1, -1, -1, -1, -1, false);
      outcome := RegisterMpiCall(barrier, grows, boxes, Succeeds);
    }

    method MpiIbarrier(comm: Int32, slot: nat, handle: Int32, t0: Uint64, t1: Uint64, grows: bool, boxes: bool)
      returns (outcome: Outcome)
      requires log.Valid() && slot < requests.Length
      modifies requests, `calls, log, log.data, dir
      ensures LogOk(outcome) && (log.data == old(log.data) || fresh(log.data))
      ensures GetWorld() == After(nullReq, old(GetWorld()), Begin(Ibarrier, -1, 0, 0, -1, comm, -1, slot, handle,
          t0, t1))
      ensures Logged(old(log.Contents()), log.Contents(), calls, outcome)
      ensures outcome == Registered ==>
                log.Contents() == old(log.Contents()) +
                    [Event.MpiIbarrier(currentRank, comm, handle, t0, Elapsed(t0, t1))]
      ensures dir.files == old(dir.files)
      ensures outcome == OutcomeOf(old(log.GetShape()), grows, boxes)
    {
      ghost var w := GetWorld();
      StartRequest(slot, handle);
      var duration := Elapsed(t0, t1);
      var ibarrier := MpiCall(Ibarrier, UNTIMED, t0, duration, currentRank, -1, 0, 0, comm, requests[slot], -1, -1,
          -1, -1, false);
      assert After(nullReq, w, Begin(Ibarrier, -1, 0, 0, -1, comm, -1, slot, handle, t0, t1))
             == World(currentRank, requests[..], w.calls + [ibarrier]);
      outcome := RegisterMpiCall(ibarrier, grows, boxes, Succeeds);
    }

    method MpiTest(slot: nat, flag: bool, t0: Uint64, t1: Uint64, grows: bool, boxes: bool)
      returns (outcome: Outcome)
      requires log.Valid() && slot < requests.Length
      modifies requests, `calls, log, log.data, dir
      ensures LogOk(outcome) && (log.data == old(log.data) || fresh(log.data))
      ensures GetWorld() == After(nullReq, old(GetWorld()), TestOnce(slot, flag, t0, t1))
      ensures Logged(old(log.Contents()), log.Contents(), calls, outcome)
      ensures outcome == Registered ==>
                log.Contents() == old(log.Contents()) +
                    [Event.MpiTest(currentRank, old(requests[slot]), flag, t0, Elapsed(t0, t1))]
      ensures dir.files == old(dir.files)
      ensures outcome == OutcomeOf(old(log.GetShape()), grows, boxes)
    {
      ghost var w := GetWorld();
      var req := requests[slot];
      CompleteRequest(slot, flag);
      var duration := Elapsed(t0, t1);
      var test := MpiCall(Test, UNTIMED, t0, duration, currentRank, -1, 0, 0, -1, req, -1, -1, -1, -1, flag);
      assert After(nullReq, w, TestOnce(slot, flag, t0, t1)) == World(currentRank, requests[..], w.calls + [test]);
      outcome := RegisterMpiCall(test, grows, boxes, Succeeds);
    }

    method MpiWait(slot: nat, t0: Uint64, t1: Uint64, grows: bool, boxes: bool)
      returns (outcome: Outcome)
      requires log.Valid() && slot < requests.Length
      modifies requests, `calls, log, log.data, dir
      ensures LogOk(outcome) && (log.data == old(log.data) || fresh(log.data))
      ensures GetWorld() == After(nullReq, old(GetWorld()), WaitFor(slot, t0, t1))
      ensures Logged(old(log.Contents()), log.Contents(), calls, outcome)
      ensures outcome == Registered ==>
                log.Contents() == old(log.Contents()) +
                    [Event.MpiWait(currentRank, old(requests[slot]), t0, Elapsed(t0, t1))]
      ensures dir.files == old(dir.files)
      ensures outcome == OutcomeOf(old(log.GetShape()), grows, boxes)
    {
      ghost var w := GetWorld();
      var req := requests[slot];
      CompleteRequest(slot, true);
      var duration := Elapsed(t0, t1);
      var wait := MpiCall(Wait, UNTIMED, t0, duration, currentRank, -1, 0, 0, -1, req, -1, -1, -1, -1, false);
      assert After(nullReq, w, WaitFor(slot, t0, t1)) == World(currentRank, requests[..], w.calls + [wait]);
      outcome := RegisterMpiCall(wait, grows, boxes, Succeeds);
    }

    method MpiIbcast(bytes: Uint32, root: Int32, comm: Int32, slot: nat, handle: Int32, t0: Uint64, t1: Uint64,
        grows: bool, boxes: bool)
      returns (outcome: Outcome)
      requires log.Valid() && slot < requests.Length
      modifies requests, `calls, log, log.data, dir
      ensures LogOk(outcome) && (log.data == old(log.data) || fresh(log.data))
      ensures GetWorld() == After(nullReq, old(GetWorld()), Begin(Ibcast, root, bytes, 0, -1, comm, -1, slot,
          handle, t0, t1))
      ensures Logged(old(log.Contents()), log.Contents(), calls, outcome)
      ensures outcome == Registered ==>
                log.Contents() == old(log.Contents()) +
                    [Event.MpiIbcast(currentRank, root, bytes, comm, handle, t0, Elapsed(t0, t1))]
      ensures dir.files == old(dir.files)
      ensures outcome == OutcomeOf(old(log.GetShape()), grows, boxes)
    {
      ghost var w := GetWorld();
      StartRequest(slot, handle);
      var duration := Elapsed(t0, t1);
      var ibcast := MpiCall(Ibcast, UNTIMED, t0, duration, currentRank, root, bytes, 0, comm, requests[slot], -1,
          -1, -1, -1, false);
      assert After(nullReq, w, Begin(Ibcast, root, bytes, 0, -1, comm, -1, slot, handle, t0, t1))
             == World(currentRank, requests[..], w.calls + [ibcast]);
      outcome := RegisterMpiCall(ibcast, grows, boxes, Succeeds);
    }

    method MpiIgather(bytesSent: Uint32, bytesReceived: Uint32, root: Int32, comm: Int32, slot: nat, handle: Int32,
        t0: Uint64, t1: Uint64, grows: bool, boxes: bool)
      returns (outcome: Outcome)
      requires log.Valid() && slot < requests.Length
      modifies requests, `calls, log, log.data, dir
      ensures LogOk(outcome) && (log.data == old(log.data) || fresh(log.data))
      ensures GetWorld() == After(nullReq, old(GetWorld()), Begin(Igather, root, bytesSent, bytesReceived, -1, comm,
          -1, slot, handle, t0, t1))
      ensures Logged(old(log.Contents()), log.Contents(), calls, outcome)
      ensures outcome == Registered ==>
                log.Contents() == old(log.Contents()) +
                    [Event.MpiIgather(currentRank, root, bytesSent, bytesReceived, comm, handle, t0, Elapsed(t0, t1))]
      ensures dir.files == old(dir.files)
      ensures outcome == OutcomeOf(old(log.GetShape()), grows, boxes)
    {
      ghost var w := GetWorld();
      StartRequest(slot, handle);
      var duration := Elapsed(t0, t1);
      var igather := MpiCall(Igather, UNTIMED, t0, duration, currentRank, root, bytesSent, bytesReceived, comm,
          requests[slot], -1, -1, -1, -1, false);
      assert After(nullReq, w, Begin(Igather, root, bytesSent, bytesReceived, -1, comm, -1, slot, handle, t0, t1))
             == World(currentRank, requests[..], w.calls + [igather]);
      outcome := RegisterMpiCall(igather, grows, boxes, Succeeds);
    }

    method MpiIscatter(bytesSent: Uint32, bytesReceived: Uint32, root: Int32, comm: Int32, slot: nat, handle: Int32,
        t0: Uint64, t1: Uint64, grows: bool, boxes: bool)
      returns (outcome: Outcome)
      requires log.Valid() && slot < requests.Length
      modifies requests, `calls, log, log.data, dir
      ensures LogOk(outcome) && (log.data == old(log.data) || fresh(log.data))
      ensures GetWorld() == After(nullReq, old(GetWorld()), Begin(Iscatter, root, bytesSent, bytesReceived, -1,
          comm, -1, slot, handle, t0, t1))
      ensures Logged(old(log.Contents()), log.Contents(), calls, outcome)
      ensures outcome == Registered ==>
                log.Contents() == old(log.Contents()) +
                    [Event.MpiIscatter(currentRank, root, bytesSent, bytesReceived, comm, handle, t0, Elapsed(t0, t1))]
      ensures dir.files == old(dir.files)
      ensures outcome == OutcomeOf(old(log.GetShape()), grows, boxes)
    {
      ghost var w := GetWorld();
      StartRequest(slot, handle);
      var duration := Elapsed(t0, t1);
      var iscatter := MpiCall(Iscatter, UNTIMED, t0, duration, currentRank, root, bytesSent, bytesReceived, comm,
          requests[slot], -1, -1, -1, -1, false);
      assert After(nullReq, w, Begin(Iscatter, root, bytesSent, bytesReceived, -1, comm, -1, slot, handle, t0, t1))
             == World(currentRank, requests[..], w.calls + [iscatter]);
      outcome := RegisterMpiCall(iscatter, grows, boxes, Succeeds);
    }

    // The record for a user-defined operator is no value of the type it is handed over as, so nothing is promised of
    // the log then.
    method MpiIreduce(typeSize: Uint32, bytes: Uint32, op: Operator, root: Int32, comm: Int32, slot: nat,
        handle: Int32, t0: Uint64, t1: Uint64, grows: bool, boxes: bool)
      returns (outcome: Outcome)
      requires log.Valid() && slot < requests.Length
      modifies requests, `calls, log, log.data, dir
      ensures GetWorld() == After(nullReq, old(GetWorld()),
                                  Begin(Ireduce, root, typeSize, bytes, OpCode(op), comm, -1, slot, handle, t0, t1))
      ensures calls != [] && (Storable(calls[|calls| - 1]) <==> op != UserDefined)
      ensures op != UserDefined ==>
                && LogOk(outcome) && (log.data == old(log.data) || fresh(log.data))
                && Logged(old(log.Contents()), log.Contents(), calls, outcome)
                && outcome == OutcomeOf(old(log.GetShape()), grows, boxes)
                && dir.files == old(dir.files)
      ensures op != UserDefined && outcome == Registered ==>
                var o := match op case Predefined(p) => p case NoOp => Opnull;
                log.Contents() == old(log.Contents()) +
                    [Event.MpiIreduce(currentRank, root, typeSize, o, comm, handle, t0, Elapsed(t0, t1))]
    {
      ghost var w := GetWorld();
      StartRequest(slot, handle);
      var duration := Elapsed(t0, t1);
      var opType := OpCode(op);
      OperatorHasCode(op);
      var ireduce := MpiCall(Ireduce, UNTIMED, t0, duration, currentRank, root, typeSize, bytes, comm,
                             requests[slot], -1, -1, -1, opType, false);
      assert After(nullReq, w, Begin(Ireduce, root, typeSize, bytes, OpCode(op), comm, -1, slot, handle, t0, t1))
             == World(currentRank, requests[..], w.calls + [ireduce]);
      if op == UserDefined {
        calls := calls + [ireduce];
        outcome := *;
      } else {
        OperatorStored(op, match op case Predefined(p) => p case NoOp => Opnull);
        outcome := RegisterMpiCall(ireduce, grows, boxes, Succeeds);
      }
    }
  }
}
