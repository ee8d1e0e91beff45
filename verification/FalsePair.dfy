/** A run whose log shows a pair of a start and a completion that do not belong together. */
module FalsePair {
  import opened Types
  import opened Sequences
  import opened Requests
  import opened Protocol
  import opened RankInvariant
  import opened Interleaving
  import opened MissingRecords
  import opened MergedRequests
  import W = Wrappers
  import P = Pairing

  // ---------- building a run of one rank with one thread ----------

  const ALONE := Config(false, {}, {0}, {0}, false)

  function At(t: Thread, lock: Option<nat>, clock: nat, log: seq<Entry>): State {
    State([Rank(Running, [t], lock, log, clock, Unwritten)], map[], map[], None)
  }

  function Between(clock: nat, log: seq<Entry>): State {
    At(Idle, None, clock, log)
  }

  // What the run has recorded so far: all the calls, and where among them the ones kept are.
  ghost predicate Ran(steps: seq<Step>, s: State, calls: seq<Call>, at: seq<int>) {
    Runs(ALONE, Between(0, []), steps, s) && RankCalls(steps, 0) == calls && KeptAt(steps, 0) == at
  }

  lemma Extend(steps: seq<Step>, s: State, calls: seq<Call>, at: seq<int>, step: Step, s': State)
    requires Ran(steps, s, calls, at) && IsThreadStep(step) && step.r == 0 && Takes(ALONE, s, step, s')
    ensures var move := MoveOf(step);
            Ran(steps + [step], s',
                if move.Made? then calls + [move.call] else calls,
                if move.Made? then at + [|calls|] else if move.Dropped? && at != [] then at[..|at| - 1] else at)
  {
    var longer := steps + [step];
    assert Front(longer) == steps && Last(longer) == step;
    assert Leads(ALONE, Between(0, []), longer, s');
  }

  // Such a run steps from one state to another if its thread can and does.
  lemma Steps(step: Step, t: Thread, lock: Option<nat>, clock: nat, log: seq<Entry>,
              t': Thread, lock': Option<nat>, clock': nat, log': seq<Entry>)
    requires IsThreadStep(step) && step.r == 0 && Enabled(ALONE, At(t, lock, clock, log), step)
    requires RankAfter(ALONE, At(t, lock, clock, log), step)
             == Rank(Running, [t][0 := t'], lock', log', clock', Unwritten)
    ensures Takes(ALONE, At(t, lock, clock, log), step, At(t', lock', clock', log'))
  {
    var s, s' := At(t, lock, clock, log), At(t', lock', clock', log');
    assert [t][0 := t'] == [t'];
    assert s.ranks[0 := s'.ranks[0]] == s'.ranks;
  }

  lemma Enters(clock: nat, log: seq<Entry>, since: nat)
    requires clock < since < TWO_64
    ensures Takes(ALONE, Between(clock, log), Begin(0, 0, since), At(InCall(since), None, since, log))
  {
    Steps(Begin(0, 0, since), Idle, None, clock, log, InCall(since), None, since, log);
  }

  lemma Returns(log: seq<Entry>, since: nat, now: nat, call: Call)
    requires since < now < TWO_64 && Records(call, 0, since, now)
    ensures Takes(ALONE, At(InCall(since), None, since, log), Return(0, 0, now, call),
                  At(Returned(call), None, now, log))
  {
    Steps(Return(0, 0, now, call), InCall(since), None, since, log, Returned(call), None, now, log);
  }

  lemma Locks(clock: nat, log: seq<Entry>, call: Call)
    ensures Takes(ALONE, At(Returned(call), None, clock, log), Lock(0, 0), At(Locked(call), Some(0), clock, log))
  {
    Steps(Lock(0, 0), Returned(call), None, clock, log, Locked(call), Some(0), clock, log);
  }

  lemma Reserves(clock: nat, log: seq<Entry>, call: Call)
    ensures Takes(ALONE, At(Locked(call), Some(0), clock, log), Reserve(0, 0, true),
                  At(Reserved(call, log), Some(0), clock, log))
    ensures Takes(ALONE, At(Locked(call), Some(0), clock, log), Reserve(0, 0, false), Between(clock, log))
  {
    Steps(Reserve(0, 0, true), Locked(call), Some(0), clock, log, Reserved(call, log), Some(0), clock, log);
    Steps(Reserve(0, 0, false), Locked(call), Some(0), clock, log, Idle, None, clock, log);
  }

  lemma Pushes(clock: nat, log: seq<Entry>, call: Call)
    ensures Takes(ALONE, At(Reserved(call, log), Some(0), clock, log), Push(0, 0),
                  Between(clock, log + [Entry(0, call)]))
  {
    Steps(Push(0, 0), Reserved(call, log), Some(0), clock, log, Idle, None, clock, log + [Entry(0, call)]);
  }

  // One more call, whose reservation succeeds or not.
  lemma RecordCall(steps: seq<Step>, clock: nat, log: seq<Entry>, calls: seq<Call>, at: seq<int>,
                   call: Call, since: nat, now: nat, ok: bool) returns (steps': seq<Step>)
    requires Ran(steps, Between(clock, log), calls, at)
    requires clock < since < now < TWO_64 && Records(call, 0, since, now)
    ensures Ran(steps', Between(now, if ok then log + [Entry(0, call)] else log), calls + [call],
                if ok then at + [|calls|] else at)
  {
    var calls', at' := calls + [call], at + [|calls|];
    Enters(clock, log, since);
    Extend(steps, Between(clock, log), calls, at, Begin(0, 0, since), At(InCall(since), None, since, log));
    steps' := steps + [Begin(0, 0, since)];
    Returns(log, since, now, call);
    Extend(steps', At(InCall(since), None, since, log), calls, at, Return(0, 0, now, call),
           At(Returned(call), None, now, log));
    steps' := steps' + [Return(0, 0, now, call)];
    Locks(now, log, call);
    Extend(steps', At(Returned(call), None, now, log), calls', at', Lock(0, 0), At(Locked(call), Some(0), now, log));
    steps' := steps' + [Lock(0, 0)];
    Reserves(now, log, call);
    if ok {
      Extend(steps', At(Locked(call), Some(0), now, log), calls', at', Reserve(0, 0, true),
             At(Reserved(call, log), Some(0), now, log));
      steps' := steps' + [Reserve(0, 0, true)];
      Pushes(now, log, call);
      Extend(steps', At(Reserved(call, log), Some(0), now, log), calls', at', Push(0, 0),
             Between(now, log + [Entry(0, call)]));
      steps' := steps' + [Push(0, 0)];
    } else {
      Extend(steps', At(Locked(call), Some(0), now, log), calls', at', Reserve(0, 0, false), Between(now, log));
      steps' := steps' + [Reserve(0, 0, false)];
      assert at'[..|at'| - 1] == at;
    }
  }

  // ---------- the calls ----------

  // What the process has done so far, and what was recorded of it.
  ghost predicate Did(nullReq: Int32, actions: seq<W.Action>, w: W.World, u: P.Truth) {
    P.Behaves(nullReq, [nullReq], actions, w, u)
  }

  lemma Act(nullReq: Int32, actions: seq<W.Action>, w: W.World, u: P.Truth, a: W.Action)
    requires Did(nullReq, actions, w, u) && P.Lawful(nullReq, w, u, a)
    ensures Did(nullReq, actions + [a], W.After(nullReq, w, a), P.TruthAfter(nullReq, w, u, a))
  {
    var longer := actions + [a];
    assert P.Front(longer) == actions && P.Last(longer) == a;
    assert P.Acts(nullReq, w, u, a, W.After(nullReq, w, a), P.TruthAfter(nullReq, w, u, a));
  }

  const INIT: Call := W.BLANK.(currentRank := 0, tsc := 2)

  function Started(h: Int32, since: Uint64): Call {
    W.BLANK.(kind := Ibarrier, currentRank := 0, tsc := since, duration := 1, comm := 0, req := h)
  }

  function Waited(h: Int32, since: Uint64): Call {
    W.BLANK.(kind := Wait, currentRank := 0, tsc := since, duration := 1, req := h)
  }

  lemma Initialises(nullReq: Int32) returns (actions: seq<W.Action>)
    ensures Did(nullReq, actions, W.World(0, [nullReq], [INIT]), P.Truth(map[], {}, 2))
  {
    assert Did(nullReq, [], W.World(-1, [nullReq], []), P.Truth(map[], {}, 0));
    Act(nullReq, [], W.World(-1, [nullReq], []), P.Truth(map[], {}, 0), W.Enter(Init, 0, -1, -1, W.UNTIMED, 2));
    actions := [] + [W.Enter(Init, 0, -1, -1, W.UNTIMED, 2)];
  }

  lemma BarrierStarts(nullReq: Int32, h: Int32, actions: seq<W.Action>, calls: seq<MpiCall>, done: set<(int, int)>,
                      clock: int, since: Uint64) returns (actions': seq<W.Action>)
    requires Did(nullReq, actions, W.World(0, [nullReq], calls), P.Truth(map[], done, clock))
    requires h != nullReq && clock < since < 100
    ensures Did(nullReq, actions', W.World(0, [h], calls + [Started(h, since)]),
                P.Truth(map[h := |calls|], done, since + 1))
  {
    var a := W.Begin(Ibarrier, -1, 0, 0, -1, 0, -1, 0, h, since, since + 1);
    assert [nullReq][0 := h] == [h];
    Act(nullReq, actions, W.World(0, [nullReq], calls), P.Truth(map[], done, clock), a);
    actions' := actions + [a];
  }

  lemma BarrierEnds(nullReq: Int32, h: Int32, actions: seq<W.Action>, calls: seq<MpiCall>, done: set<(int, int)>,
                    i: int, clock: int, since: Uint64) returns (actions': seq<W.Action>)
    requires Did(nullReq, actions, W.World(0, [h], calls), P.Truth(map[h := i], done, clock))
    requires h != nullReq && clock < since < 100
    ensures Did(nullReq, actions', W.World(0, [nullReq], calls + [Waited(h, since)]),
                P.Truth(map[], done + {(i, |calls|)}, since + 1))
  {
    var a := W.WaitFor(0, since, since + 1);
    assert [h][0 := nullReq] == [nullReq] && map[h := i] - {h} == map[];
    Act(nullReq, actions, W.World(0, [h], calls), P.Truth(map[h := i], done, clock), a);
    actions' := actions + [a];
  }

  // A barrier is started and waited for. It may be given the handle of an earlier one.
  lemma Barrier(nullReq: Int32, h: Int32, actions: seq<W.Action>, calls: seq<MpiCall>, done: set<(int, int)>,
                clock: int, since: Uint64) returns (actions': seq<W.Action>)
    requires Did(nullReq, actions, W.World(0, [nullReq], calls), P.Truth(map[], done, clock))
    requires h != nullReq && clock < since < 50
    ensures Did(nullReq, actions', W.World(0, [nullReq], calls + [Started(h, since)] + [Waited(h, since + 2)]),
                P.Truth(map[], done + {(|calls|, |calls| + 1)}, since + 3))
  {
    actions' := BarrierStarts(nullReq, h, actions, calls, done, clock, since);
    actions' := BarrierEnds(nullReq, h, actions', calls + [Started(h, since)], done, |calls|, since + 1, since + 2);
  }

  // Two barriers with one handle; nothing is reserved for the end of the first and the start of the second.
  function Calls(h: Int32): seq<Call> {
    [INIT, Started(h, 3), Waited(h, 5), Started(h, 7), Waited(h, 9)]
  }

  function LogLeft(h: Int32): seq<Entry> {
    [Entry(MAIN, INIT), Entry(MAIN, Started(h, 3)), Entry(MAIN, Waited(h, 9))]
  }

  lemma Parts(h: Int32)
    ensures LogLeft(h)[..2] == [Entry(MAIN, INIT)] + [Entry(MAIN, Started(h, 3))]
    ensures LogLeft(h) == LogLeft(h)[..2] + [Entry(MAIN, Waited(h, 9))]
    ensures Calls(h)[..2] == [INIT] + [Started(h, 3)] && Calls(h)[..3] == Calls(h)[..2] + [Waited(h, 5)]
    ensures Calls(h)[..4] == Calls(h)[..3] + [Started(h, 7)] && Calls(h) == Calls(h)[..4] + [Waited(h, 9)]
    ensures [0] + [1] == [0, 1] && [0, 1] + [4] == [0, 1, 4]
  {
  }

  lemma NothingYet()
    ensures Ran([], Between(0, []), [], [])
  {
  }

  lemma RecordedInit() returns (steps: seq<Step>)
    ensures Ran(steps, Between(2, [Entry(MAIN, INIT)]), [INIT], [0])
  {
    NothingYet();
    steps := RecordCall([], 0, [], [], [], INIT, 1, 2, true);
    assert [] + [Entry(MAIN, INIT)] == [Entry(MAIN, INIT)] && [] + [INIT] == [INIT] && [] + [0] == [0];
  }

  lemma RecordedBefore(h: Int32) returns (steps: seq<Step>)
    ensures Ran(steps, Between(4, LogLeft(h)[..2]), Calls(h)[..2], [0, 1])
  {
    steps := RecordedInit();
    steps := RecordCall(steps, 2, [Entry(MAIN, INIT)], [INIT], [0], Started(h, 3), 3, 4, true);
    Parts(h);
  }

  lemma Unrecorded(h: Int32) returns (steps: seq<Step>)
    ensures Ran(steps, Between(8, LogLeft(h)[..2]), Calls(h)[..4], [0, 1])
  {
    steps := RecordedBefore(h);
    steps := RecordCall(steps, 4, LogLeft(h)[..2], Calls(h)[..2], [0, 1], Waited(h, 5), 5, 6, false);
    Parts(h);
    steps := RecordCall(steps, 6, LogLeft(h)[..2], Calls(h)[..3], [0, 1], Started(h, 7), 7, 8, false);
  }

  lemma Recorded(h: Int32) returns (steps: seq<Step>)
    ensures Ran(steps, Between(10, LogLeft(h)), Calls(h), [0, 1, 4])
  {
    steps := Unrecorded(h);
    steps := RecordCall(steps, 8, LogLeft(h)[..2], Calls(h)[..4], [0, 1], Waited(h, 9), 9, 10, true);
    Parts(h);
  }

  lemma HappenedBefore(nullReq: Int32, h: Int32) returns (actions: seq<W.Action>)
    requires h != nullReq
    ensures Did(nullReq, actions, W.World(0, [nullReq], Calls(h)[..3]), P.Truth(map[], {(1, 2)}, 6))
  {
    actions := Initialises(nullReq);
    actions := Barrier(nullReq, h, actions, [INIT], {}, 2, 3);
    Parts(h);
    assert {} + {(1, 2)} == {(1, 2)};
  }

  lemma Happened(nullReq: Int32, h: Int32) returns (actions: seq<W.Action>, w: W.World, u: P.Truth)
    requires h != nullReq
    ensures Did(nullReq, actions, w, u) && w.calls == Calls(h) && u.done == {(1, 2), (3, 4)}
  {
    actions := HappenedBefore(nullReq, h);
    actions := Barrier(nullReq, h, actions, Calls(h)[..3], {(1, 2)}, 6, 7);
    w := W.World(0, [nullReq], Calls(h)[..3] + [Started(h, 7)] + [Waited(h, 9)]);
    u := P.Truth(map[], {(1, 2)} + {(3, 4)}, 10);
    Parts(h);
  }

  lemma RolesLeft(h: Int32)
    ensures EventRoles(Events(LogLeft(h))) == [Unrelated, Starts(h), Completes(h)]
  {
    RolesKept(LogLeft(h));
    assert P.Roles(CallsIn(LogLeft(h))) == [Unrelated, Starts(h), Completes(h)];
  }

  lemma PairInOrder(roles: seq<Role>, h: Int32, g: Int32)
    requires Stage(Filter(roles, OnHandle(g))) == Some(false)
    ensures Stage(Filter(roles + [Starts(h)] + [Completes(h)], OnHandle(g))) == Some(false)
  {
    StageAfter(roles, Starts(h), g);
    StageAfter(roles + [Starts(h)], Completes(h), g);
  }

  lemma InOrder(h: Int32, g: Int32)
    ensures Stage(Filter([Unrelated, Starts(h), Completes(h)], OnHandle(g))) == Some(false)
  {
    assert Filter([Unrelated], OnHandle(g)) == [];
    PairInOrder([Unrelated], h, g);
    assert [Unrelated] + [Starts(h)] + [Completes(h)] == [Unrelated, Starts(h), Completes(h)];
  }

  lemma Seen(nullReq: Int32, h: Int32, done: set<(int, int)>)
    requires h != nullReq && done == {(1, 2), (3, 4)}
    ensures var shown := [Unrelated, Starts(h), Completes(h)];
            && ShowsFalsePair(shown, [0, 1, 4], done, nullReq)
            && forall g: Int32 :: Stage(Filter(shown, OnHandle(g))) == Some(false)
  {
    var shown, at := [Unrelated, Starts(h), Completes(h)], [0, 1, 4];
    assert at[1] == 1 && at[2] == 4 && Paired(shown, 1, 2, nullReq);
    assert Shows(shown, at, 1, 4, nullReq);
    forall g: Int32
      ensures Stage(Filter(shown, OnHandle(g))) == Some(false)
    {
      InOrder(h, g);
    }
  }

  lemma Left(h: Int32) returns (steps: seq<Step>, s: State)
    ensures Runs(ALONE, Between(0, []), steps, s) && |s.ranks| == 1 && RankCalls(steps, 0) == Calls(h)
    ensures s.ranks[0].log == LogLeft(h) && LoggedAt(steps, s.ranks[0], 0) == [0, 1, 4]
  {
    steps := Recorded(h);
    s := Between(10, LogLeft(h));
  }

  // The records left show a start and a completion as a pair that do not belong together.
  ghost predicate ShowsFalsePair(shown: seq<Role>, at: seq<int>, done: set<(int, int)>, nullReq: Int32) {
    |shown| == |at| && exists i, j :: Shows(shown, at, i, j, nullReq) && (i, j) !in done
  }

  // And yet nothing gives it away: on every handle the records alternate as they should. Two records between the two
  // are missing.
  lemma FalsePair(nullReq: Int32, h: Int32) returns (cfg: Config, start: State, steps: seq<Step>, s: State,
      actions: seq<W.Action>, w: W.World, u: P.Truth)
    requires h != nullReq
    ensures Runs(cfg, start, steps, s) && |s.ranks| == 1 && 0 in cfg.serial && cfg.Steady(0)
    ensures P.Behaves(nullReq, [nullReq], actions, w, u) && w.calls == RankCalls(steps, 0)
    ensures var shown, at := EventRoles(Events(s.ranks[0].log)), LoggedAt(steps, s.ranks[0], 0);
            && ShowsFalsePair(shown, at, u.done, nullReq)
            && forall g: Int32 :: Stage(Filter(shown, OnHandle(g))) == Some(false)
  {
    cfg, start := ALONE, Between(0, []);
    steps, s := Left(h);
    actions, w, u := Happened(nullReq, h);
    RolesLeft(h);
    Seen(nullReq, h, u.done);
  }
}
