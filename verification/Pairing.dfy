/** What the calls recorded by one process, one call at a time, tell about its requests and its time. */
module Pairing {
  import opened Types
  import opened Sequences
  import opened Requests
  import opened Wrappers

  // What MPI and the clock know: for each active handle the position among the records of the start that returned it,
  // the starts and completions that really belong together, and the time.
  datatype Truth = Truth(owner: map<Int32, int>, done: set<(int, int)>, clock: int)

  function TruthAfter(nullReq: Int32, w: World, u: Truth, a: Action): Truth
    requires SlotExists(w, a)
  {
    var here := |w.calls|;
    var u' := u.(clock := ClockAfter(u.clock, a));
    match Meaning(w, a)
    case Starts(h) => if h == nullReq then u' else u'.(owner := u.owner[h := here])
    case Completes(h) =>
      if h == nullReq || h !in u.owner then u'
      else u'.(owner := u.owner - {h}, done := u.done + {(u.owner[h], here)})
    case _ => u'
  }

  function ClockAfter(clock: int, a: Action): int {
    match a
    case Enter(_, _, _, _, _, now) => now
    case Leave(_, now) => now
    case Assign(_, _) => clock
    case _ => a.t1
  }

  predicate TimesInOrder(clock: int, a: Action) {
    match a
    case Enter(_, _, _, _, _, now) => clock <= now
    case Leave(_, now) => clock <= now
    case Assign(_, _) => true
    case _ => clock <= a.t0 <= a.t1
  }

  // Sections 3.7.2 and 3.7.3 of MPI 3.1: a start never returns a handle that is still active, and only null and
  // active handles are tested or waited for; the program may do with its variables what it likes otherwise.
  // The clock does not go backwards and does not wrap around.
  predicate Lawful(nullReq: Int32, w: World, u: Truth, a: Action) {
    && SlotExists(w, a)
    && TimesInOrder(u.clock, a)
    && match a
       case Enter(kind, _, _, _, _, _) => kind == Init || kind == Initthread
       case Block(kind, _, _, _, _, _, _, _) => kind == Send || kind == Recv || kind == Barrier
       case Begin(kind, _, _, _, _, _, _, _, handle, _, _) => IsStart(kind) && handle !in u.owner
       case TestOnce(slot, _, _, _) => w.requests[slot] == nullReq || w.requests[slot] in u.owner
       case WaitFor(slot, _, _) => w.requests[slot] == nullReq || w.requests[slot] in u.owner
       case _ => true
  }

  // One action that MPI allows, and what becomes of the process and of the truth about it.
  ghost predicate Acts(nullReq: Int32, w: World, u: Truth, a: Action, w': World, u': Truth) {
    Lawful(nullReq, w, u, a) && w' == After(nullReq, w, a) && u' == TruthAfter(nullReq, w, u, a)
  }

  function Front(actions: seq<Action>): seq<Action>
    requires actions != []
  {
    actions[..|actions| - 1]
  }

  function Last(actions: seq<Action>): Action
    requires actions != []
  {
    actions[|actions| - 1]
  }

  // The actions of a process, from its start on.
  ghost predicate Behaves(nullReq: Int32, variables: seq<Int32>, actions: seq<Action>, w: World, u: Truth)
    decreases |actions|
  {
    if actions == [] then w == World(-1, variables, []) && u == Truth(map[], {}, 0)
    else
      exists before: World, past: Truth ::
        Behaves(nullReq, variables, Front(actions), before, past) && Acts(nullReq, before, past, Last(actions), w, u)
  }

  function Roles(calls: seq<MpiCall>): seq<Role> {
    seq(|calls|, i requires 0 <= i < |calls| => CallRole(calls[i]))
  }

  // ---------- requests ----------

  // The record says what the call did: for this the handle has to be read after a start but before a completion.
  lemma RecordTellsMeaning(nullReq: Int32, w: World, u: Truth, a: Action)
    requires Lawful(nullReq, w, u, a) && !a.Assign?
    ensures |Record(nullReq, w, a)| == 1 && CallRole(Record(nullReq, w, a)[0]) == Meaning(w, a)
  {
  }

  // The active handles are those that look open in the records, and the pairs are those they show.
  ghost predicate OwnersOk(nullReq: Int32, roles: seq<Role>, owner: map<Int32, int>) {
    forall h, i :: h != nullReq ==> (h in owner && owner[h] == i <==> Open(roles, i, |roles|, h))
  }

  ghost predicate PairsOk(nullReq: Int32, roles: seq<Role>, done: set<(int, int)>) {
    forall i, j :: (i, j) in done <==> Paired(roles, i, j, nullReq)
  }

  ghost predicate HasStart(roles: seq<Role>, j: int, nullReq: Int32) {
    exists i :: Paired(roles, i, j, nullReq)
  }

  ghost predicate CompletionsOk(nullReq: Int32, roles: seq<Role>) {
    forall j :: 0 <= j < |roles| && roles[j].Completes? && roles[j].req != nullReq ==> HasStart(roles, j, nullReq)
  }

  ghost predicate IsOver(roles: seq<Role>, i: int, nullReq: Int32) {
    exists j :: Paired(roles, i, j, nullReq)
  }

  ghost predicate StartsOk(nullReq: Int32, roles: seq<Role>) {
    forall i :: 0 <= i < |roles| && roles[i].Starts? && roles[i].req != nullReq ==>
      (Open(roles, i, |roles|, roles[i].req) <==> !IsOver(roles, i, nullReq))
  }

  ghost predicate StagesOk(nullReq: Int32, roles: seq<Role>, owner: map<Int32, int>) {
    forall h :: h != nullReq ==> Stage(Filter(roles, OnHandle(h))) == Some(h in owner)
  }

  ghost predicate RequestsOk(nullReq: Int32, w: World, u: Truth) {
    var roles := Roles(w.calls);
    && OwnersOk(nullReq, roles, u.owner) && PairsOk(nullReq, roles, u.done)
    && CompletionsOk(nullReq, roles) && StartsOk(nullReq, roles) && StagesOk(nullReq, roles, u.owner)
  }

  ghost predicate RoleAllowed(nullReq: Int32, owner: map<Int32, int>, role: Role) {
    match role
    case Starts(h) => h !in owner
    case Polls(h) => h == nullReq || h in owner
    case Completes(h) => h == nullReq || h in owner
    case Unrelated => true
  }

  function OwnerAfter(nullReq: Int32, owner: map<Int32, int>, role: Role, here: int): map<Int32, int> {
    match role
    case Starts(h) => if h == nullReq then owner else owner[h := here]
    case Completes(h) => if h == nullReq || h !in owner then owner else owner - {h}
    case _ => owner
  }

  function DoneAfter(nullReq: Int32, owner: map<Int32, int>, done: set<(int, int)>, role: Role,
      here: int): set<(int, int)> {
    if role.Completes? && role.req != nullReq && role.req in owner then done + {(owner[role.req], here)} else done
  }

  lemma OwnersStep(nullReq: Int32, roles: seq<Role>, owner: map<Int32, int>, role: Role)
    requires OwnersOk(nullReq, roles, owner) && RoleAllowed(nullReq, owner, role)
    ensures OwnersOk(nullReq, roles + [role], OwnerAfter(nullReq, owner, role, |roles|))
  {
    var owner' := OwnerAfter(nullReq, owner, role, |roles|);
    var longer := roles + [role];
    forall h, i | h != nullReq
      ensures h in owner' && owner'[h] == i <==> Open(longer, i, |longer|, h)
    {
      OpenAfter(roles, role, i, h);
    }
  }

  lemma PairsStep(nullReq: Int32, roles: seq<Role>, owner: map<Int32, int>, done: set<(int, int)>, role: Role)
    requires OwnersOk(nullReq, roles, owner) && PairsOk(nullReq, roles, done)
    ensures PairsOk(nullReq, roles + [role], DoneAfter(nullReq, owner, done, role, |roles|))
  {
    var done' := DoneAfter(nullReq, owner, done, role, |roles|);
    forall i, j
      ensures (i, j) in done' <==> Paired(roles + [role], i, j, nullReq)
    {
      PairedAfter(roles, role, i, j, nullReq);
    }
  }

  lemma CompletionsStep(nullReq: Int32, roles: seq<Role>, owner: map<Int32, int>, role: Role)
    requires OwnersOk(nullReq, roles, owner) && RoleAllowed(nullReq, owner, role) && CompletionsOk(nullReq, roles)
    ensures CompletionsOk(nullReq, roles + [role])
  {
    var longer := roles + [role];
    forall j | 0 <= j < |longer| && longer[j].Completes? && longer[j].req != nullReq
      ensures HasStart(longer, j, nullReq)
    {
      if j < |roles| {
        assert HasStart(roles, j, nullReq);
        var i :| Paired(roles, i, j, nullReq);
        PairedAfter(roles, role, i, j, nullReq);
      } else {
        PairedAfter(roles, role, owner[role.req], j, nullReq);
      }
    }
  }

  lemma StartsStep(nullReq: Int32, roles: seq<Role>, owner: map<Int32, int>, role: Role)
    requires OwnersOk(nullReq, roles, owner) && RoleAllowed(nullReq, owner, role) && StartsOk(nullReq, roles)
    ensures StartsOk(nullReq, roles + [role])
  {
    var longer := roles + [role];
    forall i | 0 <= i < |longer| && longer[i].Starts? && longer[i].req != nullReq
      ensures Open(longer, i, |longer|, longer[i].req) <==> !IsOver(longer, i, nullReq)
    {
      OpenAfter(roles, role, i, longer[i].req);
      forall j { PairedAfter(roles, role, i, j, nullReq); }
      if i < |roles| && IsOver(roles, i, nullReq) {
        var j :| Paired(roles, i, j, nullReq);
        assert Paired(longer, i, j, nullReq);
      } else if role == Completes(longer[i].req) && i < |roles| {
        assert Paired(longer, i, |roles|, nullReq);
      }
    }
  }

  lemma StagesStep(nullReq: Int32, roles: seq<Role>, owner: map<Int32, int>, role: Role)
    requires RoleAllowed(nullReq, owner, role) && StagesOk(nullReq, roles, owner)
    ensures StagesOk(nullReq, roles + [role], OwnerAfter(nullReq, owner, role, |roles|))
  {
    forall h | h != nullReq
      ensures Stage(Filter(roles + [role], OnHandle(h))) == Some(h in OwnerAfter(nullReq, owner, role, |roles|))
    {
      StageAfter(roles, role, h);
    }
  }

  lemma RequestsStep(nullReq: Int32, w: World, u: Truth, a: Action)
    requires Lawful(nullReq, w, u, a) && RequestsOk(nullReq, w, u)
    ensures RequestsOk(nullReq, After(nullReq, w, a), TruthAfter(nullReq, w, u, a))
  {
    var w', u' := After(nullReq, w, a), TruthAfter(nullReq, w, u, a);
    var roles := Roles(w.calls);
    if a.Assign? {
      assert w'.calls == w.calls;
    } else {
      RecordTellsMeaning(nullReq, w, u, a);
      var role := Meaning(w, a);
      assert Roles(w'.calls) == roles + [role];
      OwnersStep(nullReq, roles, u.owner, role);
      PairsStep(nullReq, roles, u.owner, u.done, role);
      CompletionsStep(nullReq, roles, u.owner, role);
      StartsStep(nullReq, roles, u.owner, role);
      StagesStep(nullReq, roles, u.owner, role);
    }
  }

  // ---------- time ----------

  // Recorded intervals lie in the past, in the order of the calls and without overlapping.
  ghost predicate TimesOk(calls: seq<MpiCall>, clock: int) {
    && 0 <= clock
    && (forall i :: 0 <= i < |calls| ==> CallEnd(calls[i]) <= clock)
    && (forall i :: 0 <= i < |calls| && calls[i].kind == Finalize ==> calls[i].duration == 0)
    && (forall i, j :: 0 <= i < j < |calls| ==> CallEnd(calls[i]) <= calls[j].tsc)
  }

  lemma TimesStep(nullReq: Int32, w: World, u: Truth, a: Action)
    requires Lawful(nullReq, w, u, a) && TimesOk(w.calls, u.clock)
    ensures TimesOk(After(nullReq, w, a).calls, TruthAfter(nullReq, w, u, a).clock)
  {
    var w' := After(nullReq, w, a);
    assert TruthAfter(nullReq, w, u, a).clock == ClockAfter(u.clock, a);
    if a.Assign? {
      assert w'.calls == w.calls;
    } else {
      var call := Record(nullReq, w, a)[0];
      assert w'.calls == w.calls + [call];
      assert u.clock <= call.tsc && CallEnd(call) == ClockAfter(u.clock, a) &&
          (call.kind == Finalize ==> call.duration == 0) by {
        RecordTimes(nullReq, w, u, a);
      }
    }
  }

  // No duration underflows: the interval recorded runs from the first reading of the clock to the second.
  lemma RecordTimes(nullReq: Int32, w: World, u: Truth, a: Action)
    requires Lawful(nullReq, w, u, a) && !a.Assign?
    ensures |Record(nullReq, w, a)| == 1
    ensures var call := Record(nullReq, w, a)[0];
            && u.clock <= call.tsc && CallEnd(call) == ClockAfter(u.clock, a)
            && (call.kind == Finalize ==> call.duration == 0)
  {
    if a.Block? || a.Begin? || a.TestOnce? || a.WaitFor? {
      ElapsedExact(a.t0, a.t1);
    }
  }

  function TotalDuration(calls: seq<MpiCall>): nat {
    if calls == [] then 0 else TotalDuration(calls[..|calls| - 1]) + calls[|calls| - 1].duration
  }

  lemma {:induction false} DurationsFit(calls: seq<MpiCall>)
    requires calls != []
    requires forall i, j :: 0 <= i < j < |calls| ==> CallEnd(calls[i]) <= calls[j].tsc
    ensures TotalDuration(calls) <= CallEnd(calls[|calls| - 1]) - calls[0].tsc
  {
    var front := calls[..|calls| - 1];
    if front != [] {
      DurationsFit(front);
      assert CallEnd(calls[|front| - 1]) <= calls[|front|].tsc;
    }
  }

  // ---------- whole runs ----------

  lemma {:induction false} Kept(nullReq: Int32, variables: seq<Int32>, actions: seq<Action>, w: World, u: Truth)
    requires Behaves(nullReq, variables, actions, w, u)
    ensures RequestsOk(nullReq, w, u) && TimesOk(w.calls, u.clock)
    decreases |actions|
  {
    if actions == [] {
      assert Roles(w.calls) == [];
    } else {
      var before: World, past: Truth :|
        Behaves(nullReq, variables, Front(actions), before, past) && Acts(nullReq, before, past, Last(actions), w, u);
      Kept(nullReq, variables, Front(actions), before, past);
      RequestsStep(nullReq, before, past, Last(actions));
      TimesStep(nullReq, before, past, Last(actions));
    }
  }

  // The records show which start each completion belongs to, although handles are used again: a start and a
  // completion among them belong together if and only if they carry the same handle and there is nothing but
  // unfinished tests on it between them. Every completion of a non-null handle has its start, and every start that
  // is no longer active its completion.
  lemma PairsShown(nullReq: Int32, variables: seq<Int32>, actions: seq<Action>, w: World, u: Truth, i: int, j: int)
    requires Behaves(nullReq, variables, actions, w, u)
    ensures (i, j) in u.done <==> Paired(Roles(w.calls), i, j, nullReq)
    ensures 0 <= j < |w.calls| && CallRole(w.calls[j]).Completes? && CallRole(w.calls[j]).req != nullReq ==>
              exists k :: (k, j) in u.done
    ensures 0 <= i < |w.calls| && CallRole(w.calls[i]).Starts? && CallRole(w.calls[i]).req != nullReq ==>
              var h := CallRole(w.calls[i]).req;
              (h in u.owner && u.owner[h] == i <==> !exists k :: (i, k) in u.done)
  {
    Kept(nullReq, variables, actions, w, u);
    var roles := Roles(w.calls);
    if 0 <= i < |roles| && roles[i].Starts? && roles[i].req != nullReq {
      assert IsOver(roles, i, nullReq) <==> exists k :: (i, k) in u.done;
    }
    if 0 <= j < |roles| && roles[j].Completes? && roles[j].req != nullReq {
      assert HasStart(roles, j, nullReq);
      var k :| Paired(roles, k, j, nullReq);
    }
  }

  // On every handle starts, unfinished tests and completions alternate, and the handle is active at the end
  // exactly if its last request is not over.
  lemma HandleAlternates(nullReq: Int32, variables: seq<Int32>, actions: seq<Action>, w: World, u: Truth, h: Int32)
    requires Behaves(nullReq, variables, actions, w, u) && h != nullReq
    ensures Stage(Filter(Roles(w.calls), OnHandle(h))) == Some(h in u.owner)
  {
    Kept(nullReq, variables, actions, w, u);
  }

  // The intervals are disjoint and in the order of the calls, so the time from the start of the first call to the end
  // of the last is at least the time spent in all of them.
  lemma TimeAddsUp(nullReq: Int32, variables: seq<Int32>, actions: seq<Action>, w: World, u: Truth)
    requires Behaves(nullReq, variables, actions, w, u) && w.calls != []
    ensures forall i, j :: 0 <= i < j < |w.calls| ==> CallEnd(w.calls[i]) <= w.calls[j].tsc
    ensures TotalDuration(w.calls) <= CallEnd(w.calls[|w.calls| - 1]) - w.calls[0].tsc
  {
    assert TimesOk(w.calls, u.clock) by {
      Kept(nullReq, variables, actions, w, u);
    }
    DurationsFit(w.calls);
  }

  // No completion begins before its start has returned.
  lemma NoOverlapInPair(nullReq: Int32, variables: seq<Int32>, actions: seq<Action>, w: World, u: Truth, i: int, j: int)
    requires Behaves(nullReq, variables, actions, w, u) && (i, j) in u.done
    ensures 0 <= i < j < |w.calls| && CallEnd(w.calls[i]) <= w.calls[j].tsc
  {
    PairsShown(nullReq, variables, actions, w, u, i, j);
    assert TimesOk(w.calls, u.clock) by {
      Kept(nullReq, variables, actions, w, u);
    }
  }

  // In particular, from Init to Finalize.
  lemma InitToFinalize(nullReq: Int32, variables: seq<Int32>, actions: seq<Action>, w: World, u: Truth)
    requires Behaves(nullReq, variables, actions, w, u)
    requires |w.calls| > 1 && w.calls[|w.calls| - 1].kind == Finalize
    ensures TotalDuration(w.calls) <= w.calls[|w.calls| - 1].tsc - w.calls[0].tsc
  {
    TimeAddsUp(nullReq, variables, actions, w, u);
    assert TimesOk(w.calls, u.clock) by {
      Kept(nullReq, variables, actions, w, u);
    }
  }
}
