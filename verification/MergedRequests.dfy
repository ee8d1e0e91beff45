/** Requests as they are found in a rank's log and in the merged trace. */
module MergedRequests {
  import opened Types
  import opened Dispatcher
  import opened Sequences
  import opened Requests
  import opened MissingRecords
  import opened Traces
  import opened Protocol
  import opened Safety
  import opened Interleaving
  import opened MergedOrder
  import opened EndToEnd
  import W = Wrappers
  import P = Pairing

  function EventRoles(events: seq<Event>): seq<Role> {
    seq(|events|, i requires 0 <= i < |events| => EventRole(events[i]))
  }

  // What the wrappers record is what the protocol expects of a returning call.
  lemma WrapperRecords(nullReq: Int32, w: W.World, u: P.Truth, a: W.Action, r: nat)
    requires P.Lawful(nullReq, w, u, a) && !a.Assign? && !a.Leave? && W.RankAfterwards(w, a) == r
    ensures var call := W.Record(nullReq, w, a)[0];
            Storable(call) ==>
              Records(call, r, if a.Enter? then a.now else a.t0, if a.Enter? then a.now else a.t1)
  {
    P.RecordTimes(nullReq, w, u, a);
  }

  lemma RolesKept(log: seq<Entry>)
    ensures EventRoles(Events(log)) == P.Roles(CallsIn(log))
  {
    forall i | 0 <= i < |log|
      ensures EventRole(Events(log)[i]) == CallRole(CallsIn(log)[i])
    {
      RoleStored(log[i].call);
    }
  }

  lemma {:induction false} NothingDropped(steps: seq<Step>, r: nat)
    requires SuccessfulFor(steps, r)
    ensures RankKept(steps, r) == RankCalls(steps, r)
  {
    if steps != [] {
      NothingDropped(Front(steps), r);
      if Target(Last(steps)) == r {
        assert StepSucceeds(steps[|steps| - 1]);
      }
    }
  }

  // Serialisation and successful registration make the log the sequence of the calls, but for one on its way,
  // whatever failed on other ranks.
  lemma LogIsCalls(cfg: Config, start: State, steps: seq<Step>, s: State, r: nat)
    requires Runs(cfg, start, steps, s) && SuccessfulFor(steps, r) && r < |s.ranks| && r in cfg.serial
    ensures RankCalls(steps, r) == CallsIn(s.ranks[r].log) + RankPending(s.ranks[r]) && |RankPending(s.ranks[r])| <= 1
  {
    SerialLog(cfg, start, steps, s, r);
    AtMostOnePending(cfg, start, steps, s, r);
    NothingDropped(steps, r);
  }

  lemma RolesConcat(a: seq<MpiCall>, b: seq<MpiCall>)
    ensures P.Roles(a + b) == P.Roles(a) + P.Roles(b)
  {
  }

  // On every handle the stored events of a serialised rank alternate, at any moment, if nothing failed on that rank.
  lemma LogAlternates(cfg: Config, start: State, steps: seq<Step>, s: State, r: nat,
                      nullReq: Int32, variables: seq<Int32>, actions: seq<W.Action>, w: W.World, u: P.Truth, h: Int32)
    requires Runs(cfg, start, steps, s) && SuccessfulFor(steps, r) && r < |s.ranks| && r in cfg.serial && h != nullReq
    requires P.Behaves(nullReq, variables, actions, w, u) && w.calls == RankCalls(steps, r)
    ensures Stage(Filter(EventRoles(Events(s.ranks[r].log)), OnHandle(h))).Some?
    ensures RankPending(s.ranks[r]) == [] ==>
              Stage(Filter(EventRoles(Events(s.ranks[r].log)), OnHandle(h))) == Some(h in u.owner)
  {
    var logged, pending := CallsIn(s.ranks[r].log), RankPending(s.ranks[r]);
    LogIsCalls(cfg, start, steps, s, r);
    RolesKept(s.ranks[r].log);
    RolesConcat(logged, pending);
    P.HandleAlternates(nullReq, variables, actions, w, u, h);
    StagePrefix(P.Roles(logged), P.Roles(pending), h);
    if pending == [] {
      assert w.calls == logged;
    }
  }

  lemma LogComplete(cfg: Config, start: State, steps: seq<Step>, s: State, r: nat)
    requires Runs(cfg, start, steps, s) && SuccessfulFor(steps, r) && s.merged.Some? && r < |s.ranks| && r in cfg.serial
    ensures s.ranks[r].saved.Whole? && RankCalls(steps, r) == CallsIn(s.ranks[r].log)
  {
    NothingUnderWay(cfg, start, steps, s, r);
    SuccessfulSaves(cfg, start, steps, s, r);
    LogIsCalls(cfg, start, steps, s, r);
    assert RankPending(s.ranks[r]) == [];
  }

  // At the end the part of the merged trace that belongs to the rank is the sequence of all its calls.
  lemma MergedIsCalls(cfg: Config, start: State, steps: seq<Step>, s: State, r: nat)
    requires Runs(cfg, start, steps, s) && SuccessfulFor(steps, r) && s.merged.Some?
    requires r < |s.ranks| <= MAX_RANKS && r in cfg.serial && cfg.Steady(r) && OnlyOwnFile(start.files, r)
    ensures EventRoles(Filter(s.merged.value, OfRank(r))) == P.Roles(RankCalls(steps, r))
  {
    LogComplete(cfg, start, steps, s, r);
    MergedKeepsRankOrder(cfg, start, steps, s, r);
    RolesKept(s.ranks[r].log);
  }

  // For a serialised rank, the starts and completions that really belong together are exactly those paired in that
  // rank's part of the merged trace, positions being counted within that part.
  lemma MergedPairs(cfg: Config, start: State, steps: seq<Step>, s: State, r: nat, nullReq: Int32,
                    variables: seq<Int32>, actions: seq<W.Action>, w: W.World, u: P.Truth, i: int, j: int)
    requires Runs(cfg, start, steps, s) && SuccessfulFor(steps, r) && s.merged.Some?
    requires r < |s.ranks| <= MAX_RANKS && r in cfg.serial && cfg.Steady(r) && OnlyOwnFile(start.files, r)
    requires P.Behaves(nullReq, variables, actions, w, u) && w.calls == RankCalls(steps, r)
    ensures (i, j) in u.done <==> Paired(EventRoles(Filter(s.merged.value, OfRank(r))), i, j, nullReq)
  {
    MergedIsCalls(cfg, start, steps, s, r);
    P.PairsShown(nullReq, variables, actions, w, u, i, j);
  }

  // And on every handle that part alternates, ending inside the pattern exactly if the handle is still active.
  lemma MergedAlternates(cfg: Config, start: State, steps: seq<Step>, s: State, r: nat, nullReq: Int32,
                         variables: seq<Int32>, actions: seq<W.Action>, w: W.World, u: P.Truth, h: Int32)
    requires Runs(cfg, start, steps, s) && SuccessfulFor(steps, r) && s.merged.Some? && h != nullReq
    requires r < |s.ranks| <= MAX_RANKS && r in cfg.serial && cfg.Steady(r) && OnlyOwnFile(start.files, r)
    requires P.Behaves(nullReq, variables, actions, w, u) && w.calls == RankCalls(steps, r)
    ensures Stage(Filter(EventRoles(Filter(s.merged.value, OfRank(r))), OnHandle(h))) == Some(h in u.owner)
  {
    MergedIsCalls(cfg, start, steps, s, r);
    P.HandleAlternates(nullReq, variables, actions, w, u, h);
  }

  // ---------- when registrations of the rank failed ----------

  // The log of a serialised rank, at any moment and whatever has failed, shows exactly the pairs that really belong
  // together if and only if it has the start and the completion of every request that is over.
  lemma LogShowsExactly(cfg: Config, start: State, steps: seq<Step>, s: State, r: nat, nullReq: Int32,
                        variables: seq<Int32>, actions: seq<W.Action>, w: W.World, u: P.Truth)
    requires Runs(cfg, start, steps, s) && r < |s.ranks| && r in cfg.serial
    requires P.Behaves(nullReq, variables, actions, w, u) && w.calls == RankCalls(steps, r)
    ensures var shown, at := EventRoles(Events(s.ranks[r].log)), LoggedAt(steps, s.ranks[r], r);
            && Picks(P.Roles(w.calls), at, shown)
            && (ShowsExactly(shown, at, u.done, nullReq) <==> KeepsPairs(at, u.done))
  {
    var k := s.ranks[r];
    LogPicked(cfg, start, steps, s, r);
    RolesKept(k.log);
    ShownExactly(nullReq, variables, actions, w, u, LoggedAt(steps, k, r), EventRoles(Events(k.log)));
  }

  // So does its part of the merged trace, if its file could be written, whatever failed on other ranks.
  lemma MergedShowsExactly(cfg: Config, start: State, steps: seq<Step>, s: State, r: nat, nullReq: Int32,
                           variables: seq<Int32>, actions: seq<W.Action>, w: W.World, u: P.Truth)
    requires Runs(cfg, start, steps, s) && s.merged.Some? && r in cfg.serial && cfg.Steady(r)
    requires r < |s.ranks| <= MAX_RANKS && s.ranks[r].saved.Whole? && OnlyOwnFile(start.files, r)
    requires P.Behaves(nullReq, variables, actions, w, u) && w.calls == RankCalls(steps, r)
    ensures var shown, at := EventRoles(Filter(s.merged.value, OfRank(r))), LoggedAt(steps, s.ranks[r], r);
            && Picks(P.Roles(w.calls), at, shown)
            && (ShowsExactly(shown, at, u.done, nullReq) <==> KeepsPairs(at, u.done))
  {
    LogShowsExactly(cfg, start, steps, s, r, nullReq, variables, actions, w, u);
    MergedKeepsRankOrder(cfg, start, steps, s, r);
  }
}
