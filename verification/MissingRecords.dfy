/** What the records of a process still tell when some of them are missing, because their registration failed. */
module MissingRecords {
  import opened Types
  import opened Sequences
  import opened Requests
  import opened Wrappers
  import opened Pairing

  // ---------- requests ----------

  // The records show that the one at i starts a request and the one at j completes it; positions are those they have
  // among all the records, missing ones included.
  ghost predicate Shows(shown: seq<Role>, at: seq<int>, i: int, j: int, nullReq: Int32)
    requires |shown| == |at|
  {
    exists k, l :: 0 <= k < |at| && 0 <= l < |at| && at[k] == i && at[l] == j && Paired(shown, k, l, nullReq)
  }

  // The pairs shown are those that really belong together.
  ghost predicate ShowsExactly(shown: seq<Role>, at: seq<int>, done: set<(int, int)>, nullReq: Int32)
    requires |shown| == |at|
  {
    forall i, j :: (i, j) in done <==> Shows(shown, at, i, j, nullReq)
  }

  // No start and no completion of a request that is over is missing.
  ghost predicate KeepsPairs(at: seq<int>, done: set<(int, int)>) {
    forall i, j :: (i, j) in done ==> i in at && j in at
  }

  lemma PairKept(roles: seq<Role>, at: seq<int>, shown: seq<Role>, i: int, j: int, nullReq: Int32)
    requires Picks(roles, at, shown) && Paired(roles, i, j, nullReq) && i in at && j in at
    ensures Shows(shown, at, i, j, nullReq)
  {
    var k :| 0 <= k < |at| && at[k] == i;
    var l :| 0 <= l < |at| && at[l] == j;
    assert k < l;
    assert Paired(shown, k, l, nullReq);
  }

  lemma PairShown(roles: seq<Role>, at: seq<int>, shown: seq<Role>, k: int, l: int, i: int, nullReq: Int32)
    requires Picks(roles, at, shown) && Paired(shown, k, l, nullReq) && Paired(roles, i, at[l], nullReq) && i in at
    ensures i == at[k]
  {
    PairKept(roles, at, shown, i, at[l], nullReq);
    var k', l' :| 0 <= k' < |at| && 0 <= l' < |at| && at[k'] == i && at[l'] == at[l] && Paired(shown, k', l', nullReq);
    assert l' == l;
    PairedUnique(shown, k, l, k', l', nullReq);
  }

  lemma ShownIsTrue(roles: seq<Role>, at: seq<int>, shown: seq<Role>, done: set<(int, int)>, i: int, j: int,
                    nullReq: Int32)
    requires Picks(roles, at, shown) && PairsOk(nullReq, roles, done) && CompletionsOk(nullReq, roles)
    requires forall i', j' :: (i', j') in done && j' in at ==> i' in at
    requires Shows(shown, at, i, j, nullReq)
    ensures (i, j) in done
  {
    var k, l :| 0 <= k < |at| && 0 <= l < |at| && at[k] == i && at[l] == j && Paired(shown, k, l, nullReq);
    assert HasStart(roles, j, nullReq);
    var i' :| Paired(roles, i', j, nullReq);
    assert (i', j) in done;
    PairShown(roles, at, shown, k, l, i', nullReq);
  }

  lemma TrueIsShown(roles: seq<Role>, at: seq<int>, shown: seq<Role>, done: set<(int, int)>, i: int, j: int,
                    nullReq: Int32)
    requires Picks(roles, at, shown) && PairsOk(nullReq, roles, done)
    requires (i, j) in done && i in at && j in at
    ensures Shows(shown, at, i, j, nullReq)
  {
    PairKept(roles, at, shown, i, j, nullReq);
  }

  // Whichever records are missing, those that are left show exactly the true pairs if and only if no start and no
  // completion of a request that is over is missing; unfinished tests and starts of requests that are still active may
  // be. If no start is missing whose completion is there, at least nothing false is shown.
  lemma ShownExactly(nullReq: Int32, variables: seq<Int32>, actions: seq<Action>, w: World, u: Truth, at: seq<int>,
                     shown: seq<Role>)
    requires Behaves(nullReq, variables, actions, w, u) && Picks(Roles(w.calls), at, shown)
    ensures ShowsExactly(shown, at, u.done, nullReq) <==> KeepsPairs(at, u.done)
    ensures (forall i, j :: (i, j) in u.done && j in at ==> i in at) ==>
              forall i, j :: Shows(shown, at, i, j, nullReq) ==> (i, j) in u.done
  {
    var roles := Roles(w.calls);
    assert PairsOk(nullReq, roles, u.done) && CompletionsOk(nullReq, roles) by {
      Kept(nullReq, variables, actions, w, u);
    }
    if forall i, j :: (i, j) in u.done && j in at ==> i in at {
      forall i, j | Shows(shown, at, i, j, nullReq) {
        ShownIsTrue(roles, at, shown, u.done, i, j, nullReq);
      }
    }
    if KeepsPairs(at, u.done) {
      forall i, j | (i, j) in u.done {
        TrueIsShown(roles, at, shown, u.done, i, j, nullReq);
      }
    }
  }

  // ---------- time ----------

  // The recorded intervals that are left do not overlap either, and missing records make the sum smaller.
  lemma TimeLeft(nullReq: Int32, variables: seq<Int32>, actions: seq<Action>, w: World, u: Truth, at: seq<int>,
                 some: seq<MpiCall>)
    requires Behaves(nullReq, variables, actions, w, u) && Picks(w.calls, at, some)
    ensures forall i, j :: 0 <= i < j < |some| ==> CallEnd(some[i]) <= some[j].tsc
    ensures some != [] ==> TotalDuration(some) <= CallEnd(some[|some| - 1]) - some[0].tsc
    ensures TotalDuration(some) <= TotalDuration(w.calls)
  {
    assert TimesOk(w.calls, u.clock) by {
      Kept(nullReq, variables, actions, w, u);
    }
    if some != [] {
      DurationsFit(some);
    }
    LessPicked(w.calls, at, some);
  }

  lemma {:induction false} LessPicked(calls: seq<MpiCall>, at: seq<int>, some: seq<MpiCall>)
    requires Picks(calls, at, some)
    ensures TotalDuration(some) <= TotalDuration(calls)
  {
    if some != [] {
      var n := |at| - 1;
      assert 0 <= at[n] < |calls|;
      var last := |calls| - 1;
      assert Picks(calls[..last], at[..n], some[..n]);
      if at[n] == last {
        LessPicked(calls[..last], at[..n], some[..n]);
      } else {
        LessPicked(calls[..last], at, some);
      }
    }
  }
}
