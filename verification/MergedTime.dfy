/** What the durations in a rank's log and in the merged trace add up to, whatever records are missing. */
module MergedTime {
  import opened Types
  import opened Dispatcher
  import opened Sort
  import opened Sequences
  import opened Traces
  import opened Protocol
  import opened RankInvariant
  import opened Safety
  import opened Interleaving
  import opened MergedOrder
  import opened MissingRecords
  import W = Wrappers
  import P = Pairing

  function TotalLength(events: seq<Event>): nat {
    if events == [] then 0 else TotalLength(events[..|events| - 1]) + events[|events| - 1].Length()
  }

  lemma {:induction false} LengthWithout(events: seq<Event>, i: nat)
    requires i < |events|
    ensures TotalLength(events) == TotalLength(Without(events, i)) + events[i].Length()
  {
    var last := |events| - 1;
    if i == last {
      assert Without(events, i) == events[..last];
    } else {
      LengthWithout(events[..last], i);
      assert Without(events, i)[..last - 1] == Without(events[..last], i);
    }
  }

  lemma Taken(s: seq<Event>, t: seq<Event>) returns (i: nat)
    requires s != [] && multiset(s) == multiset(t)
    ensures i < |t| && t[i] == s[|s| - 1] && multiset(Without(t, i)) == multiset(s[..|s| - 1])
  {
    var last := |s| - 1;
    assert s[last] in multiset(t);
    i :| 0 <= i < |t| && t[i] == s[last];
    assert s == s[..last] + [s[last]];
    assert t == t[..i] + [t[i]] + t[i + 1..];
    MiddlePart(t[..i], [t[i]], t[i + 1..]);
    assert multiset(s[..last]) == multiset(s) - multiset{s[last]};
  }

  // The order of the events does not matter.
  lemma {:induction false} LengthSame(s: seq<Event>, t: seq<Event>)
    requires multiset(s) == multiset(t)
    ensures TotalLength(s) == TotalLength(t)
  {
    if s == [] {
      assert |multiset(t)| == 0;
    } else {
      var last := |s| - 1;
      var i := Taken(s, t);
      LengthSame(s[..last], Without(t, i));
      LengthWithout(t, i);
    }
  }

  lemma {:induction false} LengthStored(log: seq<Entry>)
    ensures TotalLength(Events(log)) <= P.TotalDuration(CallsIn(log))
  {
    if log != [] {
      var last := |log| - 1;
      LengthStored(log[..last]);
      assert Events(log)[..last] == Events(log[..last]) && CallsIn(log)[..last] == CallsIn(log[..last]);
      DispatchTimes(log[last].call);
    }
  }

  ghost predicate CallsInOrder(log: seq<Entry>) {
    forall i, j :: 0 <= i < j < |log| ==> CallEnd(log[i].call) <= log[j].call.tsc
  }

  // The recorded intervals are disjoint and in order, and what is stored of their durations adds up to no more than the
  // time they span.
  ghost predicate TimeAddsUp(log: seq<Entry>)
    requires log != []
  {
    CallsInOrder(log) && TotalLength(Events(log)) <= CallEnd(log[|log| - 1].call) - log[0].call.tsc
  }

  lemma OrderOf(log: seq<Entry>)
    requires forall i, j :: 0 <= i < j < |CallsIn(log)| ==> CallEnd(CallsIn(log)[i]) <= CallsIn(log)[j].tsc
    requires log != []
    ensures CallsInOrder(log) && CallsIn(log)[0] == log[0].call && CallsIn(log)[|log| - 1] == log[|log| - 1].call
  {
    forall i, j | 0 <= i < j < |log|
      ensures CallEnd(log[i].call) <= log[j].call.tsc
    {
      assert CallEnd(CallsIn(log)[i]) <= CallsIn(log)[j].tsc;
    }
  }

  lemma TimeOf(nullReq: Int32, variables: seq<Int32>, actions: seq<W.Action>, w: W.World, u: P.Truth, at: seq<int>,
               log: seq<Entry>)
    requires P.Behaves(nullReq, variables, actions, w, u) && Picks(w.calls, at, CallsIn(log)) && log != []
    ensures TimeAddsUp(log)
  {
    TimeLeft(nullReq, variables, actions, w, u, at, CallsIn(log));
    LengthStored(log);
    OrderOf(log);
  }

  // So it is in the log of a serialised rank, at any moment and whichever registrations failed.
  lemma LogTimeAddsUp(cfg: Config, start: State, steps: seq<Step>, s: State, r: nat, nullReq: Int32,
                      variables: seq<Int32>, actions: seq<W.Action>, w: W.World, u: P.Truth)
    requires Runs(cfg, start, steps, s) && r < |s.ranks| && r in cfg.serial && s.ranks[r].log != []
    requires P.Behaves(nullReq, variables, actions, w, u) && w.calls == RankCalls(steps, r)
    ensures TimeAddsUp(s.ranks[r].log)
  {
    LogPicked(cfg, start, steps, s, r);
    TimeOf(nullReq, variables, actions, w, u, LoggedAt(steps, s.ranks[r], r), s.ranks[r].log);
  }

  lemma FinalizeInstant(nullReq: Int32, variables: seq<Int32>, actions: seq<W.Action>, w: W.World, u: P.Truth, i: nat)
    requires P.Behaves(nullReq, variables, actions, w, u) && i < |w.calls| && w.calls[i].kind == Finalize
    ensures CallEnd(w.calls[i]) == w.calls[i].tsc
  {
    P.Kept(nullReq, variables, actions, w, u);
  }

  lemma FinalizeLast(cfg: Config, start: State, steps: seq<Step>, s: State, r: nat, nullReq: Int32,
                     variables: seq<Int32>, actions: seq<W.Action>, w: W.World, u: P.Truth)
    requires Runs(cfg, start, steps, s) && r < |s.ranks| && r in cfg.serial && EndsWithFinalize(s.ranks[r].log)
    requires P.Behaves(nullReq, variables, actions, w, u) && w.calls == RankCalls(steps, r)
    ensures var log := s.ranks[r].log; CallEnd(log[|log| - 1].call) == log[|log| - 1].call.tsc
  {
    var log := s.ranks[r].log;
    var at, last := LoggedAt(steps, s.ranks[r], r), |log| - 1;
    LogPicked(cfg, start, steps, s, r);
    assert CallsIn(log)[last] == log[last].call;
    FinalizeInstant(nullReq, variables, actions, w, u, at[last]);
  }

  lemma StoredTimes(log: seq<Entry>, i: nat)
    requires i < |log|
    ensures Events(log)[i].tsc == log[i].call.tsc && Events(log)[i].End() <= CallEnd(log[i].call)
  {
    EventTimes(log[i].call);
  }

  // The log's first and last event, its Finalize, are as early and as late as any of them.
  lemma LogSpan(log: seq<Entry>, i: nat)
    requires EndsWithFinalize(log) && CallsInOrder(log) && i < |log|
    requires CallEnd(log[|log| - 1].call) == log[|log| - 1].call.tsc
    ensures Events(log)[0].tsc <= Events(log)[i].tsc <= Events(log)[|log| - 1].tsc
  {
    StoredTimes(log, 0);
    StoredTimes(log, i);
    StoredTimes(log, |log| - 1);
  }

  lemma Among(part: seq<Event>, events: seq<Event>, i: nat) returns (j: nat)
    requires multiset(part) == multiset(events) && i < |events|
    ensures j < |part| && part[j] == events[i]
  {
    assert events[i] in multiset(part);
    j :| 0 <= j < |part| && part[j] == events[i];
  }

  lemma EndsSorted(part: seq<Event>, e: Event, i: nat)
    requires Sorted(part, Tsc) && i < |part| && part[i] == e
    ensures part[0].tsc <= e.tsc <= part[|part| - 1].tsc
  {
    assert Tsc(part[0]) <= Tsc(part[i]) <= Tsc(part[|part| - 1]);
  }

  // The first event is as early and the last as late as any.
  ghost predicate Spanned(events: seq<Event>) {
    events != [] && forall e :: e in events ==> events[0].tsc <= e.tsc <= events[|events| - 1].tsc
  }

  lemma LogSpanned(log: seq<Entry>)
    requires EndsWithFinalize(log) && CallsInOrder(log)
    requires CallEnd(log[|log| - 1].call) == log[|log| - 1].call.tsc
    ensures Spanned(Events(log))
  {
    forall e | e in Events(log)
      ensures Events(log)[0].tsc <= e.tsc <= Events(log)[|log| - 1].tsc
    {
      var i :| 0 <= i < |log| && Events(log)[i] == e;
      LogSpan(log, i);
    }
  }

  // Rearranged by time stamp, the events run from the same first to the same last time stamp.
  lemma PartSpan(events: seq<Event>, part: seq<Event>)
    requires Spanned(events) && Sorted(part, Tsc) && multiset(part) == multiset(events)
    ensures part != [] && part[0].tsc == events[0].tsc && part[|part| - 1].tsc == events[|events| - 1].tsc
    ensures events[|events| - 1] in part
  {
    var i := Among(part, events, 0);
    var j := Among(part, events, |events| - 1);
    EndsSorted(part, events[0], i);
    EndsSorted(part, events[|events| - 1], j);
    var k := Among(events, part, 0);
    var l := Among(events, part, |part| - 1);
    assert part[0] in events && part[|part| - 1] in events;
  }

  // The durations of the events add up to at most the time from the first to the last, and none is later than a
  // Finalize among them.
  ghost predicate EndsInTime(part: seq<Event>) {
    && part != [] && TotalLength(part) <= part[|part| - 1].tsc - part[0].tsc
    && exists e :: e in part && IsFinalize(e) && e.tsc == part[|part| - 1].tsc
  }

  lemma PartAddsUp(log: seq<Entry>, part: seq<Event>)
    requires EndsWithFinalize(log) && TimeAddsUp(log) && Sorted(part, Tsc) && multiset(part) == multiset(Events(log))
    requires CallEnd(log[|log| - 1].call) == log[|log| - 1].call.tsc
    ensures EndsInTime(part)
  {
    LengthSame(part, Events(log));
    LogSpanned(log);
    PartSpan(Events(log), part);
    EventTimes(log[0].call);
    EventTimes(log[|log| - 1].call);
    assert IsFinalize(Events(log)[|log| - 1]);
  }

  // In the merged trace the durations of a serialised rank's calls add up to at most the time from its first event to
  // its last, and no event of the rank is later than its Finalize. The clock need not be steady: it is enough that it
  // does not go back.
  lemma MergedTimeAddsUp(cfg: Config, start: State, steps: seq<Step>, s: State, r: nat, nullReq: Int32,
                         variables: seq<Int32>, actions: seq<W.Action>, w: W.World, u: P.Truth)
    requires Runs(cfg, start, steps, s) && s.merged.Some? && r in cfg.serial
    requires r < |s.ranks| <= MAX_RANKS && s.ranks[r].saved.Whole? && OnlyOwnFile(start.files, r)
    requires P.Behaves(nullReq, variables, actions, w, u) && w.calls == RankCalls(steps, r)
    ensures EndsInTime(Filter(s.merged.value, OfRank(r)))
  {
    var log, part := s.ranks[r].log, Filter(s.merged.value, OfRank(r));
    assert EndsWithFinalize(log) && multiset(part) == multiset(Events(log)) by {
      SavedIsLog(cfg, start, steps, s, r);
      MergedHasRankLog(cfg, start, steps, s, r);
    }
    assert Sorted(part, Tsc) by {
      MergedIsMerge(cfg, start, steps, s);
      FilterSorted(s.merged.value, OfRank(r), Tsc);
    }
    LogTimeAddsUp(cfg, start, steps, s, r, nullReq, variables, actions, w, u);
    FinalizeLast(cfg, start, steps, s, r, nullReq, variables, actions, w, u);
    PartAddsUp(log, part);
  }
}
