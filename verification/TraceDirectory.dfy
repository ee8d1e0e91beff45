/** The trace directory as it is used: rank files are written, and rank 0 reads, sorts and rewrites it. */
module TraceDirectory {
  import opened Types
  import opened Json
  import opened Codec
  import opened Log
  import opened Sort
  import opened Traces

  function StyleFor(readable: bool): Style {
    if readable then Pretty else Compact
  }

  // The text has line breaks if and only if the readable layout was asked for.
  lemma LayoutChosen(log: seq<Event>, readable: bool)
    requires log != []
    ensures readable <==> '\n' in TraceText(log, StyleFor(readable))
  {
    TraceLines(log, StyleFor(readable));
  }

  class TraceDir {
    var files: Files

    constructor ()
      ensures files == map[]
    {
      files := map[];
    }

    // Opens for writing with truncation, then writes.
    method WriteFile(name: string, text: string, fate: Fate) returns (ok: bool)
      modifies this
      ensures files == Written(old(files), name, text, fate)
      ensures ok == fate.Succeeds?
      ensures ok ==> files == old(files)[name := text]
      ensures fate.OpenFails? ==> files == old(files)
      ensures fate.WriteStops? ==>
                && name in files && files == old(files)[name := files[name]] && files[name] <= text
                && |files[name]| == if fate.after < |text| then fate.after else |text|
    {
      if fate.OpenFails? {
        return false;
      }
      files := files[name := ""];
      if fate.WriteStops? {
        files := files[name := Clip(text, fate.after)];
        return false;
      }
      files := files[name := text];
      ok := true;
    }

    method Serialize(log: TraceLog, rank: Int32, fate: Fate) returns (ok: bool)
      requires log.Valid()
      modifies this
      ensures files == Written(old(files), RankFile(rank), TraceText(log.Contents(), Compact), fate)
      ensures ok == fate.Succeeds?
      ensures NamesRank(RankFile(rank), rank)
      ensures ok ==> forall name :: NamesRank(name, rank) ==>
                name in files && '\n' !in files[name] && ParseTrace(files[name]) == Some(log.Contents())
    {
      TraceLines(log.Contents(), Compact);
      TraceRoundTrip(log.Contents(), Compact);
      RankFileExact(RankFile(rank), rank);
      forall name | NamesRank(name, rank) { RankFileExact(name, rank); }
      var traces := TraceText(log.Contents(), Compact);
      ok := WriteFile(RankFile(rank), traces, fate);
    }

    // The Finalize event is stored and, only if that succeeded, the whole log is written out.
    method RegisterFinalize(log: TraceLog, e: Event, grows: bool, boxes: bool, fate: Fate) returns (outcome: Outcome)
      requires log.Valid() && e.MpiFinalize?
      modifies this, log, log.data
      ensures log.len <= log.data.Length && (outcome != Aborted ==> log.Valid())
      ensures log.data == old(log.data) || fresh(log.data)
      ensures outcome == OutcomeOf(old(log.GetShape()), grows, boxes)
      ensures outcome == Registered ==>
                && log.Contents() == old(log.Contents()) + [e]
                && files == Written(old(files), RankFile(e.currentRank), TraceText(log.Contents(), Compact), fate)
      ensures outcome != Registered ==> log.Contents() == old(log.Contents()) && files == old(files)
    {
      outcome := log.Register(e, grows, boxes);
      if outcome == Registered {
        var _ := Serialize(log, e.currentRank, fate);
      }
    }

    // Reads the directory entry by entry, in any order. It stops short, as the program panics, exactly when some
    // entry is unreadable.
    method DeserializeAllTraces() returns (traces: Option<seq<Event>>)
      modifies this
      ensures traces.Some? <==> AllReadable(old(files))
      ensures traces.Some? ==> files == old(files) - {MERGED}
      ensures traces.None? ==> files == old(files) || files == old(files) - {MERGED}
      ensures traces.Some? ==>
                forall names :: Lists(names, old(files)) ==>
                  multiset(traces.value) == multiset(Collected(old(files), names))
    {
      var todo := files.Keys;
      var events := [];
      ghost var seen: seq<string> := [];
      while todo != {}
        invariant ReadSoFar(old(files), files, todo, seen, events)
      {
        var name :| name in todo;
        var g := ReadEntry(Gather(files, events), name) by {
          assert name !in seen && SameFile(old(files), files, name);
        }
        ReadSoFarStep(old(files), files, todo, seen, events, name);
        if g.None? {
          ListedFiles(old(files), files, todo, seen);
          return None;
        }
        files, events := g.value.files, g.value.events;
        todo := todo - {name};
        seen := seen + [name];
      }
      traces := Some(events);
      ListedFiles(old(files), files, todo, seen);
      ReadEverything(old(files), files, seen, events);
    }

    // What rank 0 does at the end: read everything, sort by time stamp, write the merged trace.
    method SortAllTraces(readable: bool, fate: Fate) returns (panicked: bool, ghost merged: seq<Event>)
      modifies this
      ensures panicked <==> !AllReadable(old(files))
      ensures panicked ==> files == old(files) || files == old(files) - {MERGED}
      ensures !panicked ==> IsMerge(old(files), merged)
      ensures !panicked ==>
                files == Written(old(files) - {MERGED}, MERGED, TraceText(merged, StyleFor(readable)), fate)
      ensures !panicked && fate.Succeeds? ==>
                && "interpol_traces.json" in files && ParseTrace(files["interpol_traces.json"]) == Some(merged)
                && (merged != [] ==> (readable <==> '\n' in files["interpol_traces.json"]))
    {
      var traces := DeserializeAllTraces();
      if traces.None? {
        return true, [];
      }
      var events := traces.value;
      var all := new Event[|events|](i requires 0 <= i < |events| => events[i]);
      assert all[..] == events;
      SortUnstableByKey(all, Tsc);
      merged := all[..];
      var text := TraceText(all[..], StyleFor(readable));
      var _ := WriteFile(MERGED, text, fate);
      panicked := false;
      if merged != [] {
        LayoutChosen(merged, readable);
      }
      TraceRoundTrip(merged, StyleFor(readable));
    }
  }
}
