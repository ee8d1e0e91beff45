/** The trace directory: one file a rank, and the merged trace that rank 0 writes. */
module Traces {
  import opened Types
  import opened Numbers
  import opened Codec
  import opened Sort
  import opened Sequences

  type Files = map<string, string>

  // ---------- file names ----------

  const MERGED := "interpol_traces.json"

  function RankFile(rank: Int32): string {
    "rank" + Dec(rank) + "_traces.json"
  }

  function LastDot(name: string): (i: int)
    ensures -1 <= i < |name|
  {
    if name == "" then -1
    else if name[|name| - 1] == '.' then |name| - 1
    else LastDot(name[..|name| - 1])
  }

  // What follows the last dot, unless there is none or it is the first character.
  function Extension(name: string): Option<string> {
    var i := LastDot(name);
    if i <= 0 then None else Some(name[i + 1..])
  }

  predicate IsTrace(name: string) {
    name != MERGED && Extension(name) == Some("json")
  }

  lemma {:induction false} LastDotBefore(a: string, b: string)
    requires '.' !in b
    ensures LastDot(a + "." + b) == |a|
  {
    var s := a + "." + b;
    if b != "" {
      var b' := b[..|b| - 1];
      assert s[|s| - 1] == b[|b| - 1];
      assert s[..|s| - 1] == a + "." + b';
      LastDotBefore(a, b');
    }
  }

  // No two ranks share a file, and every rank file is one the reader takes up.
  lemma RankFiles(a: Int32, b: Int32)
    ensures RankFile(a) == RankFile(b) <==> a == b
    ensures RankFile(a) != MERGED && IsTrace(RankFile(a))
  {
    var name := RankFile(a);
    if name == RankFile(b) {
      assert Dec(a) == name[4..|name| - 12] == RankFile(b)[4..|name| - 12] == Dec(b);
      ParseIntegerExact(Dec(a), a);
      ParseIntegerExact(Dec(a), b);
    }
    assert name[0] == 'r' && MERGED[0] == 'i';
    var stem := "rank" + Dec(a) + "_traces";
    assert name == stem + "." + "json";
    LastDotBefore(stem, "json");
    assert name[|stem| + 1..] == "json";
  }

  // The file is named after the rank, in decimal.
  predicate NamesRank(name: string, rank: int) {
    && |name| > 16 && name[..4] == "rank" && name[|name| - 12..] == "_traces.json"
    && ParseInteger(name[4..|name| - 12]) == Integer(rank)
  }

  lemma RankFileExact(name: string, rank: Int32)
    ensures NamesRank(name, rank) <==> name == RankFile(rank)
  {
    if name == RankFile(rank) {
      assert name[4..|name| - 12] == Dec(rank);
      ParseIntegerExact(Dec(rank), rank);
    }
    if NamesRank(name, rank) {
      var number := name[4..|name| - 12];
      ParseIntegerExact(number, rank);
      assert name == name[..4] + number + name[|name| - 12..];
    }
  }

  lemma {:induction false} LastDotLast(name: string)
    ensures LastDot(name) == -1 <==> '.' !in name
    ensures LastDot(name) >= 0 ==> name[LastDot(name)] == '.' && '.' !in name[LastDot(name) + 1..]
  {
    if name != "" {
      var front := name[..|name| - 1];
      LastDotLast(front);
      assert name == front + [name[|name| - 1]];
      if name[|name| - 1] != '.' && LastDot(name) >= 0 {
        assert name[LastDot(name) + 1..] == front[LastDot(name) + 1..] + [name[|name| - 1]];
      }
    }
  }

  lemma ExtensionParts(name: string, extension: string) returns (stem: string)
    requires Extension(name) == Some(extension)
    ensures stem != "" && name == stem + "." + extension && '.' !in extension
  {
    LastDotLast(name);
    stem := name[..LastDot(name)];
  }

  lemma ExtensionOf(stem: string, extension: string)
    requires stem != "" && '.' !in extension
    ensures Extension(stem + "." + extension) == Some(extension)
  {
    LastDotBefore(stem, extension);
    assert (stem + "." + extension)[|stem| + 1..] == extension;
  }

  // A name has an extension if and only if it has a dot with something before it, and the extension is what follows
  // the last one.
  lemma ExtensionExact(name: string, extension: string)
    ensures Extension(name) == Some(extension) <==>
              exists stem :: stem != "" && name == stem + "." + extension && '.' !in extension
  {
    if Extension(name) == Some(extension) {
      var stem := ExtensionParts(name, extension);
    }
    if stem :| stem != "" && name == stem + "." + extension && '.' !in extension {
      ExtensionOf(stem, extension);
    }
  }

  // ---------- writing ----------

  datatype Fate = Succeeds | OpenFails | WriteStops(after: nat)

  // A file is truncated when it is opened and then written; a write that fails may leave part of the text.
  function Written(files: Files, name: string, text: string, fate: Fate): Files {
    match fate
    case Succeeds => files[name := text]
    case OpenFails => files
    case WriteStops(k) => files[name := Clip(text, k)]
  }

  function Clip(text: string, k: nat): string {
    if k <= |text| then text[..k] else text
  }

  // ---------- reading back ----------

  // What rank 0 has taken from the directory so far.
  datatype Gather = Gather(files: Files, events: seq<Event>)

  // One directory entry: an old merged trace is removed, another JSON file is read and parsed, anything else with
  // an extension is passed over. None is the panic on a missing extension or an unreadable trace.
  function ReadEntry(g: Gather, name: string): Option<Gather>
    requires name in g.files
  {
    if name == MERGED then Some(Gather(g.files - {name}, g.events))
    else
      var extension :- Extension(name);
      if extension == "json" then
        var events :- ParseTrace(g.files[name]);
        Some(Gather(g.files, g.events + events))
      else Some(g)
  }

  predicate Readable(files: Files, name: string)
    requires name in files
  {
    name == MERGED || (Extension(name).Some? && (IsTrace(name) ==> ParseTrace(files[name]).Some?))
  }

  ghost predicate AllReadable(files: Files) {
    forall name :: name in files ==> Readable(files, name)
  }

  // The events a directory entry contributes.
  function Contribution(files: Files, name: string): seq<Event> {
    if name in files && IsTrace(name) then ParseTrace(files[name]).GetOr([]) else []
  }

  function Contributions(files: Files): string -> seq<Event> {
    name => Contribution(files, name)
  }

  function Collected(files: Files, names: seq<string>): seq<Event> {
    FlatMap(names, Contributions(files))
  }

  lemma ReadEntryMeaning(g: Gather, files: Files, name: string)
    requires name in g.files && name in files && g.files[name] == files[name]
    ensures ReadEntry(g, name).Some? <==> Readable(files, name)
    ensures Readable(files, name) <==>
              || name == "interpol_traces.json"
              || (Extension(name).Some? && (Extension(name).value == "json" ==> ParseTrace(files[name]).Some?))
    ensures ReadEntry(g, name).Some? ==>
              ReadEntry(g, name).value == Gather(g.files - (if name == MERGED then {MERGED} else {}),
                                                 g.events + Contribution(files, name))
  {
    assert g.events + [] == g.events;
    assert g.files - {} == g.files;
  }

  // ---------- the order of the directory listing ----------

  ghost predicate Lists(names: seq<string>, files: Files) {
    NoRepeats(names) && forall name :: name in names <==> name in files
  }

  // The same names, listed in any order, contribute the same events.
  lemma CollectedAnyOrder(files: Files, a: seq<string>, b: seq<string>)
    requires NoRepeats(a) && NoRepeats(b) && forall name :: name in a <==> name in b
    ensures multiset(Collected(files, a)) == multiset(Collected(files, b))
  {
    FlatMapAnyOrder(a, b, Contributions(files));
  }

  // m is a merged trace of the directory: all the events of its rank files, sorted by time stamp.
  ghost predicate IsMerge(files: Files, m: seq<Event>) {
    && Sorted(m, Tsc)
    && forall names :: Lists(names, files) ==> multiset(m) == multiset(Collected(files, names))
  }

  function Tsc(e: Event): int {
    e.tsc
  }

  // The listing order does not matter: merged traces of one directory have the same time stamps in the same
  // places and the same events for each time stamp, and are equal when no two events share one.
  lemma MergesAgree(files: Files, m: seq<Event>, m': seq<Event>, names: seq<string>)
    requires IsMerge(files, m) && IsMerge(files, m') && Lists(names, files)
    ensures Keys(m, Tsc) == Keys(m', Tsc)
    ensures forall k :: multiset(Filter(m, HasKey(Tsc, k))) == multiset(Filter(m', HasKey(Tsc, k)))
    ensures StrictlySorted(m', Tsc) ==> m == m'
  {
    SortedArrangements(m, m', Tsc);
    if StrictlySorted(m', Tsc) {
      SortedUnique(m, m', Tsc);
    }
  }

  lemma MergeFrom(files: Files, m: seq<Event>, names: seq<string>)
    requires Sorted(m, Tsc) && Lists(names, files) && multiset(m) == multiset(Collected(files, names))
    ensures IsMerge(files, m)
  {
    forall other | Lists(other, files)
      ensures multiset(m) == multiset(Collected(files, other))
    {
      CollectedAnyOrder(files, names, other);
    }
  }

  ghost predicate SameTraces(files: Files, files': Files) {
    forall name :: IsTrace(name) ==>
      (name in files <==> name in files') && (name in files ==> files[name] == files'[name])
  }

  // Only the rank files matter. In particular an earlier merged trace is never read back, so sorting again,
  // any number of times, neither loses nor repeats an event.
  lemma SameTracesSameMerge(files: Files, files': Files, m: seq<Event>)
    requires SameTraces(files, files') && IsMerge(files, m)
    ensures IsMerge(files', m)
  {
    var names, traces := TraceNames(files);
    var names', traces' := TraceNames(files');
    CollectedAnyOrder(files, traces, traces');
    FlatMapSame(traces', Contributions(files), Contributions(files'));
    MergeFrom(files', m, names');
  }

  lemma TraceNames(files: Files) returns (names: seq<string>, traces: seq<string>)
    ensures Lists(names, files) && Collected(files, names) == Collected(files, traces)
    ensures NoRepeats(traces) && forall name :: name in traces <==> name in files && IsTrace(name)
  {
    names := SetAsSequence(files.Keys);
    traces := ListedTraces(files, names);
  }

  lemma MergedFileIgnored(files: Files, text: string, m: seq<Event>)
    ensures IsMerge(files[MERGED := text], m) <==> IsMerge(files, m)
    ensures IsMerge(files - {MERGED}, m) <==> IsMerge(files, m)
  {
    var all := {files, files[MERGED := text], files - {MERGED}};
    forall a, b | a in all && b in all && IsMerge(a, m)
      ensures IsMerge(b, m)
    {
      SameTracesSameMerge(a, b, m);
    }
  }

  // ---------- reading entry by entry ----------

  ghost predicate SameFile(files: Files, files': Files, name: string) {
    (name in files <==> name in files') && (name in files ==> files[name] == files'[name])
  }

  // Rank 0 has seen these names and has those to do left; only the file named stale may have gone.
  ghost predicate Listing(stale: string, listed: Files, files: Files, todo: set<string>, seen: seq<string>) {
    && NoRepeats(seen)
    && (forall name :: name != stale ==> SameFile(listed, files, name))
    && (if stale in seen then stale !in files else SameFile(listed, files, stale))
    && (forall name :: name in listed <==> name in seen || name in todo)
    && (forall name :: name in seen ==> name !in todo)
  }

  ghost predicate SeenReadable(listed: Files, seen: seq<string>) {
    forall name :: name in seen ==> name in listed && Readable(listed, name)
  }

  ghost predicate ReadSoFar(listed: Files, files: Files, todo: set<string>, seen: seq<string>, events: seq<Event>) {
    && Listing(MERGED, listed, files, todo, seen)
    && SeenReadable(listed, seen)
    && events == Collected(listed, seen)
  }

  lemma ListingNext(stale: string, listed: Files, files: Files, todo: set<string>, seen: seq<string>, name: string)
    requires Listing(stale, listed, files, todo, seen) && name in todo
    ensures Listing(stale, listed, files - (if name == stale then {stale} else {}), todo - {name}, seen + [name])
    ensures name in listed && (name in files ==> files[name] == listed[name])
  {
    var files' := files - (if name == stale then {stale} else {});
    assert name !in seen;
    assert SameFile(listed, files, name) || name == stale;
    forall other | other != stale
      ensures SameFile(listed, files', other)
    {
      assert SameFile(listed, files, other);
    }
  }

  lemma ReadSoFarStep(listed: Files, files: Files, todo: set<string>, seen: seq<string>, events: seq<Event>,
                      name: string)
    requires ReadSoFar(listed, files, todo, seen, events) && name in todo && name in files
    ensures match ReadEntry(Gather(files, events), name)
            case None => !AllReadable(listed)
            case Some(g) => ReadSoFar(listed, g.files, todo - {name}, seen + [name], g.events)
  {
    var g := Gather(files, events);
    ListingNext(MERGED, listed, files, todo, seen, name);
    ReadEntryMeaning(g, listed, name);
    if ReadEntry(g, name).Some? {
      FlatMapLast(seen, name, Contributions(listed));
      SeenNext(listed, seen, name);
    }
  }

  lemma SeenNext(listed: Files, seen: seq<string>, name: string)
    requires SeenReadable(listed, seen) && name in listed && Readable(listed, name)
    ensures SeenReadable(listed, seen + [name])
  {
  }

  lemma ReadEverything(listed: Files, files: Files, seen: seq<string>, events: seq<Event>)
    requires ReadSoFar(listed, files, {}, seen, events)
    ensures AllReadable(listed) && MERGED !in files
    ensures forall names :: Lists(names, listed) ==> multiset(events) == multiset(Collected(listed, names))
  {
    forall names | Lists(names, listed)
      ensures multiset(events) == multiset(Collected(listed, names))
    {
      CollectedAnyOrder(listed, seen, names);
    }
  }

  // What is left of the directory meanwhile.
  lemma ListedFiles(listed: Files, files: Files, todo: set<string>, seen: seq<string>)
    requires Listing(MERGED, listed, files, todo, seen)
    ensures files == if MERGED in seen then listed - {MERGED} else listed
  {
    var rest := if MERGED in seen then listed - {MERGED} else listed;
    forall name
      ensures SameFile(files, rest, name)
    {
      assert name == MERGED || SameFile(listed, files, name);
    }
    SameFilesSameMap(files, rest);
  }

  lemma SameFilesSameMap(a: Files, b: Files)
    requires forall name :: SameFile(a, b, name)
    ensures a == b
  {
    assert forall name :: name in a ==> SameFile(a, b, name);
    assert forall name :: name in b ==> SameFile(a, b, name);
  }

  // ---------- sorting again ----------

  // The directory after sorting again any number of times, each time leaving some text, or nothing, as the merged
  // trace.
  function Resorted(files: Files, texts: seq<Option<string>>): Files {
    if texts == [] then files
    else
      var before, text := Resorted(files, texts[..|texts| - 1]), texts[|texts| - 1];
      if text.None? then before - {MERGED} else before[MERGED := text.value]
  }

  lemma {:induction false} ResortedSameTraces(files: Files, texts: seq<Option<string>>)
    ensures SameTraces(files, Resorted(files, texts)) && SameTraces(Resorted(files, texts), files)
  {
    if texts != [] {
      ResortedSameTraces(files, texts[..|texts| - 1]);
    }
  }

  // However often the traces are sorted, the outcome has the same events: they never multiply.
  lemma SortedAgain(files: Files, texts: seq<Option<string>>, m: seq<Event>, m': seq<Event>)
    requires IsMerge(files, m) && IsMerge(Resorted(files, texts), m')
    ensures multiset(m) == multiset(m')
  {
    ResortedSameTraces(files, texts);
    SameTracesSameMerge(Resorted(files, texts), files, m');
    var names := SetAsSequence(files.Keys);
    assert Lists(names, files);
  }

  // ---------- what the rank files of a run amount to ----------

  const MAX_RANKS := 0x8000_0000

  function RankNames(n: nat): seq<string>
    requires n <= MAX_RANKS
  {
    seq(n, r requires 0 <= r < n => RankFile(r))
  }

  // The directory's traces are exactly the files of ranks 0, 1, ... and they hold these logs.
  ghost predicate RanksHold(files: Files, logs: seq<seq<Event>>) {
    && |logs| <= MAX_RANKS
    && (forall r :: 0 <= r < |logs| ==> RankFile(r) in files && ParseTrace(files[RankFile(r)]) == Some(logs[r]))
    && (forall name :: name in files && IsTrace(name) ==> name in RankNames(|logs|))
  }

  lemma RanksHoldWithMerged(files: Files, text: string, logs: seq<seq<Event>>)
    requires RanksHold(files, logs)
    ensures RanksHold(files[MERGED := text], logs)
  {
    forall r | 0 <= r < |logs| { RankFiles(r, r); }
  }

  lemma {:induction false} CollectedRankNames(files: Files, logs: seq<seq<Event>>, n: nat)
    requires RanksContribute(files, logs) && n <= |logs|
    ensures Collected(files, RankNames(n)) == Flatten(logs[..n])
  {
    if n > 0 {
      CollectedRankNames(files, logs, n - 1);
      assert RankNames(n)[..n - 1] == RankNames(n - 1);
      assert logs[..n][..n - 1] == logs[..n - 1];
    }
  }

  lemma RankNamesNoRepeats(n: nat)
    requires n <= MAX_RANKS
    ensures NoRepeats(RankNames(n))
    ensures forall name :: name in RankNames(n) ==> IsTrace(name)
  {
    forall i, j | 0 <= i < j < n
      ensures RankNames(n)[i] != RankNames(n)[j]
    {
      RankFiles(i, j);
    }
    forall name | name in RankNames(n)
      ensures IsTrace(name)
    {
      var r :| 0 <= r < n && RankNames(n)[r] == name;
      RankFiles(r, r);
    }
  }

  // Ranks 0, 1, ... contribute these logs; a rank without a file contributes nothing.
  ghost predicate RanksContribute(files: Files, logs: seq<seq<Event>>) {
    && |logs| <= MAX_RANKS
    && forall r :: 0 <= r < |logs| ==> Contribution(files, RankFile(r)) == logs[r]
  }

  // The trace files that belong to none of these ranks.
  ghost predicate OtherTraces(files: Files, n: nat, others: seq<string>)
    requires n <= MAX_RANKS
  {
    NoRepeats(others) && forall name :: name in others <==> name in files && IsTrace(name) && name !in RankNames(n)
  }

  lemma OtherTracesListed(files: Files, n: nat) returns (others: seq<string>)
    requires n <= MAX_RANKS
    ensures OtherTraces(files, n, others)
  {
    var names, traces := TraceNames(files);
    var other: string -> bool := name => name !in RankNames(n);
    others := Filter(traces, other);
    FilterMembers(traces, other);
    FilterNoRepeats(traces, other);
  }

  lemma HeldContribute(files: Files, logs: seq<seq<Event>>)
    requires RanksHold(files, logs)
    ensures RanksContribute(files, logs) && OtherTraces(files, |logs|, [])
  {
    forall r | 0 <= r < |logs| { RankFiles(r, r); }
  }

  function InDirectory(files: Files): string -> bool {
    name => name in files
  }

  // The traces of a directory, those of the ranks first.
  lemma TracesByRank(files: Files, n: nat, others: seq<string>) returns (ranks: seq<string>)
    requires n <= MAX_RANKS && OtherTraces(files, n, others)
    ensures Collected(files, ranks) == Collected(files, RankNames(n)) && NoRepeats(ranks)
    ensures forall name :: name in ranks <==> name in RankNames(n) && name in files
    ensures forall name :: name in ranks ==> IsTrace(name)
  {
    ranks := Filter(RankNames(n), InDirectory(files));
    RankNamesNoRepeats(n);
    FilterMembers(RankNames(n), InDirectory(files));
    FilterNoRepeats(RankNames(n), InDirectory(files));
    FlatMapFilter(RankNames(n), InDirectory(files), Contributions(files));
  }

  lemma NoRepeatsConcat<T>(a: seq<T>, b: seq<T>)
    requires NoRepeats(a) && NoRepeats(b) && forall x :: x in a ==> x !in b
    ensures NoRepeats(a + b)
  {
    assert forall i :: 0 <= i < |a| ==> a[i] in a;
    assert forall j :: |a| <= j < |a| + |b| ==> (a + b)[j] in b;
  }

  lemma ListedTraces(files: Files, names: seq<string>) returns (traces: seq<string>)
    requires Lists(names, files)
    ensures Collected(files, names) == Collected(files, traces)
    ensures NoRepeats(traces) && forall name :: name in traces <==> name in files && IsTrace(name)
  {
    traces := Filter(names, IsTrace);
    FilterMembers(names, IsTrace);
    FilterNoRepeats(names, IsTrace);
    FlatMapFilter(names, IsTrace, Contributions(files));
  }

  // Whatever order the directory is listed in, exactly the logs are collected and whatever other trace files hold.
  lemma CollectedLogs(files: Files, logs: seq<seq<Event>>, others: seq<string>, names: seq<string>)
    requires RanksContribute(files, logs) && OtherTraces(files, |logs|, others) && Lists(names, files)
    ensures multiset(Collected(files, names)) == multiset(Flatten(logs)) + multiset(Collected(files, others))
  {
    var n := |logs|;
    var traces := ListedTraces(files, names);
    var ranks := TracesByRank(files, n, others);
    NoRepeatsConcat(ranks, others);
    forall name
      ensures name in traces <==> name in ranks + others
    {
      assert name in ranks + others <==> name in ranks || name in others;
    }
    CollectedAnyOrder(files, traces, ranks + others);
    FlatMapConcat(ranks, others, Contributions(files));
    CollectedRankNames(files, logs, n);
    assert logs[..n] == logs;
  }
}
