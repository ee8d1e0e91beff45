/** The text of a trace and of each of the fifteen records, character by character, in the form the tests of the event
    structs pin it. */
module RecordText {
  import opened Types
  import opened Numbers
  import opened Json
  import opened Codec

  function Separated(parts: seq<string>, mark: string): string {
    if parts == [] then ""
    else if |parts| == 1 then parts[0]
    else parts[0] + mark + Separated(parts[1..], mark)
  }

  lemma {:induction false} SeparatedLast(parts: seq<string>, mark: string, x: string)
    requires parts != []
    ensures Separated(parts + [x], mark) == Separated(parts, mark) + mark + x
  {
    var longer := parts + [x];
    assert longer[1..] == parts[1..] + [x];
    if |parts| > 1 {
      SeparatedLast(parts[1..], mark, x);
      Regrouped(parts[0] + mark, Separated(parts[1..], mark), mark, x);
    } else {
      assert longer[1..] == [x];
    }
  }

  lemma Regrouped(a: string, b: string, c: string, d: string)
    ensures a + (b + c + d) == (a + b) + c + d
  {
  }

  // ---------- objects and arrays ----------

  function MemberText(m: Member, style: Style, depth: nat): string {
    "\"" + m.key + (if style.Compact? then "\":" else "\": ") + Print(m.value, style, depth)
  }

  function MemberTexts(ms: seq<Member>, style: Style, depth: nat): seq<string> {
    seq(|ms|, i requires 0 <= i < |ms| => MemberText(ms[i], style, depth))
  }

  function ElemTexts(es: seq<Json>, style: Style, depth: nat): seq<string> {
    seq(|es|, i requires 0 <= i < |es| => Print(es[i], style, depth))
  }

  lemma KeyAndValue(line: string, key: string, style: Style, value: string)
    ensures line + Quoted(key) + (if style.Compact? then ":" else ": ") + value
            == line + ("\"" + key + (if style.Compact? then "\":" else "\": ") + value)
  {
  }

  lemma BeforeRest(line: string, first: string, rest: string)
    ensures line + first + ("," + (line + rest)) == line + (first + ("," + line) + rest)
  {
  }

  lemma {:induction false} MembersSeparated(ms: seq<Member>, style: Style, depth: nat)
    requires ms != []
    ensures PrintMembers(ms, style, depth)
            == Break(style, depth) + Separated(MemberTexts(ms, style, depth), "," + Break(style, depth))
  {
    var line, texts := Break(style, depth), MemberTexts(ms, style, depth);
    KeyAndValue(line, ms[0].key, style, Print(ms[0].value, style, depth));
    if |ms| > 1 {
      MembersSeparated(ms[1..], style, depth);
      assert texts[1..] == MemberTexts(ms[1..], style, depth);
      BeforeRest(line, texts[0], Separated(texts[1..], "," + line));
    }
  }

  lemma {:induction false} ElemsSeparated(es: seq<Json>, style: Style, depth: nat)
    requires es != []
    ensures PrintElems(es, style, depth)
            == Break(style, depth) + Separated(ElemTexts(es, style, depth), "," + Break(style, depth))
  {
    var line, texts := Break(style, depth), ElemTexts(es, style, depth);
    if |es| > 1 {
      ElemsSeparated(es[1..], style, depth);
      assert texts[1..] == ElemTexts(es[1..], style, depth);
      BeforeRest(line, texts[0], Separated(texts[1..], "," + line));
    }
  }

  // Compact text has no blanks at all: the members of an object are joined by commas.
  lemma CompactObject(ms: seq<Member>, depth: nat)
    requires ms != []
    ensures Print(JObj(ms), Compact, depth) == "{" + Separated(MemberTexts(ms, Compact, depth + 1), ",") + "}"
  {
    MembersSeparated(ms, Compact, depth + 1);
    assert "," + "" == ",";
    assert "" + Separated(MemberTexts(ms, Compact, depth + 1), ",")
           == Separated(MemberTexts(ms, Compact, depth + 1), ",");
  }

  // ---------- the members of a record ----------

  // A key and the text of a value.
  datatype Pair = Pair(key: string, value: string) {
    function Text(): string {
      "\"" + key + "\":" + value
    }
  }

  function Texts(pairs: seq<Pair>): seq<string> {
    seq(|pairs|, i requires 0 <= i < |pairs| => pairs[i].Text())
  }

  function Part(e: Event, f: Field): Pair {
    Pair(Name(f), Print(EncodeScalar(Get(e, f)), Compact, 1))
  }

  function Parts(e: Event, fs: seq<Field>): seq<Pair> {
    seq(|fs|, i requires 0 <= i < |fs| => Part(e, fs[i]))
  }

  lemma TextsApart(m: Member, rest: seq<Member>, style: Style, depth: nat)
    ensures MemberTexts([m] + rest, style, depth)
            == [MemberText(m, style, depth)] + MemberTexts(rest, style, depth)
  {
  }

  lemma PartsApart(e: Event, fs: seq<Field>)
    requires fs != []
    ensures Texts(Parts(e, fs)) == [Part(e, fs[0]).Text()] + Texts(Parts(e, fs[1..]))
  {
  }

  lemma ScalarPart(e: Event, f: Field, depth: nat)
    ensures MemberText(Member(Name(f), EncodeScalar(Get(e, f))), Compact, depth) == Part(e, f).Text()
  {
  }

  lemma {:induction false} MembersAreParts(e: Event, fs: seq<Field>, depth: nat)
    ensures MemberTexts(StructMembers(e, fs), Compact, depth) == Texts(Parts(e, fs))
  {
    if fs != [] {
      var m, rest := Member(Name(fs[0]), EncodeScalar(Get(e, fs[0]))), StructMembers(e, fs[1..]);
      MembersAreParts(e, fs[1..], depth);
      ScalarPart(e, fs[0], depth);
      TextsApart(m, rest, Compact, depth);
      PartsApart(e, fs);
    }
  }

  // The struct alone is written as these members between braces, and in a trace the same members follow the tag.
  ghost predicate Spelt(e: Event, tag: string, members: string) {
    && Print(JObj(StructMembers(e, Layout(e.Kind()))), Compact, 0) == "{" + members + "}"
    && Print(Encode(e), Compact, 1) == "{\"type\":\"" + tag + "\"," + members + "}"
  }

  lemma TagFirst(tag: string, body: string)
    ensures "{" + ("\"type\":" + ("\"" + tag + "\"") + "," + body) + "}" == "{\"type\":\"" + tag + "\"," + body + "}"
  {
  }

  lemma TaggedObject(tag: string, ms: seq<Member>, depth: nat)
    requires ms != []
    ensures Print(JObj([Member("type", JStr(tag))] + ms), Compact, depth)
            == "{\"type\":\"" + tag + "\"," + Separated(MemberTexts(ms, Compact, depth + 1), ",") + "}"
  {
    var all := [Member("type", JStr(tag))] + ms;
    var texts := MemberTexts(all, Compact, depth + 1);
    CompactObject(all, depth);
    assert texts[0] == "\"type\":" + ("\"" + tag + "\"");
    assert texts[1..] == MemberTexts(ms, Compact, depth + 1);
    TagFirst(tag, Separated(texts[1..], ","));
  }

  function Body(e: Event, fs: seq<Field>): string {
    Separated(Texts(Parts(e, fs)), ",")
  }

  lemma LayoutFilled(e: Event)
    ensures |StructMembers(e, Layout(e.Kind()))| > 0
  {
    var fs := Layout(e.Kind());
    MembersAreParts(e, fs, 1);
    assert |MemberTexts(StructMembers(e, fs), Compact, 1)| == |fs| > 0;
  }

  lemma SpeltByLayout(e: Event)
    ensures Spelt(e, StructName(e.Kind()), Body(e, Layout(e.Kind())))
  {
    var fs := Layout(e.Kind());
    LayoutFilled(e);
    MembersAreParts(e, fs, 1);
    MembersAreParts(e, fs, 2);
    CompactObject(StructMembers(e, fs), 0);
    TaggedObject(StructName(e.Kind()), StructMembers(e, fs), 1);
  }

  lemma BodyMore(e: Event, fs: seq<Field>, f: Field)
    requires fs != []
    ensures Body(e, fs + [f]) == Body(e, fs) + "," + Part(e, f).Text()
  {
    assert Texts(Parts(e, fs + [f])) == Texts(Parts(e, fs)) + [Part(e, f).Text()];
    SeparatedLast(Texts(Parts(e, fs)), ",", Part(e, f).Text());
  }

  lemma CommonParts(e: Event)
    ensures Part(e, FCurrentRank) == Pair("current_rank", Dec(e.currentRank))
    ensures Part(e, FTsc) == Pair("tsc", Dec(e.tsc))
  {
  }

  lemma PartnerRankPart(e: Event)
    requires e.MpiSend? || e.MpiRecv? || e.MpiIsend? || e.MpiIrecv? || e.MpiIbcast? || e.MpiIgather? || e.MpiIreduce?
             || e.MpiIscatter?
    ensures Part(e, FPartnerRank) == Pair("partner_rank", Dec(e.partnerRank))
  {
  }

  lemma NbBytesPart(e: Event)
    requires e.MpiSend? || e.MpiRecv? || e.MpiIsend? || e.MpiIrecv? || e.MpiIbcast? || e.MpiIreduce?
    ensures Part(e, FNbBytes) == Pair("nb_bytes", Dec(e.nbBytes))
  {
  }

  lemma NbBytesSendPart(e: Event)
    requires e.MpiIgather? || e.MpiIscatter?
    ensures Part(e, FNbBytesSend) == Pair("nb_bytes_send", Dec(e.nbBytesSend))
  {
  }

  lemma NbBytesRecvPart(e: Event)
    requires e.MpiIgather? || e.MpiIscatter?
    ensures Part(e, FNbBytesRecv) == Pair("nb_bytes_recv", Dec(e.nbBytesRecv))
  {
  }

  lemma OpTypePart(e: Event)
    requires e.MpiIreduce?
    ensures Part(e, FOpType) == Pair("op_type", "\"" + OpName(e.opType) + "\"")
  {
  }

  lemma CommPart(e: Event)
    requires !e.MpiInit? && !e.MpiInitThread? && !e.MpiFinalize? && !e.MpiTest? && !e.MpiWait?
    ensures Part(e, FComm) == Pair("comm", Dec(e.comm))
  {
  }

  lemma ReqPart(e: Event)
    requires !e.MpiInit? && !e.MpiInitThread? && !e.MpiFinalize? && !e.MpiSend? && !e.MpiRecv? && !e.MpiBarrier?
    ensures Part(e, FReq) == Pair("req", Dec(e.req))
  {
  }

  lemma TagPart(e: Event)
    requires e.MpiSend? || e.MpiRecv? || e.MpiIsend? || e.MpiIrecv?
    ensures Part(e, FTag) == Pair("tag", Dec(e.tag))
  {
  }

  lemma RequiredPart(e: Event)
    requires e.MpiInitThread?
    ensures Part(e, FRequired) == Pair("required_thread_lvl", Dec(e.requiredThreadLvl))
  {
  }

  lemma ProvidedPart(e: Event)
    requires e.MpiInitThread?
    ensures Part(e, FProvided) == Pair("provided_thread_lvl", Dec(e.providedThreadLvl))
  {
  }

  lemma FinishedPart(e: Event)
    requires e.MpiTest?
    ensures Part(e, FFinished) == Pair("finished", if e.finished then "true" else "false")
  {
  }

  lemma DurationPart(e: Event)
    requires !e.MpiInit? && !e.MpiInitThread? && !e.MpiFinalize?
    ensures Part(e, FDuration) == Pair("duration", Dec(e.duration))
  {
  }

  lemma TimePart(e: Event)
    requires e.MpiInit? || e.MpiInitThread? || e.MpiFinalize?
    ensures Part(e, FTime) == Pair("time", e.time)
  {
  }

  lemma BodyOfOne(e: Event, a: Field)
    ensures Body(e, [a]) == Part(e, a).Text()
  {
    assert Texts(Parts(e, [a])) == [Part(e, a).Text()];
  }

  lemma BodyOfThree(e: Event, a: Field, b: Field, c: Field)
    ensures Body(e, [a, b, c]) == Part(e, a).Text() + "," + Part(e, b).Text() + "," + Part(e, c).Text()
  {
    BodyOfOne(e, a);
    BodyMore(e, [a], b);
    BodyMore(e, [a] + [b], c);
    assert [a] + [b] + [c] == [a, b, c];
  }

  lemma BodyOfFour(e: Event, a: Field, b: Field, c: Field, d: Field)
    ensures Body(e, [a, b, c, d]) == Part(e, a).Text() + "," + Part(e, b).Text() + "," + Part(e, c).Text() + "," +
            Part(e, d).Text()
  {
    BodyOfThree(e, a, b, c);
    BodyMore(e, [a, b, c], d);
    assert [a, b, c] + [d] == [a, b, c, d];
  }

  lemma BodyOfFive(e: Event, a: Field, b: Field, c: Field, d: Field, f: Field)
    ensures Body(e, [a, b, c, d, f]) == Part(e, a).Text() + "," + Part(e, b).Text() + "," + Part(e, c).Text() + "," +
            Part(e, d).Text() + "," + Part(e, f).Text()
  {
    BodyOfFour(e, a, b, c, d);
    BodyMore(e, [a, b, c, d], f);
    assert [a, b, c, d] + [f] == [a, b, c, d, f];
  }

  lemma BodyOfSeven(e: Event, a: Field, b: Field, c: Field, d: Field, f: Field, g: Field, h: Field)
    ensures Body(e, [a, b, c, d, f, g, h]) == Part(e, a).Text() + "," + Part(e, b).Text() + "," +
            Part(e, c).Text() + "," + Part(e, d).Text() + "," + Part(e, f).Text() + "," + Part(e, g).Text() + "," +
            Part(e, h).Text()
  {
    BodyOfFive(e, a, b, c, d, f);
    BodyMore(e, [a, b, c, d, f], g);
    BodyMore(e, [a, b, c, d, f] + [g], h);
    assert [a, b, c, d, f] + [g] + [h] == [a, b, c, d, f, g, h];
  }

  lemma BodyOfEight(e: Event, a: Field, b: Field, c: Field, d: Field, f: Field, g: Field, h: Field, i: Field)
    ensures Body(e, [a, b, c, d, f, g, h, i]) == Part(e, a).Text() + "," + Part(e, b).Text() + "," +
            Part(e, c).Text() + "," + Part(e, d).Text() + "," + Part(e, f).Text() + "," + Part(e, g).Text() + "," +
            Part(e, h).Text() + "," + Part(e, i).Text()
  {
    BodyOfSeven(e, a, b, c, d, f, g, h);
    BodyMore(e, [a, b, c, d, f, g, h], i);
    assert [a, b, c, d, f, g, h] + [i] == [a, b, c, d, f, g, h, i];
  }

  lemma SpeltByThree(e: Event, tag: string, a: Field, b: Field, c: Field)
    requires StructName(e.Kind()) == tag && Layout(e.Kind()) == [a, b, c]
    ensures Spelt(e, tag, Part(e, a).Text() + "," + Part(e, b).Text() + "," + Part(e, c).Text())
  {
    BodyOfThree(e, a, b, c);
    SpeltByLayout(e);
  }

  lemma SpeltByFour(e: Event, tag: string, a: Field, b: Field, c: Field, d: Field)
    requires StructName(e.Kind()) == tag && Layout(e.Kind()) == [a, b, c, d]
    ensures Spelt(e, tag, Part(e, a).Text() + "," + Part(e, b).Text() + "," + Part(e, c).Text() + "," +
            Part(e, d).Text())
  {
    BodyOfFour(e, a, b, c, d);
    SpeltByLayout(e);
  }

  lemma SpeltByFive(e: Event, tag: string, a: Field, b: Field, c: Field, d: Field, f: Field)
    requires StructName(e.Kind()) == tag && Layout(e.Kind()) == [a, b, c, d, f]
    ensures Spelt(e, tag, Part(e, a).Text() + "," + Part(e, b).Text() + "," + Part(e, c).Text() + "," +
            Part(e, d).Text() + "," + Part(e, f).Text())
  {
    BodyOfFive(e, a, b, c, d, f);
    SpeltByLayout(e);
  }

  lemma SpeltBySeven(e: Event, tag: string, a: Field, b: Field, c: Field, d: Field, f: Field, g: Field, h: Field)
    requires StructName(e.Kind()) == tag && Layout(e.Kind()) == [a, b, c, d, f, g, h]
    ensures Spelt(e, tag, Part(e, a).Text() + "," + Part(e, b).Text() + "," + Part(e, c).Text() + "," +
            Part(e, d).Text() + "," + Part(e, f).Text() + "," + Part(e, g).Text() + "," + Part(e, h).Text())
  {
    BodyOfSeven(e, a, b, c, d, f, g, h);
    SpeltByLayout(e);
  }

  lemma SpeltByEight(e: Event, tag: string, a: Field, b: Field, c: Field, d: Field, f: Field, g: Field, h: Field,
                     i: Field)
    requires StructName(e.Kind()) == tag && Layout(e.Kind()) == [a, b, c, d, f, g, h, i]
    ensures Spelt(e, tag, Part(e, a).Text() + "," + Part(e, b).Text() + "," + Part(e, c).Text() + "," +
            Part(e, d).Text() + "," + Part(e, f).Text() + "," + Part(e, g).Text() + "," + Part(e, h).Text() + "," +
            Part(e, i).Text())
  {
    BodyOfEight(e, a, b, c, d, f, g, h, i);
    SpeltByLayout(e);
  }

  // ---------- the fifteen records ----------

  lemma Headers(k: MpiCallType)
    ensures match k
            case Init => StructName(k) == "MpiInit" && Layout(k) == [FCurrentRank, FTsc, FTime]
            case Initthread =>
              && StructName(k) == "MpiInitThread"
              && Layout(k) == [FCurrentRank, FRequired, FProvided, FTsc, FTime]
            case Finalize => StructName(k) == "MpiFinalize" && Layout(k) == [FCurrentRank, FTsc, FTime]
            case Send =>
              && StructName(k) == "MpiSend"
              && Layout(k) == [FCurrentRank, FPartnerRank, FNbBytes, FComm, FTag, FTsc, FDuration]
            case Recv =>
              && StructName(k) == "MpiRecv"
              && Layout(k) == [FCurrentRank, FPartnerRank, FNbBytes, FComm, FTag, FTsc, FDuration]
            case Isend =>
              && StructName(k) == "MpiIsend"
              && Layout(k) == [FCurrentRank, FPartnerRank, FNbBytes, FComm, FReq, FTag, FTsc, FDuration]
            case Irecv =>
              && StructName(k) == "MpiIrecv"
              && Layout(k) == [FCurrentRank, FPartnerRank, FNbBytes, FComm, FReq, FTag, FTsc, FDuration]
            case Barrier => StructName(k) == "MpiBarrier" && Layout(k) == [FCurrentRank, FComm, FTsc, FDuration]
            case Ibarrier =>
              && StructName(k) == "MpiIbarrier"
              && Layout(k) == [FCurrentRank, FComm, FReq, FTsc, FDuration]
            case Test => StructName(k) == "MpiTest" && Layout(k) == [FCurrentRank, FReq, FFinished, FTsc, FDuration]
            case Wait => StructName(k) == "MpiWait" && Layout(k) == [FCurrentRank, FReq, FTsc, FDuration]
            case Ibcast =>
              && StructName(k) == "MpiIbcast"
              && Layout(k) == [FCurrentRank, FPartnerRank, FNbBytes, FComm, FReq, FTsc, FDuration]
            case Igather =>
              && StructName(k) == "MpiIgather"
              && Layout(k) == [FCurrentRank, FPartnerRank, FNbBytesSend, FNbBytesRecv, FComm, FReq, FTsc, FDuration]
            case Iscatter =>
              && StructName(k) == "MpiIscatter"
              && Layout(k) == [FCurrentRank, FPartnerRank, FNbBytesSend, FNbBytesRecv, FComm, FReq, FTsc, FDuration]
            case Ireduce =>
              && StructName(k) == "MpiIreduce"
              && Layout(k) == [FCurrentRank, FPartnerRank, FNbBytes, FOpType, FComm, FReq, FTsc, FDuration]
  {
    match k
    case Init =>
    case Initthread =>
    case Finalize =>
    case Send =>
    case Recv =>
    case Isend =>
    case Irecv =>
    case Barrier =>
    case Ibarrier =>
    case Test =>
    case Wait =>
    case Ibcast =>
    case Igather =>
    case Iscatter =>
    case Ireduce =>
  }

  lemma InitText(rank: Int32, tsc: Uint64, time: Usecs)
    ensures Spelt(MpiInit(rank, tsc, time), "MpiInit",
                  Pair("current_rank", Dec(rank)).Text() + "," + Pair("tsc", Dec(tsc)).Text() + "," +
                  Pair("time", time).Text())
  {
    var e := MpiInit(rank, tsc, time);
    CommonParts(e);
    TimePart(e);
    Headers(Init);
    SpeltByThree(e, "MpiInit", FCurrentRank, FTsc, FTime);
  }

  lemma InitThreadText(rank: Int32, required: Int32, provided: Int32, tsc: Uint64, time: Usecs)
    ensures Spelt(MpiInitThread(rank, required, provided, tsc, time), "MpiInitThread",
                  Pair("current_rank", Dec(rank)).Text() + "," +
                  Pair("required_thread_lvl", Dec(required)).Text() + "," +
                  Pair("provided_thread_lvl", Dec(provided)).Text() + "," + Pair("tsc", Dec(tsc)).Text() + "," +
                  Pair("time", time).Text())
  {
    var e := MpiInitThread(rank, required, provided, tsc, time);
    CommonParts(e);
    RequiredPart(e);
    ProvidedPart(e);
    TimePart(e);
    Headers(Initthread);
    SpeltByFive(e, "MpiInitThread", FCurrentRank, FRequired, FProvided, FTsc, FTime);
  }

  lemma FinalizeText(rank: Int32, tsc: Uint64, time: Usecs)
    ensures Spelt(MpiFinalize(rank, tsc, time), "MpiFinalize",
                  Pair("current_rank", Dec(rank)).Text() + "," + Pair("tsc", Dec(tsc)).Text() + "," +
                  Pair("time", time).Text())
  {
    var e := MpiFinalize(rank, tsc, time);
    CommonParts(e);
    TimePart(e);
    Headers(Finalize);
    SpeltByThree(e, "MpiFinalize", FCurrentRank, FTsc, FTime);
  }

  lemma SendText(rank: Int32, partner: Int32, bytes: Uint32, comm: Int32, tag: Int32, tsc: Uint64, duration: Uint64)
    ensures Spelt(MpiSend(rank, partner, bytes, comm, tag, tsc, duration), "MpiSend",
                  Pair("current_rank", Dec(rank)).Text() + "," + Pair("partner_rank", Dec(partner)).Text() + "," +
                  Pair("nb_bytes", Dec(bytes)).Text() + "," + Pair("comm", Dec(comm)).Text() + "," +
                  Pair("tag", Dec(tag)).Text() + "," + Pair("tsc", Dec(tsc)).Text() + "," +
                  Pair("duration", Dec(duration)).Text())
  {
    var e := MpiSend(rank, partner, bytes, comm, tag, tsc, duration);
    CommonParts(e);
    PartnerRankPart(e);
    NbBytesPart(e);
    CommPart(e);
    TagPart(e);
    DurationPart(e);
    Headers(Send);
    SpeltBySeven(e, "MpiSend", FCurrentRank, FPartnerRank, FNbBytes, FComm, FTag, FTsc, FDuration);
  }

  lemma RecvText(rank: Int32, partner: Int32, bytes: Uint32, comm: Int32, tag: Int32, tsc: Uint64, duration: Uint64)
    ensures Spelt(MpiRecv(rank, partner, bytes, comm, tag, tsc, duration), "MpiRecv",
                  Pair("current_rank", Dec(rank)).Text() + "," + Pair("partner_rank", Dec(partner)).Text() + "," +
                  Pair("nb_bytes", Dec(bytes)).Text() + "," + Pair("comm", Dec(comm)).Text() + "," +
                  Pair("tag", Dec(tag)).Text() + "," + Pair("tsc", Dec(tsc)).Text() + "," +
                  Pair("duration", Dec(duration)).Text())
  {
    var e := MpiRecv(rank, partner, bytes, comm, tag, tsc, duration);
    CommonParts(e);
    PartnerRankPart(e);
    NbBytesPart(e);
    CommPart(e);
    TagPart(e);
    DurationPart(e);
    Headers(Recv);
    SpeltBySeven(e, "MpiRecv", FCurrentRank, FPartnerRank, FNbBytes, FComm, FTag, FTsc, FDuration);
  }

  lemma IsendText(rank: Int32, partner: Int32, bytes: Uint32, comm: Int32, req: Int32, tag: Int32, tsc: Uint64,
                  duration: Uint64)
    ensures Spelt(MpiIsend(rank, partner, bytes, comm, req, tag, tsc, duration), "MpiIsend",
                  Pair("current_rank", Dec(rank)).Text() + "," + Pair("partner_rank", Dec(partner)).Text() + "," +
                  Pair("nb_bytes", Dec(bytes)).Text() + "," + Pair("comm", Dec(comm)).Text() + "," +
                  Pair("req", Dec(req)).Text() + "," + Pair("tag", Dec(tag)).Text() + "," +
                  Pair("tsc", Dec(tsc)).Text() + "," + Pair("duration", Dec(duration)).Text())
  {
    var e := MpiIsend(rank, partner, bytes, comm, req, tag, tsc, duration);
    CommonParts(e);
    PartnerRankPart(e);
    NbBytesPart(e);
    CommPart(e);
    ReqPart(e);
    TagPart(e);
    DurationPart(e);
    Headers(Isend);
    SpeltByEight(e, "MpiIsend", FCurrentRank, FPartnerRank, FNbBytes, FComm, FReq, FTag, FTsc, FDuration);
  }

  lemma IrecvText(rank: Int32, partner: Int32, bytes: Uint32, comm: Int32, req: Int32, tag: Int32, tsc: Uint64,
                  duration: Uint64)
    ensures Spelt(MpiIrecv(rank, partner, bytes, comm, req, tag, tsc, duration), "MpiIrecv",
                  Pair("current_rank", Dec(rank)).Text() + "," + Pair("partner_rank", Dec(partner)).Text() + "," +
                  Pair("nb_bytes", Dec(bytes)).Text() + "," + Pair("comm", Dec(comm)).Text() + "," +
                  Pair("req", Dec(req)).Text() + "," + Pair("tag", Dec(tag)).Text() + "," +
                  Pair("tsc", Dec(tsc)).Text() + "," + Pair("duration", Dec(duration)).Text())
  {
    var e := MpiIrecv(rank, partner, bytes, comm, req, tag, tsc, duration);
    CommonParts(e);
    PartnerRankPart(e);
    NbBytesPart(e);
    CommPart(e);
    ReqPart(e);
    TagPart(e);
    DurationPart(e);
    Headers(Irecv);
    SpeltByEight(e, "MpiIrecv", FCurrentRank, FPartnerRank, FNbBytes, FComm, FReq, FTag, FTsc, FDuration);
  }

  lemma BarrierText(rank: Int32, comm: Int32, tsc: Uint64, duration: Uint64)
    ensures Spelt(MpiBarrier(rank, comm, tsc, duration), "MpiBarrier",
                  Pair("current_rank", Dec(rank)).Text() + "," + Pair("comm", Dec(comm)).Text() + "," +
                  Pair("tsc", Dec(tsc)).Text() + "," + Pair("duration", Dec(duration)).Text())
  {
    var e := MpiBarrier(rank, comm, tsc, duration);
    CommonParts(e);
    CommPart(e);
    DurationPart(e);
    Headers(Barrier);
    SpeltByFour(e, "MpiBarrier", FCurrentRank, FComm, FTsc, FDuration);
  }

  lemma IbarrierText(rank: Int32, comm: Int32, req: Int32, tsc: Uint64, duration: Uint64)
    ensures Spelt(MpiIbarrier(rank, comm, req, tsc, duration), "MpiIbarrier",
                  Pair("current_rank", Dec(rank)).Text() + "," + Pair("comm", Dec(comm)).Text() + "," +
                  Pair("req", Dec(req)).Text() + "," + Pair("tsc", Dec(tsc)).Text() + "," +
                  Pair("duration", Dec(duration)).Text())
  {
    var e := MpiIbarrier(rank, comm, req, tsc, duration);
    CommonParts(e);
    CommPart(e);
    ReqPart(e);
    DurationPart(e);
    Headers(Ibarrier);
    SpeltByFive(e, "MpiIbarrier", FCurrentRank, FComm, FReq, FTsc, FDuration);
  }

  lemma TestText(rank: Int32, req: Int32, finished: bool, tsc: Uint64, duration: Uint64)
    ensures Spelt(MpiTest(rank, req, finished, tsc, duration), "MpiTest",
                  Pair("current_rank", Dec(rank)).Text() + "," + Pair("req", Dec(req)).Text() + "," +
                  Pair("finished", if finished then "true" else "false").Text() + "," +
                  Pair("tsc", Dec(tsc)).Text() + "," + Pair("duration", Dec(duration)).Text())
  {
    var e := MpiTest(rank, req, finished, tsc, duration);
    CommonParts(e);
    ReqPart(e);
    DurationPart(e);
    FinishedPart(e);
    Headers(Test);
    SpeltByFive(e, "MpiTest", FCurrentRank, FReq, FFinished, FTsc, FDuration);
  }

  lemma WaitText(rank: Int32, req: Int32, tsc: Uint64, duration: Uint64)
    ensures Spelt(MpiWait(rank, req, tsc, duration), "MpiWait",
                  Pair("current_rank", Dec(rank)).Text() + "," + Pair("req", Dec(req)).Text() + "," +
                  Pair("tsc", Dec(tsc)).Text() + "," + Pair("duration", Dec(duration)).Text())
  {
    var e := MpiWait(rank, req, tsc, duration);
    CommonParts(e);
    ReqPart(e);
    DurationPart(e);
    Headers(Wait);
    SpeltByFour(e, "MpiWait", FCurrentRank, FReq, FTsc, FDuration);
  }

  lemma IbcastText(rank: Int32, partner: Int32, bytes: Uint32, comm: Int32, req: Int32, tsc: Uint64, duration: Uint64)
    ensures Spelt(MpiIbcast(rank, partner, bytes, comm, req, tsc, duration), "MpiIbcast",
                  Pair("current_rank", Dec(rank)).Text() + "," + Pair("partner_rank", Dec(partner)).Text() + "," +
                  Pair("nb_bytes", Dec(bytes)).Text() + "," + Pair("comm", Dec(comm)).Text() + "," +
                  Pair("req", Dec(req)).Text() + "," + Pair("tsc", Dec(tsc)).Text() + "," +
                  Pair("duration", Dec(duration)).Text())
  {
    var e := MpiIbcast(rank, partner, bytes, comm, req, tsc, duration);
    CommonParts(e);
    PartnerRankPart(e);
    NbBytesPart(e);
    CommPart(e);
    ReqPart(e);
    DurationPart(e);
    Headers(Ibcast);
    SpeltBySeven(e, "MpiIbcast", FCurrentRank, FPartnerRank, FNbBytes, FComm, FReq, FTsc, FDuration);
  }

  lemma IgatherText(rank: Int32, partner: Int32, sent: Uint32, received: Uint32, comm: Int32, req: Int32,
                    tsc: Uint64, duration: Uint64)
    ensures Spelt(MpiIgather(rank, partner, sent, received, comm, req, tsc, duration), "MpiIgather",
                  Pair("current_rank", Dec(rank)).Text() + "," + Pair("partner_rank", Dec(partner)).Text() + "," +
                  Pair("nb_bytes_send", Dec(sent)).Text() + "," + Pair("nb_bytes_recv", Dec(received)).Text() + "," +
                  Pair("comm", Dec(comm)).Text() + "," + Pair("req", Dec(req)).Text() + "," +
                  Pair("tsc", Dec(tsc)).Text() + "," + Pair("duration", Dec(duration)).Text())
  {
    var e := MpiIgather(rank, partner, sent, received, comm, req, tsc, duration);
    CommonParts(e);
    PartnerRankPart(e);
    NbBytesSendPart(e);
    NbBytesRecvPart(e);
    CommPart(e);
    ReqPart(e);
    DurationPart(e);
    Headers(Igather);
    SpeltByEight(e, "MpiIgather", FCurrentRank, FPartnerRank, FNbBytesSend, FNbBytesRecv, FComm, FReq, FTsc,
                 FDuration);
  }

  lemma IscatterText(rank: Int32, partner: Int32, sent: Uint32, received: Uint32, comm: Int32, req: Int32,
                     tsc: Uint64, duration: Uint64)
    ensures Spelt(MpiIscatter(rank, partner, sent, received, comm, req, tsc, duration), "MpiIscatter",
                  Pair("current_rank", Dec(rank)).Text() + "," + Pair("partner_rank", Dec(partner)).Text() + "," +
                  Pair("nb_bytes_send", Dec(sent)).Text() + "," + Pair("nb_bytes_recv", Dec(received)).Text() + "," +
                  Pair("comm", Dec(comm)).Text() + "," + Pair("req", Dec(req)).Text() + "," +
                  Pair("tsc", Dec(tsc)).Text() + "," + Pair("duration", Dec(duration)).Text())
  {
    var e := MpiIscatter(rank, partner, sent, received, comm, req, tsc, duration);
    CommonParts(e);
    PartnerRankPart(e);
    NbBytesSendPart(e);
    NbBytesRecvPart(e);
    CommPart(e);
    ReqPart(e);
    DurationPart(e);
    Headers(Iscatter);
    SpeltByEight(e, "MpiIscatter", FCurrentRank, FPartnerRank, FNbBytesSend, FNbBytesRecv, FComm, FReq, FTsc,
                 FDuration);
  }

  lemma IreduceText(rank: Int32, partner: Int32, bytes: Uint32, op: MpiOp, comm: Int32, req: Int32, tsc: Uint64,
                    duration: Uint64)
    ensures var operator :=
              match op
              case Opnull => "Opnull" case Max => "Max" case Min => "Min" case Sum => "Sum"
              case Prod => "Prod" case Land => "Land" case Band => "Band" case Lor => "Lor"
              case Bor => "Bor" case Lxor => "Lxor" case Bxor => "Bxor" case Minloc => "Minloc"
              case Maxloc => "Maxloc" case Replace => "Replace";
            Spelt(MpiIreduce(rank, partner, bytes, op, comm, req, tsc, duration), "MpiIreduce",
                  Pair("current_rank", Dec(rank)).Text() + "," + Pair("partner_rank", Dec(partner)).Text() + "," +
                  Pair("nb_bytes", Dec(bytes)).Text() + "," + Pair("op_type", "\"" + operator + "\"").Text() + "," +
                  Pair("comm", Dec(comm)).Text() + "," + Pair("req", Dec(req)).Text() + "," +
                  Pair("tsc", Dec(tsc)).Text() + "," + Pair("duration", Dec(duration)).Text())
  {
    var e := MpiIreduce(rank, partner, bytes, op, comm, req, tsc, duration);
    CommonParts(e);
    PartnerRankPart(e);
    NbBytesPart(e);
    CommPart(e);
    ReqPart(e);
    DurationPart(e);
    OpTypePart(e);
    Headers(Ireduce);
    SpeltByEight(e, "MpiIreduce", FCurrentRank, FPartnerRank, FNbBytes, FOpType, FComm, FReq, FTsc, FDuration);
  }

  // ---------- whole traces ----------

  function RecordTexts(log: seq<Event>, style: Style): seq<string> {
    seq(|log|, i requires 0 <= i < |log| => Print(Encode(log[i]), style, 1))
  }

  lemma PrettyLines()
    ensures Break(Pretty, 0) == "\n" && Break(Pretty, 1) == "\n  " && Break(Pretty, 2) == "\n    "
  {
    assert Spaces(2) == "  ";
    assert Spaces(4) == " " + (" " + Spaces(2));
  }

  // A compact trace is its records between brackets, joined by commas. In a pretty trace each record starts on a line
  // of its own, two spaces further in, and each of its members four.
  lemma TraceSpelled(log: seq<Event>)
    requires log != []
    ensures TraceText(log, Compact) == "[" + Separated(RecordTexts(log, Compact), ",") + "]"
    ensures TraceText(log, Pretty) == "[" + ("\n  " + Separated(RecordTexts(log, Pretty), ",\n  ")) + "\n" + "]"
  {
    var es := EncodeAll(log).elems;
    assert ElemTexts(es, Compact, 1) == RecordTexts(log, Compact);
    assert ElemTexts(es, Pretty, 1) == RecordTexts(log, Pretty);
    ElemsSeparated(es, Compact, 1);
    ElemsSeparated(es, Pretty, 1);
    PrettyLines();
    assert "," + "" == "," && "," + "\n  " == ",\n  ";
    assert "" + Separated(RecordTexts(log, Compact), ",") == Separated(RecordTexts(log, Compact), ",");
  }

  lemma PrettyRecord(e: Event)
    ensures Print(Encode(e), Pretty, 1)
            == "{" + ("\n    " + Separated(MemberTexts(Encode(e).members, Pretty, 2), ",\n    ")) + "\n  " + "}"
  {
    MembersSeparated(Encode(e).members, Pretty, 2);
    PrettyLines();
    assert "," + "\n    " == ",\n    ";
  }
}
