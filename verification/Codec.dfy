/** Event records as JSON objects and traces as JSON text. The order of the fields in a record is the order
    in which the event structs declare them; a record starts with a member "type" that holds the struct's name. */
module Codec {
  import opened Types
  import opened Numbers
  import opened Json

  datatype Field =
    | FCurrentRank | FPartnerRank | FNbBytes | FNbBytesSend | FNbBytesRecv | FOpType | FComm | FReq | FTag
    | FRequired | FProvided | FFinished | FTsc | FDuration | FTime

  function Name(f: Field): string {
    match f
    case FCurrentRank => "current_rank"
    case FPartnerRank => "partner_rank"
    case FNbBytes => "nb_bytes"
    case FNbBytesSend => "nb_bytes_send"
    case FNbBytesRecv => "nb_bytes_recv"
    case FOpType => "op_type"
    case FComm => "comm"
    case FReq => "req"
    case FTag => "tag"
    case FRequired => "required_thread_lvl"
    case FProvided => "provided_thread_lvl"
    case FFinished => "finished"
    case FTsc => "tsc"
    case FDuration => "duration"
    case FTime => "time"
  }

  function StructName(k: MpiCallType): string {
    match k
    case Init => "MpiInit"
    case Initthread => "MpiInitThread"
    case Finalize => "MpiFinalize"
    case Send => "MpiSend"
    case Recv => "MpiRecv"
    case Isend => "MpiIsend"
    case Irecv => "MpiIrecv"
    case Test => "MpiTest"
    case Wait => "MpiWait"
    case Barrier => "MpiBarrier"
    case Ibarrier => "MpiIbarrier"
    case Ibcast => "MpiIbcast"
    case Igather => "MpiIgather"
    case Ireduce => "MpiIreduce"
    case Iscatter => "MpiIscatter"
  }

  function OpName(o: MpiOp): string {
    match o
    case Opnull => "Opnull"
    case Max => "Max"
    case Min => "Min"
    case Sum => "Sum"
    case Prod => "Prod"
    case Land => "Land"
    case Band => "Band"
    case Lor => "Lor"
    case Bor => "Bor"
    case Lxor => "Lxor"
    case Bxor => "Bxor"
    case Minloc => "Minloc"
    case Maxloc => "Maxloc"
    case Replace => "Replace"
  }

  // The fields of each struct, in order.
  function Layout(k: MpiCallType): seq<Field> {
    match k
    case Init => [FCurrentRank, FTsc, FTime]
    case Initthread => [FCurrentRank, FRequired, FProvided, FTsc, FTime]
    case Finalize => [FCurrentRank, FTsc, FTime]
    case Send => [FCurrentRank, FPartnerRank, FNbBytes, FComm, FTag, FTsc, FDuration]
    case Recv => [FCurrentRank, FPartnerRank, FNbBytes, FComm, FTag, FTsc, FDuration]
    case Isend => [FCurrentRank, FPartnerRank, FNbBytes, FComm, FReq, FTag, FTsc, FDuration]
    case Irecv => [FCurrentRank, FPartnerRank, FNbBytes, FComm, FReq, FTag, FTsc, FDuration]
    case Test => [FCurrentRank, FReq, FFinished, FTsc, FDuration]
    case Wait => [FCurrentRank, FReq, FTsc, FDuration]
    case Barrier => [FCurrentRank, FComm, FTsc, FDuration]
    case Ibarrier => [FCurrentRank, FComm, FReq, FTsc, FDuration]
    case Ibcast => [FCurrentRank, FPartnerRank, FNbBytes, FComm, FReq, FTsc, FDuration]
    case Igather => [FCurrentRank, FPartnerRank, FNbBytesSend, FNbBytesRecv, FComm, FReq, FTsc, FDuration]
    case Ireduce => [FCurrentRank, FPartnerRank, FNbBytes, FOpType, FComm, FReq, FTsc, FDuration]
    case Iscatter => [FCurrentRank, FPartnerRank, FNbBytesSend, FNbBytesRecv, FComm, FReq, FTsc, FDuration]
  }

  datatype Scalar = Absent | IntV(n: int) | BoolV(b: bool) | OpV(op: MpiOp) | TimeV(t: Usecs)

  function Get(e: Event, f: Field): Scalar {
    match f
    case FCurrentRank => IntV(e.currentRank)
    case FTsc => IntV(e.tsc)
    case FPartnerRank =>
      if e.MpiSend? || e.MpiRecv? || e.MpiIsend? || e.MpiIrecv? || e.MpiIbcast? || e.MpiIgather? || e.MpiIreduce?
         || e.MpiIscatter? then IntV(e.partnerRank) else Absent
    case FNbBytes =>
      if e.MpiSend? || e.MpiRecv? || e.MpiIsend? || e.MpiIrecv? || e.MpiIbcast? || e.MpiIreduce?
      then IntV(e.nbBytes) else Absent
    case FNbBytesSend => if e.MpiIgather? || e.MpiIscatter? then IntV(e.nbBytesSend) else Absent
    case FNbBytesRecv => if e.MpiIgather? || e.MpiIscatter? then IntV(e.nbBytesRecv) else Absent
    case FOpType => if e.MpiIreduce? then OpV(e.opType) else Absent
    case FComm =>
      if e.MpiInit? || e.MpiInitThread? || e.MpiFinalize? || e.MpiTest? || e.MpiWait? then Absent else IntV(e.comm)
    case FReq =>
      if e.MpiInit? || e.MpiInitThread? || e.MpiFinalize? || e.MpiSend? || e.MpiRecv? || e.MpiBarrier?
      then Absent else IntV(e.req)
    case FTag => if e.MpiSend? || e.MpiRecv? || e.MpiIsend? || e.MpiIrecv? then IntV(e.tag) else Absent
    case FRequired => if e.MpiInitThread? then IntV(e.requiredThreadLvl) else Absent
    case FProvided => if e.MpiInitThread? then IntV(e.providedThreadLvl) else Absent
    case FFinished => if e.MpiTest? then BoolV(e.finished) else Absent
    case FDuration => if e.MpiInit? || e.MpiInitThread? || e.MpiFinalize? then Absent else IntV(e.duration)
    case FTime => if e.MpiInit? || e.MpiInitThread? || e.MpiFinalize? then TimeV(e.time) else Absent
  }

  // ---------- writing a record ----------

  function EncodeScalar(v: Scalar): Json {
    match v
    case Absent => JNull
    case IntV(n) => JNum(Dec(n))
    case BoolV(b) => JBool(b)
    case OpV(o) => JStr(OpName(o))
    case TimeV(t) => JNum(t)
  }

  function StructMembers(e: Event, fs: seq<Field>): seq<Member> {
    if fs == [] then []
    else [Member(Name(fs[0]), EncodeScalar(Get(e, fs[0])))] + StructMembers(e, fs[1..])
  }

  function Encode(e: Event): Json {
    JObj([Member("type", JStr(StructName(e.Kind())))] + StructMembers(e, Layout(e.Kind())))
  }

  function EncodeAll(log: seq<Event>): Json {
    JArr(seq(|log|, i requires 0 <= i < |log| => Encode(log[i])))
  }

  function TraceText(log: seq<Event>, style: Style): string {
    Print(EncodeAll(log), style, 0)
  }

  // ---------- reading a record ----------

  function Values(ms: seq<Member>, key: string): seq<Json> {
    if ms == [] then []
    else if ms[0].key == key then [ms[0].value] + Values(ms[1..], key)
    else Values(ms[1..], key)
  }

  // The value of a member that must be there exactly once; its place and other members do not matter.
  function Lookup(ms: seq<Member>, key: string): Option<Json> {
    var vs := Values(ms, key);
    if |vs| == 1 then Some(vs[0]) else None
  }

  // The member at i has this name and value, and no other has the name.
  ghost predicate OnlyMember(ms: seq<Member>, key: string, v: Json, i: int) {
    0 <= i < |ms| && ms[i] == Member(key, v) && forall k :: 0 <= k < |ms| && ms[k].key == key ==> k == i
  }

  lemma {:induction false} NoValues(ms: seq<Member>, key: string)
    ensures Values(ms, key) == [] <==> forall k :: 0 <= k < |ms| ==> ms[k].key != key
  {
    if ms != [] {
      NoValues(ms[1..], key);
      assert forall k :: 1 <= k < |ms| ==> ms[k] == ms[1..][k - 1];
    }
  }

  lemma {:induction false} OneValue(ms: seq<Member>, key: string, v: Json)
    requires Values(ms, key) == [v]
    ensures exists i :: OnlyMember(ms, key, v, i)
  {
    NoValues(ms[1..], key);
    assert forall k :: 1 <= k < |ms| ==> ms[k] == ms[1..][k - 1];
    if ms[0].key == key {
      assert Values(ms, key) == [ms[0].value] + Values(ms[1..], key);
      assert Values(ms, key)[0] == ms[0].value && |Values(ms[1..], key)| == 0;
      assert OnlyMember(ms, key, v, 0);
    } else {
      OneValue(ms[1..], key, v);
      var i :| OnlyMember(ms[1..], key, v, i);
      assert OnlyMember(ms, key, v, i + 1);
    }
  }

  lemma {:induction false} OnlyValue(ms: seq<Member>, key: string, v: Json, i: int)
    requires OnlyMember(ms, key, v, i)
    ensures Values(ms, key) == [v]
  {
    assert forall k :: 1 <= k < |ms| ==> ms[k] == ms[1..][k - 1];
    if i == 0 {
      NoValues(ms[1..], key);
    } else {
      assert ms[0].key != key;
      OnlyValue(ms[1..], key, v, i - 1);
    }
  }

  // A member is found if and only if it is the only one of its name.
  lemma LookupExact(ms: seq<Member>, key: string, v: Json)
    ensures Lookup(ms, key) == Some(v) <==> exists i :: OnlyMember(ms, key, v, i)
  {
    if Lookup(ms, key) == Some(v) {
      assert Values(ms, key) == [v];
      OneValue(ms, key, v);
    }
    if i :| OnlyMember(ms, key, v, i) {
      OnlyValue(ms, key, v, i);
    }
  }

  // The values a field of each Rust type can take: i32, u32, u64, bool, MpiOp and f64.
  predicate Fits(f: Field, v: Scalar) {
    match f
    case FTsc => v.IntV? && 0 <= v.n < TWO_64
    case FDuration => v.IntV? && 0 <= v.n < TWO_64
    case FNbBytes => v.IntV? && 0 <= v.n < 0x1_0000_0000
    case FNbBytesSend => v.IntV? && 0 <= v.n < 0x1_0000_0000
    case FNbBytesRecv => v.IntV? && 0 <= v.n < 0x1_0000_0000
    case FOpType => v.OpV?
    case FFinished => v.BoolV?
    case FTime => v.TimeV?
    case _ => v.IntV? && -0x8000_0000 <= v.n < 0x8000_0000
  }

  function OpNamed(s: string): Option<MpiOp> {
    if s == "Opnull" then Some(Opnull)
    else if s == "Max" then Some(Max)
    else if s == "Min" then Some(Min)
    else if s == "Sum" then Some(Sum)
    else if s == "Prod" then Some(Prod)
    else if s == "Land" then Some(Land)
    else if s == "Band" then Some(Band)
    else if s == "Lor" then Some(Lor)
    else if s == "Bor" then Some(Bor)
    else if s == "Lxor" then Some(Lxor)
    else if s == "Bxor" then Some(Bxor)
    else if s == "Minloc" then Some(Minloc)
    else if s == "Maxloc" then Some(Maxloc)
    else if s == "Replace" then Some(Replace)
    else None
  }

  function KindNamed(s: string): Option<MpiCallType> {
    if s == "MpiInit" then Some(Init)
    else if s == "MpiInitThread" then Some(Initthread)
    else if s == "MpiFinalize" then Some(Finalize)
    else if s == "MpiSend" then Some(Send)
    else if s == "MpiRecv" then Some(Recv)
    else if s == "MpiIsend" then Some(Isend)
    else if s == "MpiIrecv" then Some(Irecv)
    else if s == "MpiTest" then Some(Test)
    else if s == "MpiWait" then Some(Wait)
    else if s == "MpiBarrier" then Some(Barrier)
    else if s == "MpiIbarrier" then Some(Ibarrier)
    else if s == "MpiIbcast" then Some(Ibcast)
    else if s == "MpiIgather" then Some(Igather)
    else if s == "MpiIreduce" then Some(Ireduce)
    else if s == "MpiIscatter" then Some(Iscatter)
    else None
  }

  function ReadLexeme(f: Field, l: string): Scalar {
    if f == FTime then
      if IsJsonNumber(l) then TimeV(l) else Absent
    else
      match ParseInteger(l)
      case NotAnInteger => Absent
      case Integer(n) => IntV(n)
  }

  function ReadScalar(f: Field, v: Json): Scalar {
    match v
    case JNum(l) => ReadLexeme(f, l)
    case JBool(b) => BoolV(b)
    case JStr(s) => (match OpNamed(s) case None => Absent case Some(o) => OpV(o))
    case _ => Absent
  }

  // A field that is missing, repeated, of the wrong type or out of range is absent.
  function ReadField(ms: seq<Member>, f: Field): (v: Scalar)
    ensures v != Absent ==> Fits(f, v)
  {
    match Lookup(ms, Name(f))
    case None => Absent
    case Some(j) => if Fits(f, ReadScalar(f, j)) then ReadScalar(f, j) else Absent
  }

  type Row = r: map<Field, Scalar> | forall f :: f in r ==> Fits(f, r[f])

  function RowOf(ms: seq<Member>): Row {
    map f: Field | ReadField(ms, f) != Absent :: ReadField(ms, f)
  }

  // The structs of each group, if every one of their fields could be read.
  function BuildManagement(k: MpiCallType, r: Row): Option<Event> {
    match k
    case Init =>
      if FCurrentRank in r && FTsc in r && FTime in r then
        Some(MpiInit(r[FCurrentRank].n, r[FTsc].n, r[FTime].t))
      else None
    case Initthread =>
      if FCurrentRank in r && FRequired in r && FProvided in r && FTsc in r && FTime in r then
        Some(MpiInitThread(r[FCurrentRank].n, r[FRequired].n, r[FProvided].n, r[FTsc].n, r[FTime].t))
      else None
    case Finalize =>
      if FCurrentRank in r && FTsc in r && FTime in r then
        Some(MpiFinalize(r[FCurrentRank].n, r[FTsc].n, r[FTime].t))
      else None
    case _ => None
  }

  function BuildPointToPoint(k: MpiCallType, r: Row): Option<Event> {
    match k
    case Send =>
      if FCurrentRank in r && FPartnerRank in r && FNbBytes in r &&
         FComm in r && FTag in r && FTsc in r && FDuration in r
      then
        Some(MpiSend(r[FCurrentRank].n, r[FPartnerRank].n, r[FNbBytes].n, r[FComm].n, r[FTag].n, r[FTsc].n,
            r[FDuration].n))
      else None
    case Recv =>
      if FCurrentRank in r && FPartnerRank in r && FNbBytes in r &&
         FComm in r && FTag in r && FTsc in r && FDuration in r
      then
        Some(MpiRecv(r[FCurrentRank].n, r[FPartnerRank].n, r[FNbBytes].n, r[FComm].n, r[FTag].n, r[FTsc].n,
            r[FDuration].n))
      else None
    case Isend =>
      if FCurrentRank in r && FPartnerRank in r && FNbBytes in r &&
         FComm in r && FReq in r && FTag in r && FTsc in r && FDuration in r
      then
        Some(MpiIsend(r[FCurrentRank].n, r[FPartnerRank].n, r[FNbBytes].n, r[FComm].n, r[FReq].n, r[FTag].n,
            r[FTsc].n, r[FDuration].n))
      else None
    case Irecv =>
      if FCurrentRank in r && FPartnerRank in r && FNbBytes in r &&
         FComm in r && FReq in r && FTag in r && FTsc in r && FDuration in r
      then
        Some(MpiIrecv(r[FCurrentRank].n, r[FPartnerRank].n, r[FNbBytes].n, r[FComm].n, r[FReq].n, r[FTag].n,
            r[FTsc].n, r[FDuration].n))
      else None
    case _ => None
  }

  function BuildSynchronization(k: MpiCallType, r: Row): Option<Event> {
    match k
    case Test =>
      if FCurrentRank in r && FReq in r && FFinished in r && FTsc in r && FDuration in r then
        Some(MpiTest(r[FCurrentRank].n, r[FReq].n, r[FFinished].b, r[FTsc].n, r[FDuration].n))
      else None
    case Wait =>
      if FCurrentRank in r && FReq in r && FTsc in r && FDuration in r then
        Some(MpiWait(r[FCurrentRank].n, r[FReq].n, r[FTsc].n, r[FDuration].n))
      else None
    case Barrier =>
      if FCurrentRank in r && FComm in r && FTsc in r && FDuration in r then
        Some(MpiBarrier(r[FCurrentRank].n, r[FComm].n, r[FTsc].n, r[FDuration].n))
      else None
    case Ibarrier =>
      if FCurrentRank in r && FComm in r && FReq in r && FTsc in r && FDuration in r then
        Some(MpiIbarrier(r[FCurrentRank].n, r[FComm].n, r[FReq].n, r[FTsc].n, r[FDuration].n))
      else None
    case _ => None
  }

  function BuildCollective(k: MpiCallType, r: Row): Option<Event> {
    match k
    case Ibcast =>
      if FCurrentRank in r && FPartnerRank in r && FNbBytes in r &&
         FComm in r && FReq in r && FTsc in r && FDuration in r
      then
        Some(MpiIbcast(r[FCurrentRank].n, r[FPartnerRank].n, r[FNbBytes].n, r[FComm].n, r[FReq].n, r[FTsc].n,
            r[FDuration].n))
      else None
    case Igather =>
      if FCurrentRank in r && FPartnerRank in r && FNbBytesSend in r && FNbBytesRecv in r &&
         FComm in r && FReq in r && FTsc in r && FDuration in r
      then
        Some(MpiIgather(r[FCurrentRank].n, r[FPartnerRank].n, r[FNbBytesSend].n, r[FNbBytesRecv].n, r[FComm].n,
            r[FReq].n, r[FTsc].n, r[FDuration].n))
      else None
    case Ireduce =>
      if FCurrentRank in r && FPartnerRank in r && FNbBytes in r && FOpType in r &&
         FComm in r && FReq in r && FTsc in r && FDuration in r
      then
        Some(MpiIreduce(r[FCurrentRank].n, r[FPartnerRank].n, r[FNbBytes].n, r[FOpType].op, r[FComm].n, r[FReq].n,
            r[FTsc].n, r[FDuration].n))
      else None
    case Iscatter =>
      if FCurrentRank in r && FPartnerRank in r && FNbBytesSend in r && FNbBytesRecv in r &&
         FComm in r && FReq in r && FTsc in r && FDuration in r
      then
        Some(MpiIscatter(r[FCurrentRank].n, r[FPartnerRank].n, r[FNbBytesSend].n, r[FNbBytesRecv].n, r[FComm].n,
            r[FReq].n, r[FTsc].n, r[FDuration].n))
      else None
    case _ => None
  }

  function Build(k: MpiCallType, r: Row): Option<Event> {
    match k
    case Init | Initthread | Finalize => BuildManagement(k, r)
    case Send | Recv | Isend | Irecv => BuildPointToPoint(k, r)
    case Test | Wait | Barrier | Ibarrier => BuildSynchronization(k, r)
    case Ibcast | Igather | Ireduce | Iscatter => BuildCollective(k, r)
  }

  function Decode(v: Json): Option<Event> {
    if !v.JObj? then None
    else
      var tag :- Lookup(v.members, "type");
      if !tag.JStr? then None
      else
        var k :- KindNamed(tag.s);
        Build(k, RowOf(v.members))
  }

  function DecodeAll(vs: seq<Json>): Option<seq<Event>> {
    if vs == [] then Some([])
    else
      var e :- Decode(vs[0]);
      var es :- DecodeAll(vs[1..]);
      Some([e] + es)
  }

  function ParseTrace(text: string): Option<seq<Event>> {
    var v :- Parse(text);
    if v.JArr? then DecodeAll(v.elems) else None
  }

  // ---------- reading is exactly the inverse of writing ----------

  lemma NamesDiffer(f: Field, g: Field)
    ensures Name(f) == Name(g) ==> f == g
    ensures Name(f) != "type"
  {
    var a, b := Name(f), Name(g);
    assert a == b ==> |a| == |b| && a[0] == b[0] && a[2] == b[2] && (|a| > 9 ==> a[9] == b[9]);
    assert a[2] != 'p';
  }

  lemma OpNamedExact(s: string, o: MpiOp)
    ensures OpNamed(s) == Some(o) <==> s == OpName(o)
  {
  }

  lemma KindNamedExact(s: string, k: MpiCallType)
    ensures KindNamed(s) == Some(k) <==> s == StructName(k)
  {
  }

  lemma ReadIntegerExact(f: Field, j: Json, n: int)
    requires Fits(f, IntV(n))
    ensures ReadScalar(f, j) == IntV(n) <==> j == JNum(Dec(n))
  {
    if j.JNum? {
      ParseIntegerExact(j.lexeme, n);
    }
  }

  lemma ReadOperatorExact(f: Field, j: Json, o: MpiOp)
    requires Fits(f, OpV(o))
    ensures ReadScalar(f, j) == OpV(o) <==> j == JStr(OpName(o))
  {
    if j.JStr? {
      OpNamedExact(j.s, o);
    }
  }

  lemma ReadScalarExact(f: Field, j: Json, v: Scalar)
    requires Fits(f, v)
    ensures ReadScalar(f, j) == v <==> j == EncodeScalar(v)
  {
    match v
    case IntV(n) => ReadIntegerExact(f, j, n);
    case OpV(o) => ReadOperatorExact(f, j, o);
    case BoolV(b) =>
    case TimeV(t) =>
    case Absent =>
  }

  lemma ReadFieldExact(ms: seq<Member>, f: Field, v: Scalar)
    requires Fits(f, v)
    ensures ReadField(ms, f) == v <==> Lookup(ms, Name(f)) == Some(EncodeScalar(v))
  {
    var j := Lookup(ms, Name(f));
    if j.Some? {
      ReadScalarExact(f, j.value, v);
    }
  }

  predicate Has(r: Row, f: Field, v: Scalar) {
    f in r && r[f] == v
  }

  ghost predicate HasField(r: Row, e: Event, f: Field) {
    Get(e, f) != Absent ==> Has(r, f, Get(e, f))
  }

  // The row holds all that e's struct stores.
  ghost predicate Holds(r: Row, e: Event) {
    forall f: Field :: HasField(r, e, f)
  }

  lemma StoredAs(r: Row, e: Event, f: Field, v: Scalar)
    requires Holds(r, e) && Get(e, f) == v && v != Absent
    ensures Has(r, f, v)
  {
    assert HasField(r, e, f);
  }

  ghost predicate NoDuplicates(fs: seq<Field>) {
    forall i, j :: 0 <= i < j < |fs| ==> fs[i] != fs[j]
  }

  lemma LayoutHasNoDuplicates(k: MpiCallType)
    ensures NoDuplicates(Layout(k))
  {
    match k
    case Init =>
    case Initthread =>
    case Finalize =>
    case Send =>
    case Recv =>
    case Isend =>
    case Irecv =>
    case Test =>
    case Wait =>
    case Barrier =>
    case Ibarrier =>
    case Ibcast =>
    case Igather =>
    case Ireduce =>
    case Iscatter =>
  }

  lemma ManagementLayout(e: Event, f: Field)
    requires e.Kind() in {Init, Initthread, Finalize}
    ensures Get(e, f) != Absent ==> f in Layout(e.Kind())
  {
  }

  lemma ManagementStored(e: Event, f: Field)
    requires e.Kind() in {Init, Initthread, Finalize} && f in Layout(e.Kind())
    ensures Get(e, f) != Absent
  {
  }

  lemma PointToPointLayout(e: Event, f: Field)
    requires e.Kind() in {Send, Recv, Isend, Irecv}
    ensures Get(e, f) != Absent ==> f in Layout(e.Kind())
  {
  }

  lemma PointToPointStored(e: Event, f: Field)
    requires e.Kind() in {Send, Recv, Isend, Irecv} && f in Layout(e.Kind())
    ensures Get(e, f) != Absent
  {
  }

  lemma SynchronizationLayout(e: Event, f: Field)
    requires e.Kind() in {Test, Wait, Barrier, Ibarrier}
    ensures Get(e, f) != Absent ==> f in Layout(e.Kind())
  {
  }

  lemma SynchronizationStored(e: Event, f: Field)
    requires e.Kind() in {Test, Wait, Barrier, Ibarrier} && f in Layout(e.Kind())
    ensures Get(e, f) != Absent
  {
  }

  lemma CollectiveLayout(e: Event, f: Field)
    requires e.Kind() in {Ibcast, Igather, Ireduce, Iscatter}
    ensures Get(e, f) != Absent ==> f in Layout(e.Kind())
  {
  }

  lemma CollectiveStored(e: Event, f: Field)
    requires e.Kind() in {Ibcast, Igather, Ireduce, Iscatter} && f in Layout(e.Kind())
    ensures Get(e, f) != Absent
  {
  }

  // What is written of an event is all that its struct stores.
  lemma LayoutComplete(e: Event, f: Field)
    ensures f in Layout(e.Kind()) <==> Get(e, f) != Absent
  {
    match e.Kind()
    case Init | Initthread | Finalize =>
      ManagementLayout(e, f);
      if f in Layout(e.Kind()) { ManagementStored(e, f); }
    case Send | Recv | Isend | Irecv =>
      PointToPointLayout(e, f);
      if f in Layout(e.Kind()) { PointToPointStored(e, f); }
    case Test | Wait | Barrier | Ibarrier =>
      SynchronizationLayout(e, f);
      if f in Layout(e.Kind()) { SynchronizationStored(e, f); }
    case Ibcast | Igather | Ireduce | Iscatter =>
      CollectiveLayout(e, f);
      if f in Layout(e.Kind()) { CollectiveStored(e, f); }
  }

  lemma BuildManagementSound(r: Row, e: Event, f: Field)
    requires e.Kind() in {Init, Initthread, Finalize}
    requires BuildManagement(e.Kind(), r) == Some(e)
    ensures HasField(r, e, f)
  {
  }

  lemma BuildPointToPointSound(r: Row, e: Event, f: Field)
    requires e.Kind() in {Send, Recv, Isend, Irecv}
    requires BuildPointToPoint(e.Kind(), r) == Some(e)
    ensures HasField(r, e, f)
  {
  }

  lemma BuildSynchronizationSound(r: Row, e: Event, f: Field)
    requires e.Kind() in {Test, Wait, Barrier, Ibarrier}
    requires BuildSynchronization(e.Kind(), r) == Some(e)
    ensures HasField(r, e, f)
  {
  }

  lemma BuildCollectiveSound(r: Row, e: Event, f: Field)
    requires e.Kind() in {Ibcast, Igather, Ireduce, Iscatter}
    requires BuildCollective(e.Kind(), r) == Some(e)
    ensures HasField(r, e, f)
  {
  }

  lemma BuildSound(r: Row, e: Event, f: Field)
    requires Build(e.Kind(), r) == Some(e)
    ensures HasField(r, e, f)
  {
    match e.Kind()
    case Init | Initthread | Finalize => BuildManagementSound(r, e, f);
    case Send | Recv | Isend | Irecv => BuildPointToPointSound(r, e, f);
    case Test | Wait | Barrier | Ibarrier => BuildSynchronizationSound(r, e, f);
    case Ibcast | Igather | Ireduce | Iscatter => BuildCollectiveSound(r, e, f);
  }

  lemma CompleteInit(r: Row, e: Event)
    requires e.MpiInit? && Holds(r, e)
    ensures Build(Init, r) == Some(e)
  {
    StoredAs(r, e, FCurrentRank, IntV(e.currentRank));
    StoredAs(r, e, FTsc, IntV(e.tsc));
    StoredAs(r, e, FTime, TimeV(e.time));
  }

  lemma CompleteInitthread(r: Row, e: Event)
    requires e.MpiInitThread? && Holds(r, e)
    ensures Build(Initthread, r) == Some(e)
  {
    StoredAs(r, e, FCurrentRank, IntV(e.currentRank));
    StoredAs(r, e, FRequired, IntV(e.requiredThreadLvl));
    StoredAs(r, e, FProvided, IntV(e.providedThreadLvl));
    StoredAs(r, e, FTsc, IntV(e.tsc));
    StoredAs(r, e, FTime, TimeV(e.time));
  }

  lemma CompleteFinalize(r: Row, e: Event)
    requires e.MpiFinalize? && Holds(r, e)
    ensures Build(Finalize, r) == Some(e)
  {
    StoredAs(r, e, FCurrentRank, IntV(e.currentRank));
    StoredAs(r, e, FTsc, IntV(e.tsc));
    StoredAs(r, e, FTime, TimeV(e.time));
  }

  lemma CompleteSend(r: Row, e: Event)
    requires e.MpiSend? && Holds(r, e)
    ensures Build(Send, r) == Some(e)
  {
    StoredAs(r, e, FCurrentRank, IntV(e.currentRank));
    StoredAs(r, e, FPartnerRank, IntV(e.partnerRank));
    StoredAs(r, e, FNbBytes, IntV(e.nbBytes));
    StoredAs(r, e, FComm, IntV(e.comm));
    StoredAs(r, e, FTag, IntV(e.tag));
    StoredAs(r, e, FTsc, IntV(e.tsc));
    StoredAs(r, e, FDuration, IntV(e.duration));
  }

  lemma CompleteRecv(r: Row, e: Event)
    requires e.MpiRecv? && Holds(r, e)
    ensures Build(Recv, r) == Some(e)
  {
    StoredAs(r, e, FCurrentRank, IntV(e.currentRank));
    StoredAs(r, e, FPartnerRank, IntV(e.partnerRank));
    StoredAs(r, e, FNbBytes, IntV(e.nbBytes));
    StoredAs(r, e, FComm, IntV(e.comm));
    StoredAs(r, e, FTag, IntV(e.tag));
    StoredAs(r, e, FTsc, IntV(e.tsc));
    StoredAs(r, e, FDuration, IntV(e.duration));
  }

  lemma CompleteIsend(r: Row, e: Event)
    requires e.MpiIsend? && Holds(r, e)
    ensures Build(Isend, r) == Some(e)
  {
    StoredAs(r, e, FCurrentRank, IntV(e.currentRank));
    StoredAs(r, e, FPartnerRank, IntV(e.partnerRank));
    StoredAs(r, e, FNbBytes, IntV(e.nbBytes));
    StoredAs(r, e, FComm, IntV(e.comm));
    StoredAs(r, e, FReq, IntV(e.req));
    StoredAs(r, e, FTag, IntV(e.tag));
    StoredAs(r, e, FTsc, IntV(e.tsc));
    StoredAs(r, e, FDuration, IntV(e.duration));
  }

  lemma CompleteIrecv(r: Row, e: Event)
    requires e.MpiIrecv? && Holds(r, e)
    ensures Build(Irecv, r) == Some(e)
  {
    StoredAs(r, e, FCurrentRank, IntV(e.currentRank));
    StoredAs(r, e, FPartnerRank, IntV(e.partnerRank));
    StoredAs(r, e, FNbBytes, IntV(e.nbBytes));
    StoredAs(r, e, FComm, IntV(e.comm));
    StoredAs(r, e, FReq, IntV(e.req));
    StoredAs(r, e, FTag, IntV(e.tag));
    StoredAs(r, e, FTsc, IntV(e.tsc));
    StoredAs(r, e, FDuration, IntV(e.duration));
  }

  lemma CompleteTest(r: Row, e: Event)
    requires e.MpiTest? && Holds(r, e)
    ensures Build(Test, r) == Some(e)
  {
    StoredAs(r, e, FCurrentRank, IntV(e.currentRank));
    StoredAs(r, e, FReq, IntV(e.req));
    StoredAs(r, e, FFinished, BoolV(e.finished));
    StoredAs(r, e, FTsc, IntV(e.tsc));
    StoredAs(r, e, FDuration, IntV(e.duration));
  }

  lemma CompleteWait(r: Row, e: Event)
    requires e.MpiWait? && Holds(r, e)
    ensures Build(Wait, r) == Some(e)
  {
    StoredAs(r, e, FCurrentRank, IntV(e.currentRank));
    StoredAs(r, e, FReq, IntV(e.req));
    StoredAs(r, e, FTsc, IntV(e.tsc));
    StoredAs(r, e, FDuration, IntV(e.duration));
  }

  lemma CompleteBarrier(r: Row, e: Event)
    requires e.MpiBarrier? && Holds(r, e)
    ensures Build(Barrier, r) == Some(e)
  {
    StoredAs(r, e, FCurrentRank, IntV(e.currentRank));
    StoredAs(r, e, FComm, IntV(e.comm));
    StoredAs(r, e, FTsc, IntV(e.tsc));
    StoredAs(r, e, FDuration, IntV(e.duration));
  }

  lemma CompleteIbarrier(r: Row, e: Event)
    requires e.MpiIbarrier? && Holds(r, e)
    ensures Build(Ibarrier, r) == Some(e)
  {
    StoredAs(r, e, FCurrentRank, IntV(e.currentRank));
    StoredAs(r, e, FComm, IntV(e.comm));
    StoredAs(r, e, FReq, IntV(e.req));
    StoredAs(r, e, FTsc, IntV(e.tsc));
    StoredAs(r, e, FDuration, IntV(e.duration));
  }

  lemma CompleteIbcast(r: Row, e: Event)
    requires e.MpiIbcast? && Holds(r, e)
    ensures Build(Ibcast, r) == Some(e)
  {
    StoredAs(r, e, FCurrentRank, IntV(e.currentRank));
    StoredAs(r, e, FPartnerRank, IntV(e.partnerRank));
    StoredAs(r, e, FNbBytes, IntV(e.nbBytes));
    StoredAs(r, e, FComm, IntV(e.comm));
    StoredAs(r, e, FReq, IntV(e.req));
    StoredAs(r, e, FTsc, IntV(e.tsc));
    StoredAs(r, e, FDuration, IntV(e.duration));
  }

  lemma CompleteIgather(r: Row, e: Event)
    requires e.MpiIgather? && Holds(r, e)
    ensures Build(Igather, r) == Some(e)
  {
    StoredAs(r, e, FCurrentRank, IntV(e.currentRank));
    StoredAs(r, e, FPartnerRank, IntV(e.partnerRank));
    StoredAs(r, e, FNbBytesSend, IntV(e.nbBytesSend));
    StoredAs(r, e, FNbBytesRecv, IntV(e.nbBytesRecv));
    StoredAs(r, e, FComm, IntV(e.comm));
    StoredAs(r, e, FReq, IntV(e.req));
    StoredAs(r, e, FTsc, IntV(e.tsc));
    StoredAs(r, e, FDuration, IntV(e.duration));
  }

  lemma CompleteIreduce(r: Row, e: Event)
    requires e.MpiIreduce? && Holds(r, e)
    ensures Build(Ireduce, r) == Some(e)
  {
    StoredAs(r, e, FCurrentRank, IntV(e.currentRank));
    StoredAs(r, e, FPartnerRank, IntV(e.partnerRank));
    StoredAs(r, e, FNbBytes, IntV(e.nbBytes));
    StoredAs(r, e, FOpType, OpV(e.opType));
    StoredAs(r, e, FComm, IntV(e.comm));
    StoredAs(r, e, FReq, IntV(e.req));
    StoredAs(r, e, FTsc, IntV(e.tsc));
    StoredAs(r, e, FDuration, IntV(e.duration));
  }

  lemma CompleteIscatter(r: Row, e: Event)
    requires e.MpiIscatter? && Holds(r, e)
    ensures Build(Iscatter, r) == Some(e)
  {
    StoredAs(r, e, FCurrentRank, IntV(e.currentRank));
    StoredAs(r, e, FPartnerRank, IntV(e.partnerRank));
    StoredAs(r, e, FNbBytesSend, IntV(e.nbBytesSend));
    StoredAs(r, e, FNbBytesRecv, IntV(e.nbBytesRecv));
    StoredAs(r, e, FComm, IntV(e.comm));
    StoredAs(r, e, FReq, IntV(e.req));
    StoredAs(r, e, FTsc, IntV(e.tsc));
    StoredAs(r, e, FDuration, IntV(e.duration));
  }

  lemma BuildComplete(r: Row, e: Event)
    requires Holds(r, e)
    ensures Build(e.Kind(), r) == Some(e)
  {
    match e.Kind()
    case Init => CompleteInit(r, e);
    case Initthread => CompleteInitthread(r, e);
    case Finalize => CompleteFinalize(r, e);
    case Send => CompleteSend(r, e);
    case Recv => CompleteRecv(r, e);
    case Isend => CompleteIsend(r, e);
    case Irecv => CompleteIrecv(r, e);
    case Test => CompleteTest(r, e);
    case Wait => CompleteWait(r, e);
    case Barrier => CompleteBarrier(r, e);
    case Ibarrier => CompleteIbarrier(r, e);
    case Ibcast => CompleteIbcast(r, e);
    case Igather => CompleteIgather(r, e);
    case Ireduce => CompleteIreduce(r, e);
    case Iscatter => CompleteIscatter(r, e);
  }

  // An event is built from a row if and only if the row holds all that the event's struct stores.
  lemma BuildExact(r: Row, e: Event)
    ensures Build(e.Kind(), r) == Some(e) <==> Holds(r, e)
  {
    if Build(e.Kind(), r) == Some(e) {
      forall f: Field { BuildSound(r, e, f); }
    }
    if Holds(r, e) {
      BuildComplete(r, e);
    }
  }

  lemma BuildKind(k: MpiCallType, r: Row)
    ensures Build(k, r).Some? ==> Build(k, r).value.Kind() == k
  {
    if Build(k, r).Some? {
      var e := Build(k, r).value;
      match k
      case Init => assert e.MpiInit?;
      case Initthread => assert e.MpiInitThread?;
      case Finalize => assert e.MpiFinalize?;
      case Send => assert e.MpiSend?;
      case Recv => assert e.MpiRecv?;
      case Isend => assert e.MpiIsend?;
      case Irecv => assert e.MpiIrecv?;
      case Test => assert e.MpiTest?;
      case Wait => assert e.MpiWait?;
      case Barrier => assert e.MpiBarrier?;
      case Ibarrier => assert e.MpiIbarrier?;
      case Ibcast => assert e.MpiIbcast?;
      case Igather => assert e.MpiIgather?;
      case Ireduce => assert e.MpiIreduce?;
      case Iscatter => assert e.MpiIscatter?;
    }
  }

  lemma StoredFits(e: Event, f: Field)
    ensures Get(e, f) != Absent ==> Fits(f, Get(e, f))
  {
  }

  // All that an event stores.
  function StoredRow(e: Event): Row {
    assert forall f: Field :: Get(e, f) != Absent ==> Fits(f, Get(e, f)) by {
      forall f: Field { StoredFits(e, f); }
    }
    map f: Field | Get(e, f) != Absent :: Get(e, f)
  }

  lemma StoredRowHolds(e: Event)
    ensures Holds(StoredRow(e), e)
  {
  }

  // Two events of one kind that store the same values are the same event.
  lemma EventsEqual(a: Event, b: Event)
    requires a.Kind() == b.Kind() && StoredRow(a) == StoredRow(b)
    ensures a == b
  {
    StoredRowHolds(a);
    StoredRowHolds(b);
    BuildExact(StoredRow(a), a);
    BuildExact(StoredRow(b), b);
  }

  // ---------- finding a member by name ----------

  lemma {:induction false} ValuesOfMembers(e: Event, fs: seq<Field>, f: Field)
    requires NoDuplicates(fs)
    ensures Values(StructMembers(e, fs), Name(f)) == if f in fs then [EncodeScalar(Get(e, f))] else []
    ensures Values(StructMembers(e, fs), "type") == []
  {
    if fs != [] {
      ValuesOfMembers(e, fs[1..], f);
      NamesDiffer(fs[0], f);
      assert forall i :: 1 <= i < |fs| ==> fs[i] == fs[1..][i - 1];
    }
  }

  lemma LookupEncoded(e: Event, f: Field)
    ensures Lookup(Encode(e).members, "type") == Some(JStr(StructName(e.Kind())))
    ensures Get(e, f) != Absent ==> Lookup(Encode(e).members, Name(f)) == Some(EncodeScalar(Get(e, f)))
  {
    var fs := Layout(e.Kind());
    var ms := Encode(e).members;
    LayoutHasNoDuplicates(e.Kind());
    LayoutComplete(e, f);
    ValuesOfMembers(e, fs, f);
    NamesDiffer(f, f);
    assert ms[1..] == StructMembers(e, fs) && ms[0].key == "type";
  }

  // A JSON object is accepted as the event e exactly when it names e's struct and has, each exactly once and in
  // any order, all the fields of that struct with e's values.
  lemma DecodeExact(ms: seq<Member>, e: Event)
    ensures Decode(JObj(ms)) == Some(e) <==>
              && Lookup(ms, "type") == Some(JStr(StructName(e.Kind())))
              && forall f: Field ::
                   Get(e, f) != Absent ==> Lookup(ms, Name(f)) == Some(EncodeScalar(Get(e, f)))
  {
    var row := RowOf(ms);
    forall f: Field | Get(e, f) != Absent
      ensures HasField(row, e, f) <==> Lookup(ms, Name(f)) == Some(EncodeScalar(Get(e, f)))
    {
      StoredFits(e, f);
      ReadFieldExact(ms, f, Get(e, f));
    }
    BuildExact(row, e);
    var tag := Lookup(ms, "type");
    if tag.Some? && tag.value.JStr? {
      KindNamedExact(tag.value.s, e.Kind());
      if Decode(JObj(ms)) == Some(e) {
        var k := KindNamed(tag.value.s).value;
        BuildKind(k, row);
      }
    }
  }

  lemma DecodeEncoded(e: Event)
    ensures Decode(Encode(e)) == Some(e)
  {
    forall f: Field
      ensures Lookup(Encode(e).members, "type") == Some(JStr(StructName(e.Kind())))
      ensures Get(e, f) != Absent ==> Lookup(Encode(e).members, Name(f)) == Some(EncodeScalar(Get(e, f)))
    {
      LookupEncoded(e, f);
    }
    LookupEncoded(e, FTsc);
    DecodeExact(Encode(e).members, e);
  }

  // ---------- traces ----------

  lemma NameIsPlain(f: Field)
    ensures PlainText(Name(f))
  {
  }

  lemma StructNameIsPlain(k: MpiCallType)
    ensures PlainText(StructName(k))
  {
  }

  lemma OpNameIsPlain(o: MpiOp)
    ensures PlainText(OpName(o))
  {
  }

  lemma PrintableScalar(v: Scalar)
    ensures Printable(EncodeScalar(v))
  {
    if v.IntV? {
      DecIsNumber(v.n);
    } else if v.OpV? {
      OpNameIsPlain(v.op);
    }
  }

  lemma {:induction false} PrintableMembers(e: Event, fs: seq<Field>)
    ensures forall m :: m in StructMembers(e, fs) ==> PlainText(m.key) && Printable(m.value)
  {
    if fs != [] {
      PrintableMembers(e, fs[1..]);
      NameIsPlain(fs[0]);
      PrintableScalar(Get(e, fs[0]));
    }
  }

  lemma PrintableObject(first: Member, rest: seq<Member>)
    requires forall m :: m in [first] + rest ==> PlainText(m.key) && Printable(m.value)
    ensures Printable(JObj([first] + rest))
  {
  }

  lemma PrintableEvent(e: Event)
    ensures Printable(Encode(e))
  {
    var first := Member("type", JStr(StructName(e.Kind())));
    StructNameIsPlain(e.Kind());
    PrintableMembers(e, Layout(e.Kind()));
    PrintableObject(first, StructMembers(e, Layout(e.Kind())));
  }

  lemma DecodeAllCons(v: Json, vs: seq<Json>, e: Event, es: seq<Event>)
    requires Decode(v) == Some(e) && DecodeAll(vs) == Some(es)
    ensures DecodeAll([v] + vs) == Some([e] + es)
  {
    assert ([v] + vs)[1..] == vs;
  }

  lemma EncodeAllCons(log: seq<Event>)
    requires log != []
    ensures EncodeAll(log).elems == [Encode(log[0])] + EncodeAll(log[1..]).elems && log == [log[0]] + log[1..]
  {
  }

  lemma {:induction false} DecodeAllEncoded(log: seq<Event>)
    ensures DecodeAll(EncodeAll(log).elems) == Some(log)
  {
    if log != [] {
      EncodeAllCons(log);
      DecodeEncoded(log[0]);
      DecodeAllEncoded(log[1..]);
      DecodeAllCons(Encode(log[0]), EncodeAll(log[1..]).elems, log[0], log[1..]);
    }
  }

  lemma PrintableTrace(log: seq<Event>)
    ensures Printable(EncodeAll(log))
  {
    forall v | v in EncodeAll(log).elems ensures Printable(v) {
      var i :| 0 <= i < |log| && v == Encode(log[i]);
      PrintableEvent(log[i]);
    }
  }

  // Only the pretty text of a trace has line breaks, unless it is empty.
  lemma TraceLines(log: seq<Event>, style: Style)
    ensures '\n' in TraceText(log, style) <==> style.Pretty? && log != []
  {
    PrintableTrace(log);
    if style.Compact? {
      CompactOneLine(EncodeAll(log), 0);
    } else if log != [] {
      PrettyBreaks(EncodeAll(log).elems, 0);
    }
  }

  // Reading a written trace gives back the same events in the same order, in either layout.
  lemma TraceRoundTrip(log: seq<Event>, style: Style)
    ensures ParseTrace(TraceText(log, style)) == Some(log)
  {
    PrintableTrace(log);
    RoundTrip(EncodeAll(log), style);
    DecodeAllEncoded(log);
  }

  // More generally, any text with the same tokens reads as that trace, whatever blanks separate them.
  lemma BlanksDoNotMatter(log: seq<Event>, text: string, style: Style)
    requires Lex(text) == Lex(TraceText(log, style))
    ensures ParseTrace(text) == Some(log)
  {
    TraceRoundTrip(log, style);
  }

  lemma StylesAgree(log: seq<Event>)
    ensures Lex(TraceText(log, Compact)) == Lex(TraceText(log, Pretty)) == Some(Tokens(EncodeAll(log)))
  {
    PrintableTrace(log);
    RoundTrip(EncodeAll(log), Compact);
    RoundTrip(EncodeAll(log), Pretty);
    ParseExact(TraceText(log, Compact), EncodeAll(log));
    ParseExact(TraceText(log, Pretty), EncodeAll(log));
  }
}
