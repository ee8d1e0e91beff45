/** From the call record of the C side to the event that is stored. */
module Dispatcher {
  import opened Types
  import opened Codec

  function OpOf(code: Int8): Option<MpiOp> {
    match code
    case 0 => Some(Opnull)
    case 1 => Some(Max)
    case 2 => Some(Min)
    case 3 => Some(Sum)
    case 4 => Some(Prod)
    case 5 => Some(Land)
    case 6 => Some(Band)
    case 7 => Some(Lor)
    case 8 => Some(Bor)
    case 9 => Some(Lxor)
    case 10 => Some(Bxor)
    case 11 => Some(Minloc)
    case 12 => Some(Maxloc)
    case 13 => Some(Replace)
    case _ => None
  }

  // The operator byte is read as an MpiOp only when an Ireduce call is stored.
  predicate Storable(c: MpiCall) {
    c.kind == Ireduce ==> OpOf(c.opType).Some?
  }

  function Dispatch(c: MpiCall): Event
    requires Storable(c)
  {
    match c.kind
    case Init => MpiInit(c.currentRank, c.tsc, c.time)
    case Initthread => MpiInitThread(c.currentRank, c.requiredThreadLvl, c.providedThreadLvl, c.tsc, c.time)
    case Finalize => MpiFinalize(c.currentRank, c.tsc, c.time)
    case Send => MpiSend(c.currentRank, c.partnerRank, c.nbBytesS, c.comm, c.tag, c.tsc, c.duration)
    case Isend => MpiIsend(c.currentRank, c.partnerRank, c.nbBytesS, c.comm, c.req, c.tag, c.tsc, c.duration)
    case Recv => MpiRecv(c.currentRank, c.partnerRank, c.nbBytesR, c.comm, c.tag, c.tsc, c.duration)
    case Irecv => MpiIrecv(c.currentRank, c.partnerRank, c.nbBytesR, c.comm, c.req, c.tag, c.tsc, c.duration)
    case Barrier => MpiBarrier(c.currentRank, c.comm, c.tsc, c.duration)
    case Ibarrier => MpiIbarrier(c.currentRank, c.comm, c.req, c.tsc, c.duration)
    case Test => MpiTest(c.currentRank, c.req, c.finished, c.tsc, c.duration)
    case Wait => MpiWait(c.currentRank, c.req, c.tsc, c.duration)
    case Ibcast => MpiIbcast(c.currentRank, c.partnerRank, c.nbBytesS, c.comm, c.req, c.tsc, c.duration)
    case Igather =>
      MpiIgather(c.currentRank, c.partnerRank, c.nbBytesS, c.nbBytesR, c.comm, c.req, c.tsc, c.duration)
    case Ireduce =>
      MpiIreduce(c.currentRank, c.partnerRank, c.nbBytesS, OpOf(c.opType).value, c.comm, c.req, c.tsc, c.duration)
    case Iscatter =>
      MpiIscatter(c.currentRank, c.partnerRank, c.nbBytesS, c.nbBytesR, c.comm, c.req, c.tsc, c.duration)
  }

  // Which part of a call record each stored field comes from, whatever the kind: bytes are the received ones for
  // the two receives and the sent ones otherwise.
  function CallField(c: MpiCall, f: Field): Scalar {
    match f
    case FCurrentRank => IntV(c.currentRank)
    case FPartnerRank => IntV(c.partnerRank)
    case FNbBytes => IntV(if c.kind == Recv || c.kind == Irecv then c.nbBytesR else c.nbBytesS)
    case FNbBytesSend => IntV(c.nbBytesS)
    case FNbBytesRecv => IntV(c.nbBytesR)
    case FOpType => (match OpOf(c.opType) case None => Absent case Some(o) => OpV(o))
    case FComm => IntV(c.comm)
    case FReq => IntV(c.req)
    case FTag => IntV(c.tag)
    case FRequired => IntV(c.requiredThreadLvl)
    case FProvided => IntV(c.providedThreadLvl)
    case FFinished => BoolV(c.finished)
    case FTsc => IntV(c.tsc)
    case FDuration => IntV(c.duration)
    case FTime => TimeV(c.time)
  }

  lemma DispatchKind(c: MpiCall)
    requires Storable(c)
    ensures Dispatch(c).Kind() == c.kind
  {
  }

  lemma FinalizeStored(c: MpiCall)
    requires Storable(c)
    ensures Dispatch(c).MpiFinalize? <==> c.kind == Finalize
  {
    DispatchKind(c);
  }

  // The stored event keeps the rank and the time of the call, and its duration if its struct has one.
  lemma DispatchTimes(c: MpiCall)
    requires Storable(c)
    ensures Dispatch(c).tsc == c.tsc && Dispatch(c).currentRank == c.currentRank
    ensures Dispatch(c).Length() == if c.kind in {Init, Initthread, Finalize} then 0 else c.duration
  {
  }

  // Each field of the stored struct is the field of the call it should come from.
  lemma DispatchField(c: MpiCall, f: Field)
    requires Storable(c)
    ensures Get(Dispatch(c), f) != Absent ==> Get(Dispatch(c), f) == CallField(c, f)
  {
  }

  // Storing a call loses exactly what its kind's struct has no field for: two calls leave the same event
  // if and only if they are of one kind and agree on every field of that struct.
  lemma DispatchForgets(a: MpiCall, b: MpiCall)
    requires Storable(a) && Storable(b)
    ensures Dispatch(a) == Dispatch(b) <==>
              a.kind == b.kind && forall f :: f in Layout(a.kind) ==> CallField(a, f) == CallField(b, f)
  {
    DispatchKind(a);
    DispatchKind(b);
    forall f: Field
      ensures f in Layout(a.kind) <==> Get(Dispatch(a), f) != Absent
      ensures f in Layout(b.kind) <==> Get(Dispatch(b), f) != Absent
      ensures f in Layout(a.kind) ==> Get(Dispatch(a), f) == CallField(a, f)
      ensures f in Layout(b.kind) ==> Get(Dispatch(b), f) == CallField(b, f)
    {
      LayoutComplete(Dispatch(a), f);
      LayoutComplete(Dispatch(b), f);
      DispatchField(a, f);
      DispatchField(b, f);
    }
    if a.kind == b.kind && forall f :: f in Layout(a.kind) ==> CallField(a, f) == CallField(b, f) {
      assert StoredRow(Dispatch(a)) == StoredRow(Dispatch(b));
      EventsEqual(Dispatch(a), Dispatch(b));
    }
  }
}
