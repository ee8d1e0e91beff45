/** The values that cross the boundary between the C wrappers and the Rust back-end:
    integer ranges, the two enumerations, the call record and the fifteen event records. */
module Types {
  import opened Numbers

  datatype Option<+T> = None | Some(value: T) {
    predicate IsFailure() {
      None?
    }

    function PropagateFailure<U>(): Option<U>
      requires None?
    {
      None
    }

    function Extract(): T
      requires Some?
    {
      value
    }

    function GetOr(default: T): T {
      if Some? then value else default
    }
  }

  const TWO_64 := 0x1_0000_0000_0000_0000

  type Int8 = x: int | -0x80 <= x < 0x80
  type Int32 = x: int | -0x8000_0000 <= x < 0x8000_0000
  type Uint32 = x: int | 0 <= x < 0x1_0000_0000
  type Uint64 = x: int | 0 <= x < TWO_64

  // A 64-bit float is only ever printed and read back, so it is kept as its JSON text.
  type Usecs = s: string | IsJsonNumber(s) witness "0"

  datatype MpiCallType =
    | Init | Initthread | Finalize | Send | Recv | Isend | Irecv | Test | Wait
    | Barrier | Ibarrier | Ibcast | Igather | Ireduce | Iscatter

  datatype MpiOp =
    | Opnull | Max | Min | Sum | Prod | Land | Band | Lor | Bor | Lxor | Bxor
    | Minloc | Maxloc | Replace

  // The C struct handed to register_mpi_call. The operator is a raw byte there: only an
  // Ireduce call is expected to hold the code of an MpiOp.
  datatype MpiCall = MpiCall(
    kind: MpiCallType,
    time: Usecs,
    tsc: Uint64,
    duration: Uint64,
    currentRank: Int32,
    partnerRank: Int32,
    nbBytesS: Uint32,
    nbBytesR: Uint32,
    comm: Int32,
    req: Int32,
    tag: Int32,
    requiredThreadLvl: Int32,
    providedThreadLvl: Int32,
    opType: Int8,
    finished: bool)

  // When a call had returned.
  function CallEnd(c: MpiCall): int {
    c.tsc + c.duration
  }

  datatype Event =
    | MpiInit(currentRank: Int32, tsc: Uint64, time: Usecs)
    | MpiInitThread(currentRank: Int32, requiredThreadLvl: Int32, providedThreadLvl: Int32, tsc: Uint64, time: Usecs)
    | MpiFinalize(currentRank: Int32, tsc: Uint64, time: Usecs)
    | MpiSend(currentRank: Int32, partnerRank: Int32, nbBytes: Uint32, comm: Int32, tag: Int32,
              tsc: Uint64, duration: Uint64)
    | MpiRecv(currentRank: Int32, partnerRank: Int32, nbBytes: Uint32, comm: Int32, tag: Int32,
              tsc: Uint64, duration: Uint64)
    | MpiIsend(currentRank: Int32, partnerRank: Int32, nbBytes: Uint32, comm: Int32, req: Int32, tag: Int32,
               tsc: Uint64, duration: Uint64)
    | MpiIrecv(currentRank: Int32, partnerRank: Int32, nbBytes: Uint32, comm: Int32, req: Int32, tag: Int32,
               tsc: Uint64, duration: Uint64)
    | MpiTest(currentRank: Int32, req: Int32, finished: bool, tsc: Uint64, duration: Uint64)
    | MpiWait(currentRank: Int32, req: Int32, tsc: Uint64, duration: Uint64)
    | MpiBarrier(currentRank: Int32, comm: Int32, tsc: Uint64, duration: Uint64)
    | MpiIbarrier(currentRank: Int32, comm: Int32, req: Int32, tsc: Uint64, duration: Uint64)
    | MpiIbcast(currentRank: Int32, partnerRank: Int32, nbBytes: Uint32, comm: Int32, req: Int32,
                tsc: Uint64, duration: Uint64)
    | MpiIgather(currentRank: Int32, partnerRank: Int32, nbBytesSend: Uint32, nbBytesRecv: Uint32,
                 comm: Int32, req: Int32, tsc: Uint64, duration: Uint64)
    | MpiIreduce(currentRank: Int32, partnerRank: Int32, nbBytes: Uint32, opType: MpiOp,
                 comm: Int32, req: Int32, tsc: Uint64, duration: Uint64)
    | MpiIscatter(currentRank: Int32, partnerRank: Int32, nbBytesSend: Uint32, nbBytesRecv: Uint32,
                  comm: Int32, req: Int32, tsc: Uint64, duration: Uint64)
  {
    // Init, InitThread and Finalize records have no duration field: they mark an instant.
    function Length(): Uint64 {
      if MpiInit? || MpiInitThread? || MpiFinalize? then 0 else duration
    }

    function End(): int {
      tsc + Length()
    }

    function Kind(): MpiCallType {
      match this
      case MpiInit(_, _, _) => Init
      case MpiInitThread(_, _, _, _, _) => Initthread
      case MpiFinalize(_, _, _) => Finalize
      case MpiSend(_, _, _, _, _, _, _) => Send
      case MpiRecv(_, _, _, _, _, _, _) => Recv
      case MpiIsend(_, _, _, _, _, _, _, _) => Isend
      case MpiIrecv(_, _, _, _, _, _, _, _) => Irecv
      case MpiTest(_, _, _, _, _) => Test
      case MpiWait(_, _, _, _) => Wait
      case MpiBarrier(_, _, _, _) => Barrier
      case MpiIbarrier(_, _, _, _, _) => Ibarrier
      case MpiIbcast(_, _, _, _, _, _, _) => Ibcast
      case MpiIgather(_, _, _, _, _, _, _, _) => Igather
      case MpiIreduce(_, _, _, _, _, _, _, _) => Ireduce
      case MpiIscatter(_, _, _, _, _, _, _, _) => Iscatter
    }
  }
}
