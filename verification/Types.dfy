/** Bytes, compressors and op-codes shared by every part of the bridge. */
module Types {

  type byte = b: int | 0 <= b < 256

  type Bytes = seq<byte>

  datatype Option<+T> = None | Some(value: T)

  /** The compressor byte of a frame; `Raw` is the enumerator NONE. */
  datatype Compressor = Raw | Lz4Default | Lz4Hc | Zlib {
    function Code(): byte {
      match this
      case Raw => 0
      case Lz4Default => 1
      case Lz4Hc => 2
      case Zlib => 3
    }
  }

  /** Compressor bytes above 3 name no compressor. */
  function CompressorOf(b: byte): (c: Option<Compressor>)
    ensures c.Some? <==> b <= 3
    ensures c.Some? ==> c.value.Code() == b
  {
    match b
    case 0 => Some(Raw)
    case 1 => Some(Lz4Default)
    case 2 => Some(Lz4Hc)
    case 3 => Some(Zlib)
    case _ => None
  }

  datatype Profile = Profile(compressor: Compressor, rate: nat)

  // Reserved first bytes of a frame; every other first byte is a topic channel.
  const NOTIFICATION: byte := 249
  const SUBSCRIPTION: byte := 250
  const SERVICE_ACTION: byte := 251
  const TF: byte := 252
  const TF_STATIC: byte := 253
  const CLOCK: byte := 254
  const AUTHENTICATION: byte := 255

  /** The service and action op-codes 0 to 13. */
  datatype Op =
    | ServiceToClient
    | ServiceToClientCancel
    | ServiceToServer
    | GoalRequest
    | GoalReject
    | GoalAccept
    | CancelRequest
    | CancelReject
    | CancelAccept
    | Feedback
    | ResultSucceeded
    | ResultAborted
    | ResultCanceled
    | ResultUnknown
  {
    function Code(): byte {
      match this
      case ServiceToClient => 0
      case ServiceToClientCancel => 1
      case ServiceToServer => 2
      case GoalRequest => 3
      case GoalReject => 4
      case GoalAccept => 5
      case CancelRequest => 6
      case CancelReject => 7
      case CancelAccept => 8
      case Feedback => 9
      case ResultSucceeded => 10
      case ResultAborted => 11
      case ResultCanceled => 12
      case ResultUnknown => 13
    }

    predicate IsResult() {
      ResultSucceeded? || ResultAborted? || ResultCanceled? || ResultUnknown?
    }
  }

  function OpOf(b: byte): (op: Option<Op>)
    ensures op.Some? <==> b <= 13
    ensures op.Some? ==> op.value.Code() == b
  {
    match b
    case 0 => Some(ServiceToClient)
    case 1 => Some(ServiceToClientCancel)
    case 2 => Some(ServiceToServer)
    case 3 => Some(GoalRequest)
    case 4 => Some(GoalReject)
    case 5 => Some(GoalAccept)
    case 6 => Some(CancelRequest)
    case 7 => Some(CancelReject)
    case 8 => Some(CancelAccept)
    case 9 => Some(Feedback)
    case 10 => Some(ResultSucceeded)
    case 11 => Some(ResultAborted)
    case 12 => Some(ResultCanceled)
    case 13 => Some(ResultUnknown)
    case _ => None
  }

  /**
   * A service or action message as an endpoint reads it. `content` is the data
   * span once the message has been decompressed; None is a compressed message
   * whose decompression fails.
   */
  datatype Message = Message(op: Op, gid: Bytes, content: Option<Bytes>)

  /** What an endpoint expects of incoming data: the exact size unless the type is dynamic. */
  datatype Limits = Limits(expectedSize: nat, dynamicSize: bool)

  predicate Fits(limits: Limits, data: Bytes) {
    limits.dynamicSize || |data| == limits.expectedSize
  }
}
