/** The messages of the JSON-RPC connection, as both ends and the wire see them. */
module RpcMessages {
  import opened Words

  type Id = int
  type ChanId = nat

  /** A JSON value, as far as the connection looks at it: a number that fits a uint64, the
      null literal, or anything else. */
  datatype Value = Number(n: nat) | Null | Json(text: string)

  /** Unmarshalling into a uint64; the null literal leaves the zero it finds. */
  function ChannelId(v: Value): Option<ChanId> {
    match v
    case Number(n) => Some(n)
    case Null => Some(0)
    case Json(_) => None
  }

  datatype RespError = RespError(code: int, message: string)

  datatype Request = Request(id: Id, name: string, params: seq<Value>)

  /** A decoded incoming frame. Parameters may lack their data. */
  datatype Frame = Frame(id: Option<Id>, name: string, params: seq<Option<Value>>,
                         result: Option<Value>, error: Option<RespError>)

  const WS_CANCEL := "xrpc.cancel"
  const CH_VALUE := "xrpc.ch.val"
  const CH_CLOSE := "xrpc.ch.close"

  /** A frame with this name is a remote call: handleFrame takes the empty name for a response
      and three names for itself. */
  predicate CallName(name: string) {
    name != "" && name != WS_CANCEL && name != CH_VALUE && name != CH_CLOSE
  }
}
