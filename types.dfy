/** The values the Tangle transport passes around, its errors and its send options. */
module Types {
  import opened Wrappers
  import Hex

  type Byte = Hex.Byte

  /** Rust's `u8` and `u64`. */
  type U8 = x: int | 0 <= x < 0x100
  type U64 = x: int | 0 <= x < 0x1_0000_0000_0000_0000

  /** A node-assigned `MessageId`; only its identity matters here. */
  type MessageId = nat

  /** `TangleAddress`: the Streams link, an application instance and a message id. */
  datatype Link = Link(appinst: seq<Byte>, msgid: seq<Byte>)

  /** `BinaryMessage`: a Streams message body addressed by its link. */
  datatype BinaryMessage = BinaryMessage(link: Link, body: seq<Byte>)

  /** `TangleMessage`: a binary message with its timestamp. */
  datatype TangleMessage = TangleMessage(binary: BinaryMessage, timestamp: U64)

  /** The payload of a ledger message: an indexation, or any other kind. */
  datatype Payload = Indexation(index: string, data: seq<Byte>) | OtherPayload

  /** A ledger message: two parents and an optional payload. */
  datatype Message = Message(parent1: MessageId, parent2: MessageId, payload: Option<Payload>)

  /** What an error names the link by: `link.to_string()` or `link.msgid.to_string()`. */
  datatype LinkText = WholeLink(link: Link) | MsgIdOnly(msgid: seq<Byte>)

  datatype Error =
    | ClientOperationFailure           // a node request failed (handle_client_result)
    | InvalidHex(hexError: Hex.HexError)// the payload data is not hex text
    | UnexpectedPayloadType            // the payload is not an indexation
    | MessageIdsNotFound               // no message id is indexed under the key
    | MessagesNotFound                 // fetching the ids gave no message
    | MissingPayload                   // a ledger message without payload
    | MessageNotUnique(subject: LinkText)
    | MessageLinkNotFound(subject: LinkText)
    | TransportNotAvailable            // the shared client is already borrowed
    | Panic(cause: Error)              // `.unwrap()` on an error: the task aborts

  /** `SendTrytesOptions`. */
  datatype SendOptions = SendOptions(depth: U8, minWeightMagnitude: U8, localPow: bool, threads: nat)

  /** The default send options; `threads` is `get_num_cpus()` built without `num_cpus`. */
  function DefaultSendOptions(): (o: SendOptions)
    ensures o.depth == 3 && o.minWeightMagnitude == 14 && o.localPow && o.threads == 1
  {
    SendOptions(3, 14, true, 1)
  }
}
