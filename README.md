# IOTA Streams Tangle transport client, modelled in Dafny

This project models the deterministic core of the Tangle transport in
`iota-streams-app/src/transport/tangle/client.rs`. That transport carries
Streams messages over the IOTA ledger (the Tangle). It covers the following:

- **Index key.** A Streams link (application instance, message id) is looked
  up under the key `hex(appinst ++ msgid)`. The send path and the receive path
  both compute this key (`Codec.IndexKey`, over Base16 in `Hex`).
- **Message codec.** `make_bundle` / `msg_to_tangle` wrap a body into one
  ledger message with an indexation payload and two parents.
  `msg_from_tangle_message` accepts only an indexation payload. It hex-decodes
  the payload data, attaches the caller's link and sets timestamp 0 (`Codec`).
- **Node and pipelines.** The node is an abstract store (`Ledger.Tangle`): an
  index from key to message ids, the messages by id, the tips it hands out, the
  next id it assigns, and a `reachable` flag. Every node request returns an
  explicit result. `get_messages`, `send_messages` and the async send and
  receive pipelines are functions over this store (`Ledger`).
- **Client state.** `Transport.Client` is a class holding the send options, the
  node pool and the ledger behind it. Its methods are `add_node`, the option
  getters and setters, `send_message`, `recv_messages` and `recv_message`.
  `recv_message` pops the last result and then checks that nothing is left.
- **Shared handle.** `Transport.SharedClient` models `Rc<RefCell<Client>>`,
  with a `borrowed` flag. Every operation first tries an exclusive borrow. If
  the handle is already borrowed, the operation fails with
  `TransportNotAvailable` and changes nothing.

Panics from `.unwrap()` are modelled as an error value `Panic(cause)`. No
caller catches a panic. In particular, `async_recv_messages` turns every
*error* of `get_messages` into an empty result, but it lets a panic through.

Three facts about `client.rs` shape the receive side:

- **Payload data.** The indexation data is the body as it is (line 127);
  the receive path hex-decodes it (line 81).
- **Lookup errors.** Both lookup failures are `ensure!` errors: no ids
  (line 97) and nothing fetched (line 110). `async_recv_messages` swallows
  both (line 244).
- **Failed decode.** A message that fails to decode aborts the receive with a
  panic (line 242). It is not reported as an error.

## Model

| member | source | states |
|---|---|---|
| Hex.Encode | iota-streams-app/src/transport/tangle/client.rs:124-126 | Base16 writes two lower-case hex digits per byte, so the key has twice the byte length |
| Hex.Decode | iota-streams-app/src/transport/tangle/client.rs:81 | hex decoding rejects odd-length input with OddLength; on success it yields half as many bytes as characters |
| Hex.DecodeEncode | iota-streams-app/src/transport/tangle/client.rs:81 | decoding the hex text of any byte string gives that byte string back |
| Hex.EncodeInjective | iota-streams-app/src/transport/tangle/client.rs:94 | distinct byte strings have distinct hex texts |
| Hex.EncodeAppend | iota-streams-app/src/transport/tangle/client.rs:126 | the hex of a concatenation is the concatenation of the hexes |
| Hex.EncodeDecode | iota-streams-app/src/transport/tangle/client.rs:81 | every even-length lower-case digit string decodes, and encoding the result gives the string back |
| Hex.DecodeFails | iota-streams-app/src/transport/tangle/client.rs:81 | decoding fails exactly on odd length or a non-digit; for even length the error names the first non-digit and its index |
| Types.DefaultSendOptions | iota-streams-app/src/transport/tangle/client.rs:180-194 | the default options are depth 3, min_weight_magnitude 14, local_pow true, and 1 thread without num_cpus |
| Codec.IndexKey | iota-streams-app/src/transport/tangle/client.rs:94 | the lookup key of a link is twice as long as appinst and msgid together |
| Codec.IndexKeySplit | iota-streams-app/src/transport/tangle/client.rs:126 | the key is the hex of appinst followed by the hex of msgid |
| Codec.IndexKeyInjective | iota-streams-app/src/transport/tangle/client.rs:94 | links whose appinst has the same length share a key only if they are equal |
| Codec.IndexKeyAmbiguous | iota-streams-app/src/transport/tangle/client.rs:124-126 | without that length condition, two different links can share a key |
| Codec.MsgFromTangleMessage | iota-streams-app/src/transport/tangle/client.rs:79-90 | a missing payload panics; a non-indexation payload is UnexpectedPayloadType; success carries exactly the caller's link and timestamp 0, with the body half the data length |
| Codec.MsgFromHexData | iota-streams-app/src/transport/tangle/client.rs:79-86 | an indexation whose data is the hex text of b decodes to body b, with the caller's link and timestamp 0 |
| Codec.MsgFromTangleMessageFails | iota-streams-app/src/transport/tangle/client.rs:81 | an indexation fails to decode exactly when its data has odd length or a non-hex byte, and the error is InvalidHex |
| Codec.MakeBundle | iota-streams-app/src/transport/tangle/client.rs:114-137 | make_bundle returns exactly one message, with parents (trunk, branch) and an indexation payload holding the body under the link's index key |
| Codec.MsgToTangle | iota-streams-app/src/transport/tangle/client.rs:139-153 | msg_to_tangle bundles a message under the index key of its own link |
| Ledger.FetchAll | iota-streams-app/src/transport/tangle/client.rs:99-109 | the fetch fan-out succeeds iff every id can be fetched; it then gives one message per id in id order; otherwise it panics |
| Ledger.GetMessages | iota-streams-app/src/transport/tangle/client.rs:92-112 | an unreachable node panics; no ids under the key is MessageIdsNotFound; with ids, it succeeds iff every id is stored, giving one stored message per id in order, and otherwise panics at the fetch unwrap; those are its only errors, so the "messages not found" check never fires |
| Ledger.GetMessagesConsistent | iota-streams-app/src/transport/tangle/client.rs:97-111 | on a consistent reachable node, get_messages succeeds iff some id is indexed under the key |
| Ledger.PostMessageValid | iota-streams-app/src/transport/tangle/client.rs:159 | posting a message keeps the node consistent |
| Ledger.SendMessages | iota-streams-app/src/transport/tangle/client.rs:155-165 | send_messages yields one id per message; it fails (a panic) only on an unreachable node, which is then left unchanged |
| Ledger.AsyncSendMessage | iota-streams-app/src/transport/tangle/client.rs:227-235 | the send pipeline succeeds exactly when the node is reachable; an unreachable node panics at the tips unwrap and is left unchanged |
| Ledger.SendStoresUnderIndexKey | iota-streams-app/src/transport/tangle/client.rs:227-235 | a send stores the bundle under a fresh id, indexed by the link's key, and changes nothing else; an unreachable node panics and keeps its state |
| Ledger.DecodeAll | iota-streams-app/src/transport/tangle/client.rs:241-243 | the decoded list matches the fetched list element by element; a failed decode is a panic |
| Ledger.AsyncRecvMessages | iota-streams-app/src/transport/tangle/client.rs:237-246 | the only possible error is a panic; a lookup error becomes Ok(empty); on success there is one result per fetched message, each carrying the link and timestamp 0 |
| Ledger.RecvNothingIndexed | iota-streams-app/src/transport/tangle/client.rs:244 | a link with nothing indexed receives the empty sequence, not an error |
| Ledger.SendTwiceReceiveBoth | iota-streams-app/src/transport/tangle/client.rs:227-246 | after two sends to one link with hex-text bodies, recv_messages returns both decoded bodies, in the order sent (the order rests on the abstract node listing an index's ids in posting order) |
| Transport.Client.Default | iota-streams-app/src/transport/tangle/client.rs:264-272 | the default client has the default send options and one node at localhost:14265 |
| Transport.Client.constructor | iota-streams-app/src/transport/tangle/client.rs:276-281 | Client::new keeps the given options and node pool |
| Transport.Client.FromUrl | iota-streams-app/src/transport/tangle/client.rs:284-289 | a client from an accepted URL has the default options and that one node |
| Transport.Client.AddNode | iota-streams-app/src/transport/tangle/client.rs:291-295 | an accepted URL is appended to the pool; otherwise ClientOperationFailure with the pool unchanged |
| Transport.Client.SetSendOptions | iota-streams-app/src/transport/tangle/client.rs:300-305 | after set_send_options, get_send_options returns exactly the value set; no other field changes |
| Transport.Client.SetRecvOptions | iota-streams-app/src/transport/tangle/client.rs:307-309 | the receive options are unit, and setting them changes nothing |
| Transport.Client.SendMessage | iota-streams-app/src/transport/tangle/client.rs:332-334 | send_message runs the send pipeline with the client's own send options |
| Transport.Client.RecvMessages | iota-streams-app/src/transport/tangle/client.rs:337-339 | recv_messages is the receive pipeline on the client's node |
| Transport.Client.RecvMessage | iota-streams-app/src/transport/tangle/client.rs:341-349 | pipeline errors pass through; zero results give MessageLinkNotFound, two or more give MessageNotUnique, and exactly one returns that message |
| Transport.SharedClient.TryBorrowMut | iota-streams-app/src/transport/tangle/client.rs:361 | try_borrow_mut succeeds exactly when the handle is not borrowed; afterwards it is borrowed |
| Transport.SharedClient.Release | iota-streams-app/src/transport/tangle/client.rs:362 | when the borrow ends, the handle is free again |
| Transport.SharedClient.SendMessage | iota-streams-app/src/transport/tangle/client.rs:360-365 | a borrowed handle gives TransportNotAvailable and leaves the ledger unchanged; otherwise it runs the client's send pipeline; the borrow flag ends as it began |
| Transport.SharedClient.RecvMessages | iota-streams-app/src/transport/tangle/client.rs:368-373 | a borrowed handle gives TransportNotAvailable; otherwise it runs the receive pipeline; the borrow flag ends as it began |
| Transport.SharedClient.RecvMessage | iota-streams-app/src/transport/tangle/client.rs:375-388 | a borrowed handle gives TransportNotAvailable; no match gives MessageLinkNotFound(msgid); one or more matches return the last one, because the uniqueness result is dropped |
| Transport.SharedClient.RecvMessageUnique | iota-streams-app/src/transport/tangle/client.rs:375-388 | the same, with the uniqueness error propagated: two or more matches give MessageNotUnique(msgid) |

## Left out

- Async execution, `join_all` and `block_on` are left out. Each pipeline is modelled once, in sequence, and the blocking and `async` builds share it. With one global `reachable` flag, the order of concurrent requests cannot change any outcome.
- Real node I/O is left out: `get_tips`, `post_message`, `get_message().index/data` and `ClientBuilder`. They are abstract operations on `Ledger.Tangle`. The tips are a fixed field, and posting assigns `nextId`.
- The order in which a node lists the ids under an index is the node's own behaviour; `client.rs` only keeps whatever order it is given (lines 99-109, 241-243). The abstract node lists them in posting order, and the ordering in Ledger.SendTwiceReceiveBoth rests on that choice.
- Proof of work, nonces and `MessageBuilder` internals are left out. The bundle message holds only its parents and payload. The `unwrap`s on `Indexation::new` and `finish` (lines 127, 135) are taken to succeed, because their validation is library code.
- `Indexation::new` is read as storing its data verbatim. Under that reading, a send followed by a receive returns the hex-decoding of the body, not the body itself. So no general send/receive round trip is claimed. `Ledger.SendTwiceReceiveBoth` states the exact relation.
- Transport.Client.AddNode: URL parsing belongs to `iota_client` and is not modelled. `WellFormedUrl` (an http or https scheme followed by at least one character) stands in for it. The `bool` that `iota_client` returns is modelled as `true`.
- Transport.Client.FromUrl: the panic on a URL the builder refuses is a precondition here.
- Which string `to_string()` renders is not modelled. The errors carry the link (`WholeLink`) or only its message id (`MsgIdOnly`).
- The `threads` default with the `num_cpus` feature depends on the hardware and is not modelled. The model takes the build without that feature (1 thread).
- The earlier duplicate definitions of `SendTrytesOptions`, `Default` and `handle_client_result` (lines 54-75) are not modelled. The later ones are. The error wrapping in `handle_client_result` is the single kind `ClientOperationFailure`.
- `get_bundles` and `send_trytes` (lines 200-225) use trinary-era types that the file does not import, and are not modelled.
- `dbg!` output is not modelled. Neither is the `u64` timestamp argument, which `make_bundle` ignores.

## Findings

| source | as written | input that shows it | evidently intended | confidence | as-written member | corrected member |
|---|---|---|---|---|---|---|
| iota-streams-app/src/transport/tangle/client.rs:380 | `try_or!(msgs.is_empty(), MessageNotUnique(..))` has no `?`. The error it builds is dropped, and the shared handle's `recv_message` returns the last of several matches. | Two messages sent to one link (`Ledger.SendTwiceReceiveBoth`). The shared handle returns `Ok` of the second message, while the plain client returns `MessageNotUnique`. | Propagate the error, as line 344 does on the plain client. | high, not executed | Transport.SharedClient.RecvMessage | Transport.SharedClient.RecvMessageUnique |
