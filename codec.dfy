/**
 * The mapping between Streams messages and ledger messages: the index key of
 * a link, the one-message bundle a Streams message is sent as, and the
 * decoding of a fetched ledger message.
 */
module Codec {
  import opened Wrappers
  import opened Types
  import Hex

  /** The key a link's messages are indexed under: hex of appinst ++ msgid. */
  function IndexKey(link: Link): (key: string)
    ensures |key| == 2 * (|link.appinst| + |link.msgid|)
  {
    Hex.Encode(link.appinst + link.msgid)
  }

  /** The key is the hex of the application instance followed by the hex of the message id. */
  lemma IndexKeySplit(link: Link)
    ensures IndexKey(link) == Hex.Encode(link.appinst) + Hex.Encode(link.msgid)
  {
    Hex.EncodeAppend(link.appinst, link.msgid);
  }

  /** Among links whose application instances have one length, distinct links have distinct keys. */
  lemma IndexKeyInjective(a: Link, b: Link)
    requires |a.appinst| == |b.appinst|
    ensures IndexKey(a) == IndexKey(b) ==> a == b
  {
    if IndexKey(a) == IndexKey(b) {
      Hex.EncodeInjective(a.appinst + a.msgid, b.appinst + b.msgid);
      var n := |a.appinst|;
      assert a.appinst == (a.appinst + a.msgid)[..n];
      assert b.appinst == (b.appinst + b.msgid)[..n];
      assert a.msgid == (a.appinst + a.msgid)[n..];
      assert b.msgid == (b.appinst + b.msgid)[n..];
    }
  }

  /** Without the equal-length condition the key does not tell links apart. */
  lemma IndexKeyAmbiguous()
    ensures IndexKey(Link([1], [2])) == IndexKey(Link([1, 2], []))
  {
    assert [1] + [2] == [1, 2] + [];
  }

  /** The payload bytes read one character per byte, as `hex::decode` reads them. */
  function Latin1(data: seq<Byte>): (s: string)
    ensures |s| == |data|
    ensures forall i :: 0 <= i < |data| ==> s[i] as int == data[i]
  {
    seq(|data|, i requires 0 <= i < |data| => data[i] as char)
  }

  /**
   * `msg_from_tangle_message`: only an indexation payload decodes; its data
   * is hex text of the body; the result carries the caller's link and
   * timestamp 0, since the ledger message gives no timestamp.
   */
  function MsgFromTangleMessage(message: Message, link: Link): (r: Result<TangleMessage, Error>)
    ensures message.payload == None ==> r == Err(Panic(MissingPayload))
    ensures message.payload == Some(OtherPayload) ==> r == Err(UnexpectedPayloadType)
    ensures r.Ok? ==> r.value.binary.link == link && r.value.timestamp == 0
    ensures r.Ok? ==>
      && message.payload.Some? && message.payload.value.Indexation?
      && 2 * |r.value.binary.body| == |message.payload.value.data|
  {
    match message.payload
    case None => Err(Panic(MissingPayload))
    case Some(OtherPayload) => Err(UnexpectedPayloadType)
    case Some(Indexation(_, data)) =>
      match Hex.Decode(Latin1(data))
      case Err(e) => Err(InvalidHex(e))
      case Ok(body) => Ok(TangleMessage(BinaryMessage(link, body), 0))
  }

  /** An indexation whose data is the hex text of b decodes to body b. */
  lemma MsgFromHexData(message: Message, link: Link, b: seq<Byte>)
    requires message.payload.Some? && message.payload.value.Indexation?
    requires Latin1(message.payload.value.data) == Hex.Encode(b)
    ensures MsgFromTangleMessage(message, link) == Ok(TangleMessage(BinaryMessage(link, b), 0))
  {
    Hex.DecodeEncode(b);
  }

  /**
   * An indexation fails to decode exactly when its data has odd length or
   * holds a byte that is not a hex digit; the error is then InvalidHex.
   */
  lemma MsgFromTangleMessageFails(message: Message, link: Link)
    requires message.payload.Some? && message.payload.value.Indexation?
    ensures var data := message.payload.value.data;
      MsgFromTangleMessage(message, link).Err? <==>
        |data| % 2 == 1 || exists i :: 0 <= i < |data| && !Hex.IsHexDigit(data[i] as char)
    ensures MsgFromTangleMessage(message, link).Err? ==>
      MsgFromTangleMessage(message, link).error.InvalidHex?
  {
    var data := message.payload.value.data;
    var s := Latin1(data);
    Hex.DecodeFails(s);
    if exists i :: 0 <= i < |data| && !Hex.IsHexDigit(data[i] as char) {
      var i :| 0 <= i < |data| && !Hex.IsHexDigit(data[i] as char);
      assert s[i] == data[i] as char;
    }
    if exists i :: 0 <= i < |s| && !Hex.IsHexDigit(s[i]) {
      var i :| 0 <= i < |s| && !Hex.IsHexDigit(s[i]);
      assert s[i] == data[i] as char;
    }
  }

  /** The messages a Streams message is sent as: `make_bundle` builds exactly this. */
  function Bundle(link: Link, body: seq<Byte>, trunk: MessageId, branch: MessageId): (b: seq<Message>)
  {
    [Message(trunk, branch, Some(Indexation(IndexKey(link), body)))]
  }

  /**
   * `make_bundle`: one message with parents (trunk, branch) and an
   * indexation payload holding the body, as is, under the key of the link
   * (address, tag). The timestamp is not used.
   */
  method MakeBundle(address: seq<Byte>, tag: seq<Byte>, body: seq<Byte>, timestamp: U64,
                    trunk: MessageId, branch: MessageId)
    returns (r: Result<seq<Message>, Error>)
    ensures r.Ok? && |r.value| == 1
    ensures r.value[0].parent1 == trunk && r.value[0].parent2 == branch
    ensures r.value[0].payload == Some(Indexation(IndexKey(Link(address, tag)), body))
    ensures r.value == Bundle(Link(address, tag), body, trunk, branch)
  {
    var msgs: seq<Message> := [];
    var payload := Indexation(Hex.Encode(address + tag), body);
    var msg := Message(trunk, branch, Some(payload));
    msgs := msgs + [msg];
    return Ok(msgs);
  }

  /** `msg_to_tangle`: the bundle of a binary message, keyed by its own link. */
  method MsgToTangle(msg: BinaryMessage, timestamp: U64, trunk: MessageId, branch: MessageId)
    returns (r: Result<seq<Message>, Error>)
    ensures r == Ok(Bundle(msg.link, msg.body, trunk, branch))
    ensures |r.value| == 1 && r.value[0].payload.value.index == IndexKey(msg.link)
  {
    r := MakeBundle(msg.link.appinst, msg.link.msgid, msg.body, timestamp, trunk, branch);
  }
}
