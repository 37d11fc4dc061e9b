/**
 * The ledger as the transport sees it through its node, and the send and
 * receive pipelines over it. The node is an abstract store: an index from
 * key to message ids, the messages by id, the tips it would hand out, the
 * next id it would assign, and whether it answers at all. Every node
 * request that fails is a `ClientOperationFailure`; the pipelines `unwrap`
 * those results, so a failure there is a `Panic`.
 */
module Ledger {
  import opened Wrappers
  import opened Types
  import Hex
  import Codec

  datatype Tangle = Tangle(
    index: map<string, seq<MessageId>>,
    messages: map<MessageId, Message>,
    tips: (MessageId, MessageId),
    nextId: MessageId,
    reachable: bool)

  /** A consistent node: every indexed id is stored, and the next id is fresh. */
  ghost predicate Valid(t: Tangle) {
    && (forall key :: key in t.index ==> forall id :: id in t.index[key] ==> id in t.messages)
    && (forall id :: id in t.messages ==> id < t.nextId)
  }

  /** The ids indexed under a key; none when the key is unknown. */
  function IdsFor(t: Tangle, key: string): (ids: seq<MessageId>) {
    if key in t.index then t.index[key] else []
  }

  /** `get_tips`. */
  function GetTips(t: Tangle): (r: Result<(MessageId, MessageId), Error>) {
    if t.reachable then Ok(t.tips) else Err(ClientOperationFailure)
  }

  /** `get_message().data(id)`. */
  function FetchMessage(t: Tangle, id: MessageId): (r: Result<Message, Error>) {
    if t.reachable && id in t.messages then Ok(t.messages[id]) else Err(ClientOperationFailure)
  }

  /** The fetch fan-out of `get_messages`: each fetch is unwrapped; results keep the order of the ids. */
  function FetchAll(t: Tangle, ids: seq<MessageId>): (r: Result<seq<Message>, Error>)
    ensures r.Ok? <==> forall i :: 0 <= i < |ids| ==> FetchMessage(t, ids[i]).Ok?
    ensures r.Ok? ==> |r.value| == |ids| && forall i :: 0 <= i < |ids| ==> FetchMessage(t, ids[i]) == Ok(r.value[i])
    ensures r.Err? ==> r.error == Panic(ClientOperationFailure)
  {
    if ids == [] then Ok([])
    else
      match FetchMessage(t, ids[0])
      case Err(e) => Err(Panic(e))
      case Ok(m) =>
        match FetchAll(t, ids[1..])
        case Err(e) => Err(e)
        case Ok(rest) =>
          assert forall i :: 1 <= i < |ids| ==> ids[i] == ids[1..][i - 1];
          Ok([m] + rest)
  }

  /**
   * `get_messages`: look the link's key up (an unreachable node panics on
   * the unwrap), fail when no id is indexed, and otherwise return one
   * fetched message per id, in the order of the ids.
   */
  function GetMessages(t: Tangle, address: seq<Byte>, tag: seq<Byte>): (r: Result<seq<Message>, Error>)
    ensures !t.reachable ==> r == Err(Panic(ClientOperationFailure))
    ensures t.reachable && IdsFor(t, Codec.IndexKey(Link(address, tag))) == [] ==> r == Err(MessageIdsNotFound)
    ensures r.Ok? ==>
      var ids := IdsFor(t, Codec.IndexKey(Link(address, tag)));
      && |r.value| == |ids| > 0
      && forall i :: 0 <= i < |ids| ==> ids[i] in t.messages && r.value[i] == t.messages[ids[i]]
    ensures t.reachable && IdsFor(t, Codec.IndexKey(Link(address, tag))) != [] ==>
      (r.Ok? <==> forall id :: id in IdsFor(t, Codec.IndexKey(Link(address, tag))) ==> id in t.messages)
    ensures r.Err? ==> r == Err(MessageIdsNotFound) || r == Err(Panic(ClientOperationFailure))
  {
    if !t.reachable then Err(Panic(ClientOperationFailure))
    else
      var ids := IdsFor(t, Hex.Encode(address + tag));
      if |ids| == 0 then Err(MessageIdsNotFound)
      else
        match FetchAll(t, ids)
        case Err(e) =>
          var i :| 0 <= i < |ids| && FetchMessage(t, ids[i]).Err?;
          assert ids[i] in ids && ids[i] !in t.messages;
          Err(e)
        case Ok(msgs) =>
          assert forall id :: id in ids ==> exists i :: 0 <= i < |ids| && ids[i] == id;
          if |msgs| == 0 then Err(MessagesNotFound) else Ok(msgs)
  }

  /** On a consistent reachable node `get_messages` fails only when no id is indexed under the key. */
  lemma GetMessagesConsistent(t: Tangle, address: seq<Byte>, tag: seq<Byte>)
    requires Valid(t) && t.reachable
    ensures GetMessages(t, address, tag).Ok? <==> IdsFor(t, Codec.IndexKey(Link(address, tag))) != []
  {
  }

  /** `post_message`: the node stores the message under a fresh id and indexes it by its key. */
  function PostMessage(t: Tangle, m: Message): (res: (Tangle, Result<MessageId, Error>))
  {
    if !t.reachable then (t, Err(ClientOperationFailure))
    else
      var id := t.nextId;
      var index :=
        if m.payload.Some? && m.payload.value.Indexation? then
          var key := m.payload.value.index;
          t.index[key := IdsFor(t, key) + [id]]
        else t.index;
      (t.(index := index, messages := t.messages[id := m], nextId := id + 1), Ok(id))
  }

  /** Posting keeps the node consistent. */
  lemma PostMessageValid(t: Tangle, m: Message)
    requires Valid(t)
    ensures Valid(PostMessage(t, m).0)
  {
  }

  /**
   * `send_messages`: posts each message and unwraps each result; on success
   * there is one id per message. The options are not used.
   */
  function SendMessages(t: Tangle, opt: SendOptions, msgs: seq<Message>): (res: (Tangle, Result<seq<MessageId>, Error>))
    ensures res.1.Ok? ==> |res.1.value| == |msgs|
    ensures res.1.Ok? <==> t.reachable || msgs == []
    ensures !t.reachable ==> res.0 == t
    ensures res.1.Err? ==> res.1.error == Panic(ClientOperationFailure)
    ensures res.0.reachable == t.reachable
    decreases |msgs|
  {
    if msgs == [] then (t, Ok([]))
    else
      var (t1, posted) := PostMessage(t, msgs[0]);
      match posted
      case Err(e) => (t1, Err(Panic(e)))
      case Ok(id) =>
        var (t2, rest) := SendMessages(t1, opt, msgs[1..]);
        (t2, if rest.Err? then rest else Ok([id] + rest.value))
  }

  /**
   * `async_send_message_with_options`: take the node's tips as parents,
   * bundle the message, and post the bundle; the assigned ids are dropped.
   */
  function AsyncSendMessage(t: Tangle, msg: TangleMessage, opt: SendOptions): (res: (Tangle, Result<(), Error>))
    ensures res.1 == Ok(()) <==> t.reachable
    ensures !t.reachable ==> res == (t, Err(Panic(ClientOperationFailure)))
    ensures res.0.reachable == t.reachable
  {
    match GetTips(t)
    case Err(e) => (t, Err(Panic(e)))
    case Ok(tips) =>
      var (t', ids) := SendMessages(t, opt, Codec.Bundle(msg.binary.link, msg.binary.body, tips.0, tips.1));
      (t', if ids.Ok? then Ok(()) else Err(Panic(ClientOperationFailure)))
  }

  /**
   * Sending stores the bundle under a fresh id indexed by the link's key,
   * keeps the node consistent, and changes nothing else; an unreachable
   * node panics and keeps its state.
   */
  lemma SendStoresUnderIndexKey(t: Tangle, msg: TangleMessage, opt: SendOptions)
    requires Valid(t)
    ensures var (t', r) := AsyncSendMessage(t, msg, opt);
      && Valid(t')
      && (!t.reachable ==> t' == t && r == Err(Panic(ClientOperationFailure)))
      && (t.reachable ==>
            var key := Codec.IndexKey(msg.binary.link);
            && r == Ok(())
            && t.nextId !in t.messages
            && t'.messages == t.messages[t.nextId := Codec.Bundle(msg.binary.link, msg.binary.body, t.tips.0, t.tips.1)[0]]
            && t'.index == t.index[key := IdsFor(t, key) + [t.nextId]]
            && t'.nextId == t.nextId + 1
            && t'.tips == t.tips && t'.reachable)
  {
    if t.reachable {
      var bundle := Codec.Bundle(msg.binary.link, msg.binary.body, t.tips.0, t.tips.1);
      var (t1, posted) := PostMessage(t, bundle[0]);
      PostMessageValid(t, bundle[0]);
      assert bundle[1..] == [];
      assert posted == Ok(t.nextId);
      assert SendMessages(t1, opt, bundle[1..]) == (t1, Ok([]));
      assert [t.nextId] + [] == [t.nextId];
      assert SendMessages(t, opt, bundle).0 == t1;
      assert SendMessages(t, opt, bundle).1 == Ok([t.nextId]);
    }
  }

  /** The receive-side decode: each fetched message is decoded and unwrapped, in order. */
  function DecodeAll(ms: seq<Message>, link: Link): (r: Result<seq<TangleMessage>, Error>)
    ensures r.Ok? ==> |r.value| == |ms| && forall i :: 0 <= i < |ms| ==> Codec.MsgFromTangleMessage(ms[i], link) == Ok(r.value[i])
    ensures r.Err? ==> r.error.Panic? && exists i :: 0 <= i < |ms| && Codec.MsgFromTangleMessage(ms[i], link).Err?
  {
    if ms == [] then Ok([])
    else
      match Codec.MsgFromTangleMessage(ms[0], link)
      case Err(e) => Err(if e.Panic? then e else Panic(e))
      case Ok(m) =>
        match DecodeAll(ms[1..], link)
        case Err(e) =>
          var i :| 0 <= i < |ms[1..]| && Codec.MsgFromTangleMessage(ms[1..][i], link).Err?;
          assert ms[i + 1] == ms[1..][i];
          Err(e)
        case Ok(rest) =>
          assert forall i :: 1 <= i < |ms| ==> ms[i] == ms[1..][i - 1];
          Ok([m] + rest)
  }

  /**
   * `async_recv_messages`: any error of the lookup becomes an empty result;
   * only a panic gets through. Otherwise each fetched message is decoded,
   * all carrying the caller's link and timestamp 0.
   */
  function AsyncRecvMessages(t: Tangle, link: Link): (r: Result<seq<TangleMessage>, Error>)
    ensures r.Err? ==> r.error.Panic?
    ensures var got := GetMessages(t, link.appinst, link.msgid);
      got.Err? && !got.error.Panic? ==> r == Ok([])
    ensures var got := GetMessages(t, link.appinst, link.msgid);
      got.Ok? && r.Ok? ==> |r.value| == |got.value|
    ensures r.Ok? ==> forall i :: 0 <= i < |r.value| ==> r.value[i].binary.link == link && r.value[i].timestamp == 0
    ensures var got := GetMessages(t, link.appinst, link.msgid);
      got.Ok? ==> r == DecodeAll(got.value, link)
    ensures var got := GetMessages(t, link.appinst, link.msgid);
      got.Err? && got.error.Panic? ==> r == Err(got.error)
  {
    match GetMessages(t, link.appinst, link.msgid)
    case Ok(txs) => DecodeAll(txs, link)
    case Err(e) => if e.Panic? then Err(e) else Ok([])
  }

  /** On a reachable node, a link with nothing indexed receives the empty sequence. */
  lemma RecvNothingIndexed(t: Tangle, link: Link)
    requires t.reachable
    requires IdsFor(t, Codec.IndexKey(link)) == []
    ensures AsyncRecvMessages(t, link) == Ok([])
  {
  }

  /**
   * Two messages sent to one link, on a consistent node with nothing yet
   * indexed under its key, are both received, in the order sent. A body is
   * posted as it is and read back hex-decoded, so each body sent here is the
   * hex text of the body received.
   */
  lemma SendTwiceReceiveBoth(t: Tangle, link: Link, opt: SendOptions,
                             b1: seq<Byte>, ts1: U64, d1: seq<Byte>,
                             b2: seq<Byte>, ts2: U64, d2: seq<Byte>)
    requires Valid(t) && t.reachable
    requires IdsFor(t, Codec.IndexKey(link)) == []
    requires Codec.Latin1(b1) == Hex.Encode(d1) && Codec.Latin1(b2) == Hex.Encode(d2)
    ensures
      var t1 := AsyncSendMessage(t, TangleMessage(BinaryMessage(link, b1), ts1), opt).0;
      var t2 := AsyncSendMessage(t1, TangleMessage(BinaryMessage(link, b2), ts2), opt).0;
      AsyncRecvMessages(t2, link) == Ok([TangleMessage(BinaryMessage(link, d1), 0), TangleMessage(BinaryMessage(link, d2), 0)])
  {
    var key := Codec.IndexKey(link);
    var msg1, msg2 := TangleMessage(BinaryMessage(link, b1), ts1), TangleMessage(BinaryMessage(link, b2), ts2);
    SendStoresUnderIndexKey(t, msg1, opt);
    var t1 := AsyncSendMessage(t, msg1, opt).0;
    SendStoresUnderIndexKey(t1, msg2, opt);
    var t2 := AsyncSendMessage(t1, msg2, opt).0;
    var m1 := Codec.Bundle(link, b1, t.tips.0, t.tips.1)[0];
    var m2 := Codec.Bundle(link, b2, t.tips.0, t.tips.1)[0];
    assert IdsFor(t1, key) == [t.nextId];
    assert IdsFor(t2, key) == [t.nextId, t.nextId + 1];
    assert t2.messages[t.nextId] == m1 && t2.messages[t.nextId + 1] == m2;
    var got := GetMessages(t2, link.appinst, link.msgid);
    GetMessagesConsistent(t2, link.appinst, link.msgid);
    assert Link(link.appinst, link.msgid) == link;
    assert |got.value| == 2 && got.value[0] == m1 && got.value[1] == m2;
    assert got.value == [m1, m2];
    Codec.MsgFromHexData(m1, link, d1);
    Codec.MsgFromHexData(m2, link, d2);
    assert [m1, m2][1..] == [m2];
    assert [m2][1..] == [];
    var x1, x2 := TangleMessage(BinaryMessage(link, d1), 0), TangleMessage(BinaryMessage(link, d2), 0);
    assert DecodeAll([m2], link) == Ok([x2] + []);
    assert [x2] + [] == [x2];
    assert Codec.MsgFromTangleMessage([m1, m2][0], link) == Ok(x1);
    assert DecodeAll([m1, m2][1..], link) == Ok([x2]);
    assert DecodeAll([m1, m2], link) == Ok([x1] + [x2]);
    assert [x1] + [x2] == [x1, x2];
    assert AsyncRecvMessages(t2, link) == Ok([x1, x2]);
  }
}
