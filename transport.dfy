/**
 * The Tangle transport client and its shared handle.
 *
 * `Client` owns the send options and the node pool; `tangle` stands for the
 * ledger as its nodes serve it. `SharedClient` is the `Rc<RefCell<Client>>`
 * handle: every Dafny reference to one `SharedClient` is one `Rc` clone, and
 * `borrowed` is the cell's exclusive-borrow flag.
 */
module Transport {
  import opened Wrappers
  import opened Types
  import Codec
  import Ledger

  /** The node a default client connects to. */
  const DefaultNodeUrl: string := "http://localhost:14265"

  /** The URLs a node may be added by: an http or https scheme and something after it. */
  predicate WellFormedUrl(url: string) {
    || (|url| > 7 && url[..7] == "http://")
    || (|url| > 8 && url[..8] == "https://")
  }

  class Client {
    var sendOpt: SendOptions
    var nodes: seq<string>
    var tangle: Ledger.Tangle

    /** `Client::default`: one node on localhost and the default send options. */
    constructor Default(tangle: Ledger.Tangle)
      ensures sendOpt == DefaultSendOptions() && nodes == [DefaultNodeUrl] && this.tangle == tangle
    {
      sendOpt := DefaultSendOptions();
      nodes := [DefaultNodeUrl];
      this.tangle := tangle;
    }

    /** `Client::new`: a ready node pool with the given send options. */
    constructor (options: SendOptions, nodes: seq<string>, tangle: Ledger.Tangle)
      ensures sendOpt == options && this.nodes == nodes && this.tangle == tangle
    {
      sendOpt := options;
      this.nodes := nodes;
      this.tangle := tangle;
    }

    /** `Client::new_from_url`: the builder's `unwrap` needs a URL it accepts. */
    constructor FromUrl(url: string, tangle: Ledger.Tangle)
      requires WellFormedUrl(url)
      ensures sendOpt == DefaultSendOptions() && nodes == [url] && this.tangle == tangle
    {
      sendOpt := DefaultSendOptions();
      nodes := [url];
      this.tangle := tangle;
    }

    /** `add_node`: appends an accepted URL to the pool, or fails and leaves the pool as it was. */
    method AddNode(url: string) returns (r: Result<bool, Error>)
      modifies this`nodes
      ensures WellFormedUrl(url) ==> r == Ok(true) && nodes == old(nodes) + [url]
      ensures !WellFormedUrl(url) ==> r == Err(ClientOperationFailure) && nodes == old(nodes)
    {
      if WellFormedUrl(url) {
        nodes := nodes + [url];
        r := Ok(true);
      } else {
        r := Err(ClientOperationFailure);
      }
    }

    function GetSendOptions(): (o: SendOptions)
      reads this
    {
      sendOpt
    }

    /** `set_send_options`: the getter then returns exactly `opt`; nothing else changes. */
    method SetSendOptions(opt: SendOptions)
      modifies this`sendOpt
      ensures GetSendOptions() == opt
      ensures nodes == old(nodes) && tangle == old(tangle)
    {
      sendOpt := opt;
    }

    /** The receive options are the unit value. */
    function GetRecvOptions(): (o: ())
    {
      ()
    }

    /** `set_recv_options`: there is nothing to set. */
    method SetRecvOptions(opt: ())
      ensures GetRecvOptions() == opt
    {
    }

    /**
     * `send_message`: resolve the tips, bundle the message under its link's
     * key and post the bundle with the client's send options.
     */
    method SendMessage(msg: TangleMessage) returns (r: Result<(), Error>)
      modifies this`tangle
      ensures (tangle, r) == Ledger.AsyncSendMessage(old(tangle), msg, sendOpt)
    {
      var tips := Ledger.GetTips(tangle);
      if tips.Err? {
        return Err(Panic(tips.error));
      }
      // Bundling never fails, and a node that gave tips accepts the posts.
      var msgs := Codec.MsgToTangle(msg.binary, msg.timestamp, tips.value.0, tips.value.1);
      var sent := Ledger.SendMessages(tangle, sendOpt, msgs.value);
      tangle := sent.0;
      r := if sent.1.Ok? then Ok(()) else Err(Panic(ClientOperationFailure));
    }

    /** `recv_messages`: every message stored for the link, decoded. */
    method RecvMessages(link: Link) returns (r: Result<seq<TangleMessage>, Error>)
      ensures r == Ledger.AsyncRecvMessages(tangle, link)
    {
      r := Ledger.AsyncRecvMessages(tangle, link);
    }

    /**
     * `recv_message`: pop the last received message and require that
     * nothing is left; no message is MessageLinkNotFound, more than one is
     * MessageNotUnique, both naming the whole link.
     */
    method RecvMessage(link: Link) returns (r: Result<TangleMessage, Error>)
      ensures var all := Ledger.AsyncRecvMessages(tangle, link);
        && (all.Err? ==> r == Err(all.error))
        && (all.Ok? && |all.value| == 0 ==> r == Err(MessageLinkNotFound(WholeLink(link))))
        && (all.Ok? && |all.value| == 1 ==> r == Ok(all.value[0]))
        && (all.Ok? && |all.value| > 1 ==> r == Err(MessageNotUnique(WholeLink(link))))
    {
      var received := RecvMessages(link);
      if received.Err? {
        return Err(received.error);
      }
      var msgs := received.value;
      if |msgs| > 0 {
        var msg := msgs[|msgs| - 1];
        msgs := msgs[..|msgs| - 1];
        if |msgs| != 0 {
          return Err(MessageNotUnique(WholeLink(link)));
        }
        return Ok(msg);
      } else {
        return Err(MessageLinkNotFound(WholeLink(link)));
      }
    }
  }

  /**
   * `Rc<RefCell<Client>>`: each operation first tries to borrow the client
   * exclusively; when the cell is already borrowed it fails with
   * TransportNotAvailable at once and touches nothing.
   */
  class SharedClient {
    const inner: Client
    var borrowed: bool

    constructor (client: Client)
      ensures inner == client && !borrowed
    {
      inner := client;
      borrowed := false;
    }

    /** `try_borrow_mut`: succeeds exactly when the cell is free; the cell is borrowed afterwards either way. */
    method TryBorrowMut() returns (ok: bool)
      modifies this`borrowed
      ensures ok == !old(borrowed) && borrowed
    {
      ok := !borrowed;
      borrowed := true;
    }

    /** Dropping the `RefMut` frees the cell. */
    method Release()
      modifies this`borrowed
      ensures !borrowed
    {
      borrowed := false;
    }

    method SendMessage(msg: TangleMessage) returns (r: Result<(), Error>)
      modifies this`borrowed, inner`tangle
      ensures borrowed == old(borrowed)
      ensures old(borrowed) ==> r == Err(TransportNotAvailable) && inner.tangle == old(inner.tangle)
      ensures !old(borrowed) ==> (inner.tangle, r) == Ledger.AsyncSendMessage(old(inner.tangle), msg, inner.sendOpt)
    {
      var ok := TryBorrowMut();
      if !ok {
        return Err(TransportNotAvailable);
      }
      r := inner.SendMessage(msg);
      Release();
    }

    method RecvMessages(link: Link) returns (r: Result<seq<TangleMessage>, Error>)
      modifies this`borrowed
      ensures borrowed == old(borrowed)
      ensures old(borrowed) ==> r == Err(TransportNotAvailable)
      ensures !old(borrowed) ==> r == Ledger.AsyncRecvMessages(inner.tangle, link)
    {
      var ok := TryBorrowMut();
      if !ok {
        return Err(TransportNotAvailable);
      }
      r := inner.RecvMessages(link);
      Release();
    }

    /**
     * `recv_message` as written: the uniqueness check's result is dropped,
     * so with several matches the last one is returned; errors name only
     * the message id.
     */
    method RecvMessage(link: Link) returns (r: Result<TangleMessage, Error>)
      modifies this`borrowed
      ensures borrowed == old(borrowed)
      ensures old(borrowed) ==> r == Err(TransportNotAvailable)
      ensures !old(borrowed) ==>
        var all := Ledger.AsyncRecvMessages(inner.tangle, link);
        && (all.Err? ==> r == Err(all.error))
        && (all.Ok? && |all.value| == 0 ==> r == Err(MessageLinkNotFound(MsgIdOnly(link.msgid))))
        && (all.Ok? && |all.value| > 0 ==> r == Ok(all.value[|all.value| - 1]))
    {
      var ok := TryBorrowMut();
      if !ok {
        return Err(TransportNotAvailable);
      }
      var received := inner.RecvMessages(link);
      if received.Err? {
        Release();
        return Err(received.error);
      }
      var msgs := received.value;
      if |msgs| > 0 {
        var msg := msgs[|msgs| - 1];
        msgs := msgs[..|msgs| - 1];
        var unique: Result<(), Error> := if |msgs| == 0 then Ok(()) else Err(MessageNotUnique(MsgIdOnly(link.msgid)));
        r := Ok(msg);
      } else {
        r := Err(MessageLinkNotFound(MsgIdOnly(link.msgid)));
      }
      Release();
    }

    /** `recv_message` with the uniqueness check's error propagated, as on the plain client. */
    method RecvMessageUnique(link: Link) returns (r: Result<TangleMessage, Error>)
      modifies this`borrowed
      ensures borrowed == old(borrowed)
      ensures old(borrowed) ==> r == Err(TransportNotAvailable)
      ensures !old(borrowed) ==>
        var all := Ledger.AsyncRecvMessages(inner.tangle, link);
        && (all.Err? ==> r == Err(all.error))
        && (all.Ok? && |all.value| == 0 ==> r == Err(MessageLinkNotFound(MsgIdOnly(link.msgid))))
        && (all.Ok? && |all.value| == 1 ==> r == Ok(all.value[0]))
        && (all.Ok? && |all.value| > 1 ==> r == Err(MessageNotUnique(MsgIdOnly(link.msgid))))
    {
      var ok := TryBorrowMut();
      if !ok {
        return Err(TransportNotAvailable);
      }
      var received := inner.RecvMessages(link);
      if received.Err? {
        Release();
        return Err(received.error);
      }
      var msgs := received.value;
      if |msgs| > 0 {
        var msg := msgs[|msgs| - 1];
        msgs := msgs[..|msgs| - 1];
        r := if |msgs| == 0 then Ok(msg) else Err(MessageNotUnique(MsgIdOnly(link.msgid)));
      } else {
        r := Err(MessageLinkNotFound(MsgIdOnly(link.msgid)));
      }
      Release();
    }
  }
}
