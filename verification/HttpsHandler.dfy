/** The session loop as the object it is: its local variables are fields, and one method per part of
    the loop body updates them.  Serve computes exactly what HttpsSession.Handle describes. */
module HttpsHandler {
  import opened Common
  import opened HttpMessages
  import opened BodyPipeline
  import opened LoggingTamper
  import Session = HttpsSession

  class Handler {
    const deps: Session.Deps
    var client: seq<Item>
    var upstream: Option<Session.Conn>
    var dialledHost: string
    var connectDepth: nat
    var handshakes: nat
    var dials: seq<string>
    var closed: nat
    var wire: seq<Session.Sent>

    ghost function Snapshot(): Session.Session
      reads this
    {
      Session.Session(client, upstream, dialledHost, connectDepth, handshakes, dials, closed, wire)
    }

    /** A method that ends a round with `exit`, or lets the loop go on, has done what `o` says. */
    ghost predicate Did(o: Session.Outcome, exit: Option<Session.Exit>)
      reads this
    {
      o == if exit.None? then Session.Continue(Snapshot()) else Session.Stop(Snapshot(), exit.value)
    }

    constructor (deps: Session.Deps, client: seq<Item>)
      ensures this.deps == deps && Snapshot() == Session.Session(client, None, "", 0, 0, [], 0, [])
    {
      this.deps, this.client, upstream, dialledHost := deps, client, None, "";
      connectDepth, handshakes, dials, closed, wire := 0, 0, [], 0, [];
    }

    method CloseServer()
      modifies this`upstream, this`closed
      ensures Snapshot() == Session.CloseUpstream(old(Snapshot()))
    {
      if upstream.Some? {
        upstream, closed := None, closed + 1;
      }
    }

    /** A write to a connection, of which all or a first part goes out. */
    method Send(w: Session.Sent)
      modifies this`wire
      ensures Snapshot() == Session.Send(deps, old(Snapshot()), w)
    {
      var items := if deps.writes(|wire|) then w.items else w.items[..Min(deps.reach(|wire|), |w.items|)];
      wire := wire + [w.(items := items)];
    }

    method NestedConnect(host: string, rest: seq<Item>) returns (exit: Option<Session.Exit>)
      modifies this
      ensures Did(Session.OnConnect(deps, old(Snapshot()), host, rest), exit)
      ensures old(connectDepth) >= 4 ==>
                exit == Some(Session.TooDeep) && client == rest && wire == old(wire) && handshakes == old(handshakes)
      ensures old(connectDepth) < 4 ==>
                && handshakes == old(handshakes) + 1 && |wire| == |old(wire)| + 1
                && match deps.handshake(old(connectDepth), host)
                   case None => exit == Some(Session.HandshakeFailed) && upstream == old(upstream)
                   case Some(nested) =>
                     exit == None && client == nested && upstream == None && connectDepth == old(connectDepth) + 1
    {
      client := rest;
      if connectDepth >= Session.MAX_CONNECT_DEPTH {
        return Some(Session.TooDeep);
      }
      Send(Session.ToClient(Session.ESTABLISHED));
      handshakes := handshakes + 1;
      var nested := deps.handshake(connectDepth, host);
      if nested.None? {
        return Some(Session.HandshakeFailed);
      }
      if upstream.Some? {
        CloseServer();
        dialledHost := "";
      }
      client := nested.value;
      connectDepth := connectDepth + 1;
      exit := None;
    }

    method Connect(host: string)
      modifies this
      ensures Snapshot() == Session.Connected(deps, old(Snapshot()), host)
    {
      if upstream.Some? && host != dialledHost {
        CloseServer();
      }
      if upstream.None? {
        var conn := deps.dial(|dials|, Session.Address(deps, |dials|, host), host);
        if conn.Some? {
          upstream := Some(Session.Conn(|dials|, host, conn.value));
          dials := dials + [host];
          dialledHost := host;
        }
      }
    }

    method CopyBoth(head: Head, src: seq<Item>) returns (exit: Option<Session.Exit>)
      requires head.RequestHead? && upstream.Some?
      modifies this
      ensures Did(Session.PassThrough(deps, old(Snapshot()), head, src), exit)
    {
      hide WriteRequest;
      var c := upstream.value;
      var (items, ok, rest) := WriteRequest(ReceivedRequest(head), src);
      client := rest;
      var sent := ok && deps.writes(|wire|);
      Send(Session.ToUpstream(c.id, Flushed(ReceivedRequest(head), items, ok, deps.spill(|wire|))));
      if !sent {
        return Some(Session.RequestNotSent);
      }
      client := [];
      Send(Session.ToUpstream(c.id, rest));
      Send(Session.ToClient(c.input));
      upstream := Some(c.(input := []));
      exit := Some(Session.PassedThrough);
    }

    /** The response: DecodeBody, the tamperer, Encode, and the write to the client. */
    method Mirror(q: Req) returns (exit: Option<Session.Exit>)
      requires upstream.Some?
      modifies this`upstream, this`wire
      ensures Did(Session.Reply(deps, old(Snapshot()), q), exit)
    {
      hide Decode, Encode, Write, Received, Session.IsWebsocketUpgrade;
      var c := upstream.value;
      if c.input == [] || !c.input[0].HeadItem? || !c.input[0].head.ResponseHead? {
        return Some(Session.BadResponse);
      }
      var head := c.input[0].head;
      if Session.IsWebsocketUpgrade(q.header) && head.status == 101 {
        upstream := Some(c.(input := c.input[1..]));
        var sent := deps.writes(|wire|);
        Send(Session.ToClient(Write(Received(q.verb, head), []).0));
        return Some(if sent then Session.Upgraded else Session.ResponseNotSent);
      }
      var r2, readable, rest := Prepare(q, head, c.input[1..]);
      if !readable {
        upstream := Some(c.(input := rest));
        return Some(Session.ShortBody);
      }
      var (items, ok, rest') := Write(r2, rest);
      upstream := Some(c.(input := rest'));
      var sent := ok && deps.writes(|wire|);
      Send(Session.ToClient(items));
      exit := if sent then None else Some(Session.ResponseNotSent);
    }

    method Prepare(q: Req, head: Head, src: seq<Item>) returns (r: Resp, readable: bool, rest: seq<Item>)
      requires head.ResponseHead?
      ensures var (r1, view, src1) := Decode(deps.inflate, Received(q.verb, head), src);
              (r, readable, rest) == Encode(Session.OnResponse(deps.tamperer, q, r1, view), src1)
    {
      hide Decode, Encode, Received, Session.OnResponse;
      var source := new Source(src);
      var resp := new Response(Received(q.verb, head), source);
      var view := resp.DecodeBody(deps.inflate);
      var shown := Resp(resp.verb, resp.status, resp.header, resp.contentLength, resp.transferEncoding, resp.body);
      var final := new Response(Session.OnResponse(deps.tamperer, q, shown, view), source);
      readable := final.Reframe();
      r := Resp(final.verb, final.status, final.header, final.contentLength, final.transferEncoding, final.body);
      rest := source.rest;
    }

    method Exchange(head: Head, src: seq<Item>) returns (exit: Option<Session.Exit>)
      requires head.RequestHead? && upstream.Some?
      modifies this
      ensures Did(Session.Exchange(deps, old(Snapshot()), head, src), exit)
    {
      hide WriteRequest, Session.OnRequest, Session.Reply;
      var (q, src1) := Session.OnRequest(deps.tamperer, ReceivedRequest(head), src);
      var (items, ok, rest) := WriteRequest(q, src1);
      client := rest;
      var sent := ok && deps.writes(|wire|);
      Send(Session.ToUpstream(upstream.value.id, Flushed(q, items, ok, deps.spill(|wire|))));
      if !sent {
        return Some(Session.RequestNotSent);
      }
      exit := Mirror(q);
    }

    method Round() returns (exit: Option<Session.Exit>)
      modifies this
      ensures Did(Session.Step(deps, old(Snapshot())), exit)
    {
      hide Session.OnConnect, Session.Connected, Session.PassThrough, Session.Exchange, Session.IsIntercepted;
      if client == [] {
        return Some(Session.ClientDone);
      }
      if !client[0].HeadItem? || !client[0].head.RequestHead? {
        return Some(Session.BadRequest);
      }
      var head, src := client[0].head, client[1..];
      if head.verb == "CONNECT" {
        exit := NestedConnect(head.host, src);
        return;
      }
      client := src;
      Connect(head.host);
      if upstream.None? {
        return Some(Session.DialFailed);
      }
      if Session.IsIntercepted(deps, head.host) {
        exit := Exchange(head, src);
      } else {
        exit := CopyBoth(head, src);
      }
    }

    method Serve() returns (exit: Session.Exit)
      requires connectDepth <= Session.MAX_CONNECT_DEPTH
      modifies this
      ensures (Snapshot(), exit) == (Session.CloseUpstream(Session.Loop(deps, old(Snapshot())).0),
                                     Session.Loop(deps, old(Snapshot())).1)
    {
      hide Session.Step;
      while true
        invariant connectDepth <= Session.MAX_CONNECT_DEPTH
        invariant Session.Loop(deps, Snapshot()) == Session.Loop(deps, old(Snapshot()))
        decreases Session.MAX_CONNECT_DEPTH - connectDepth, |client|
      {
        ghost var s := Snapshot();
        var end := Round();
        if end.Some? {
          CloseServer();
          return end.value;
        }
        Session.StepConsumes(deps, s);
      }
    }
  }
}
