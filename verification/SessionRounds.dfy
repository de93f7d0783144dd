/** What one round of the session loop does with a message, said by the names, words and bytes in it:
    whose requests the tamperer gets, where the proxy dials, and what goes out on which connection. */
module SessionRounds {
  import opened Common
  import opened Hosts
  import opened HttpMessages
  import opened BodyPipeline
  import opened LoggingTamper
  import opened HttpsSession

  // --------------------------------------------------------------------------- connecting, dialling

  /** The round has, or gets, a connection for this host. */
  ghost predicate Reaches(deps: Deps, s: Session, host: string) {
    (s.upstream.Some? && s.dialledHost == host) || forall address :: deps.dial(|s.dials|, address, host).Some?
  }

  /** The connection for a host is the one in use if that was dialled for it; else it is closed and a
      new one dialled, at the resolver's answer for Discord's names and at the host for all others. */
  lemma ConnectsTo(deps: Deps, s: Session, host: string)
    ensures var t := Connected(deps, s, host);
            if s.upstream.Some? && s.dialledHost == host then t == s else
              var n := |s.dials|;
              var address := if NamesDiscord(host) && deps.resolve(n, host).Some? then deps.resolve(n, host).value
                             else host;
              && t.client == s.client && t.depth == s.depth && t.handshakes == s.handshakes && t.wire == s.wire
              && t.closed == (if s.upstream.Some? then s.closed + 1 else s.closed)
              && match deps.dial(n, address, host)
                 case None => t.upstream == None && t.dials == s.dials
                 case Some(input) =>
                   t.upstream == Some(Conn(n, host, input)) && t.dials == s.dials + [host] && t.dialledHost == host
  {
    DiscordHeadersByLabels(host);
    hide IsDiscordHost, NamesDiscord;
  }

  // ------------------------------------------------------------------------------ requests go out

  /** What is read from these items is this request, with this body. */
  ghost predicate Carries(items: seq<Item>, q: Req, bytes: seq<byte>) {
    && items != [] && items[0].HeadItem? && items[0].head.RequestHead?
    && items[0].head.verb == q.verb && items[0].head.host == q.host
    && items[0].head.target == q.target && items[0].head.header == q.header
    && forall after :: ReadBody(items[1..] + after, items[0].head.framing) == Read(bytes, true, after)
  }

  /** A request that stands at the front of the client's stream, with all of its body. */
  predicate IsAhead(head: Head, bytes: seq<byte>) {
    head.RequestHead? && !head.framing.UntilClose? && Fits(head.framing, bytes)
  }

  /** A request as the tamperer may return it: with the body and framing that it had. */
  predicate KeepsTheBody(q: Req, head: Head)
    requires head.RequestHead?
  {
    var r := ReceivedRequest(head);
    q.body == r.body && q.contentLength == r.contentLength && q.transferEncoding == r.transferEncoding
  }

  lemma RequestIsWritten(q: Req, head: Head, bytes: seq<byte>, rest: seq<Item>)
    requires IsAhead(head, bytes) && KeepsTheBody(q, head)
    ensures var (items, ok, rest') := WriteRequest(q, BodyItems(head.framing, bytes) + rest);
            ok && rest' == rest && Carries(items, q, bytes)
  {
    var src := BodyItems(head.framing, bytes) + rest;
    ReadBackWhole(head.framing, bytes, rest);
    if q.body.NoBody? { assert src == rest; }
    var f := RequestFraming(q, bytes);
    var (items, ok, rest') := WriteRequest(q, src);
    assert items[1..] == BodyItems(f, bytes);
    forall after ensures ReadBody(items[1..] + after, f) == Read(bytes, true, after) {
      ReadBackWhole(f, bytes, after);
    }
  }

  /** The exchange begins with the request that the tamperer made of the client's, or with the client's
      own if the tamperer failed; what came behind it stays for the next round. */
  lemma RequestGoesOut(deps: Deps, s: Session, head: Head, bytes: seq<byte>, rest: seq<Item>)
    returns (q: Req, asked: seq<Item>)
    requires s.upstream.Some? && deps.writes(|s.wire|) && IsAhead(head, bytes) && !deps.tamperer.Logger?
    requires deps.tamperer.Custom? ==>
               var answer := deps.tamperer.onRequest(ReceivedRequest(head));
               answer.Some? ==> KeepsTheBody(answer.value, head)
    ensures q == if deps.tamperer.Custom? && deps.tamperer.onRequest(ReceivedRequest(head)).Some? then
                   deps.tamperer.onRequest(ReceivedRequest(head)).value
                 else ReceivedRequest(head)
    ensures Carries(asked, q, bytes)
    ensures Exchange(deps, s, head, BodyItems(head.framing, bytes) + rest) ==
            Reply(deps, s.(client := rest, wire := s.wire + [ToUpstream(s.upstream.value.id, asked)]), q)
  {
    var src := BodyItems(head.framing, bytes) + rest;
    q := if deps.tamperer.Custom? && deps.tamperer.onRequest(ReceivedRequest(head)).Some? then
      deps.tamperer.onRequest(ReceivedRequest(head)).value
    else ReceivedRequest(head);
    assert OnRequest(deps.tamperer, ReceivedRequest(head), src) == (q, src);
    RequestIsWritten(q, head, bytes, rest);
    asked := WriteRequest(q, src).0;
    hide OnRequest, WriteRequest, Carries, Reply, BodyItems, ReceivedRequest;
  }

  // ---------------------------------------------------------------------------------- passthrough

  /** A round over a request other than CONNECT, once it has a connection. */
  lemma RoundGoesBy(deps: Deps, s: Session, head: Head, src: seq<Item>)
    requires s.client == [HeadItem(head)] + src && head.RequestHead? && head.verb != "CONNECT"
    requires Connected(deps, s.(client := src), head.host).upstream.Some?
    ensures var t := Connected(deps, s.(client := src), head.host);
            Step(deps, s) ==
              if ForTheTamperer(deps, head.host) then Exchange(deps, t, head, src) else PassThrough(deps, t, head, src)
  {
    assert s.client[1..] == src;
    InterceptedIff(deps, head.host);
    hide IsIntercepted, ForTheTamperer, Connected, Exchange, PassThrough;
  }

  /** A round over a request other than CONNECT ends in a passthrough exactly when the request names
      neither the proxy nor a Discord host. */
  lemma PassesThroughIff(deps: Deps, s: Session, head: Head, bytes: seq<byte>, rest: seq<Item>)
    requires s.client == [HeadItem(head)] + (BodyItems(head.framing, bytes) + rest)
    requires IsAhead(head, bytes) && head.verb != "CONNECT" && Reaches(deps, s, head.host)
    requires forall n: nat :: deps.writes(n)
    ensures (Step(deps, s).Stop? && Step(deps, s).exit == PassedThrough) <==>
            !(head.host == deps.proxyHostPort || head.host == deps.cleanHostname || NamesDiscord(head.host))
  {
    var src := BodyItems(head.framing, bytes) + rest;
    ConnectsTo(deps, s.(client := src), head.host);
    RoundGoesBy(deps, s, head, src);
    var t := Connected(deps, s.(client := src), head.host);
    ExchangeIsNoPassthrough(deps, t, head, src);
    hide Step, Connected, Exchange, PassThrough, NamesDiscord, BodyItems;
    var asked := PassthroughCopiesBoth(deps, t, head, bytes, rest);
  }

  lemma ExchangeIsNoPassthrough(deps: Deps, s: Session, head: Head, src: seq<Item>)
    requires head.RequestHead? && s.upstream.Some?
    ensures Exchange(deps, s, head, src).Stop? ==> Exchange(deps, s, head, src).exit != PassedThrough
  {
    hide OnRequest, WriteRequest, Decode, Encode, Write, Received, OnResponse, IsWebsocketUpgrade;
  }

  /** For a plain name, with a port or without: its last two labels decide. */
  lemma PassesThroughByLabels(deps: Deps, s: Session, head: Head, bytes: seq<byte>, rest: seq<Item>, name: string,
    port: string)
    requires s.client == [HeadItem(head)] + (BodyItems(head.framing, bytes) + rest)
    requires IsAhead(head, bytes) && head.verb != "CONNECT" && Reaches(deps, s, head.host)
    requires forall n: nat :: deps.writes(n)
    requires Plain(name) && Plain(port) && (head.host == name || head.host == name + ":" + port)
    ensures var ls := Labels(Canonical(name));
            (Step(deps, s).Stop? && Step(deps, s).exit == PassedThrough) <==>
            && head.host != deps.proxyHostPort && head.host != deps.cleanHostname
            && !(|ls| >= 2 && ls[|ls| - 2] == "discord" && (ls[|ls| - 1] == "com" || ls[|ls| - 1] == "gg"))
  {
    PassesThroughIff(deps, s, head, bytes, rest);
    PortIsStripped(name, port);
    hide Step, ServerName, Labels, Canonical, IsAhead, Reaches;
  }

  lemma PassthroughCopiesBoth(deps: Deps, s: Session, head: Head, bytes: seq<byte>, rest: seq<Item>)
    returns (asked: seq<Item>)
    requires s.upstream.Some? && IsAhead(head, bytes) && forall n: nat :: deps.writes(n)
    ensures Carries(asked, ReceivedRequest(head), bytes)
    ensures PassThrough(deps, s, head, BodyItems(head.framing, bytes) + rest) ==
            Stop(CopiedBoth(s, asked, rest), PassedThrough)
  {
    RequestIsWritten(ReceivedRequest(head), head, bytes, rest);
    asked := WriteRequest(ReceivedRequest(head), BodyItems(head.framing, bytes) + rest).0;
    hide WriteRequest, Carries, BodyItems, ReceivedRequest;
  }

  /** The session after `asked` and all the rest of the client's stream have gone to the upstream, and
      all that the upstream sends to the client. */
  function CopiedBoth(s: Session, asked: seq<Item>, rest: seq<Item>): Session
    requires s.upstream.Some?
  {
    var c := s.upstream.value;
    s.(client := [], upstream := Some(c.(input := [])),
       wire := s.wire + [ToUpstream(c.id, asked)] + [ToUpstream(c.id, rest)] + [ToClient(c.input)])
  }

  /** Such a round writes the request as it came and copies both streams to their ends, and no tamperer
      is asked. */
  lemma PassthroughIsACopy(deps: Deps, s: Session, head: Head, bytes: seq<byte>, rest: seq<Item>)
    returns (asked: seq<Item>)
    requires s.client == [HeadItem(head)] + (BodyItems(head.framing, bytes) + rest)
    requires IsAhead(head, bytes) && head.verb != "CONNECT" && Reaches(deps, s, head.host)
    requires forall n: nat :: deps.writes(n)
    requires !(head.host == deps.proxyHostPort || head.host == deps.cleanHostname || NamesDiscord(head.host))
    ensures Carries(asked, ReceivedRequest(head), bytes)
    ensures var t := Connected(deps, s.(client := BodyItems(head.framing, bytes) + rest), head.host);
            t.upstream.Some? && Step(deps, s) == Stop(CopiedBoth(t, asked, rest), PassedThrough)
  {
    var src := BodyItems(head.framing, bytes) + rest;
    ConnectsTo(deps, s.(client := src), head.host);
    RoundGoesBy(deps, s, head, src);
    hide Step, Connected, PassThrough, NamesDiscord, BodyItems, CopiedBoth, Carries;
    asked := PassthroughCopiesBoth(deps, Connected(deps, s.(client := src), head.host), head, bytes, rest);
  }

  // ------------------------------------------------------------------------------- answers go back

  /** `t` with one byte sequence or another around it, whatever the case. */
  ghost predicate HasWord(s: string, t: string) { exists a, b :: LowerCase(s) == a + t + b }

  /** The session becomes a WebSocket relay exactly when the request asked for it and Discord agreed,
      and the client has been told so. */
  lemma UpgradesIff(deps: Deps, s: Session, q: Req, head: Head, more: seq<Item>)
    requires s.upstream.Some? && s.upstream.value.input == [HeadItem(head)] + more && head.ResponseHead?
    ensures (Reply(deps, s, q).Stop? && Reply(deps, s, q).exit == Upgraded) <==>
            && head.status == 101 && deps.writes(|s.wire|)
            && HasWord(Get(q.header, "Connection"), "upgrade") && EqualFold(Get(q.header, "Upgrade"), "websocket")
  {
    ContainsIff(LowerCase(Get(q.header, "Connection")), "upgrade");
    hide Contains, EqualFold, LowerCase, Get, Decode, Encode, Write, Received, OnResponse;
  }

  /** Then the client has the head of Discord's answer and nothing else, and the frames that follow it
      on either side are left where they are. */
  lemma UpgradeLeavesTheFrames(deps: Deps, s: Session, q: Req, head: Head, more: seq<Item>)
    requires s.upstream.Some? && s.upstream.value.input == [HeadItem(head)] + more && head.ResponseHead?
    requires Reply(deps, s, q).Stop? && Reply(deps, s, q).exit == Upgraded
    ensures var t := Reply(deps, s, q).s;
            && t.client == s.client && t.upstream == Some(s.upstream.value.(input := more))
            && |t.wire| == |s.wire| + 1 && t.wire[..|s.wire|] == s.wire && t.wire[|s.wire|].ToClient?
            && |t.wire[|s.wire|].items| == 1 && t.wire[|s.wire|].items[0].HeadItem?
            && var sent := t.wire[|s.wire|].items[0].head;
               sent.ResponseHead? && sent.status == 101 && sent.header == head.header
  {
    assert s.upstream.value.input[1..] == more;
    UpgradesIff(deps, s, q, head, more);
    hide IsWebsocketUpgrade, Decode, Encode, OnResponse, EqualFold, HasWord, Get;
  }

  /** The tamperer is shown the request that was sent, the response with all of its body, and the body
      decompressed; its response is what the client gets, and the upstream's where it fails. */
  lemma AnswerGoesBack(deps: Deps, s: Session, q: Req, head: Head, full: seq<byte>, more: seq<Item>)
    requires deps.tamperer.Custom? && deps.writes(|s.wire|) && s.upstream.Some?
    requires head.ResponseHead? && AllowsBody(q.verb, head.status) && !IsBinary(Get(head.header, "Content-Type"))
    requires !AtEnd(head.framing) && Fits(head.framing, full) && (head.framing.UntilClose? ==> more == [])
    requires s.upstream.value.input == [HeadItem(head)] + (BodyItems(head.framing, full) + more)
    ensures var encoding := Get(head.header, "Content-Encoding");
            var view := if full == [] then Nothing
                        else if encoding != "gzip" && encoding != "deflate" && encoding != "br" then Readable(full)
                        else match deps.inflate(encoding, full)
                          case Some(plain) => Readable(plain)
                          case None => Unreadable;
            var shown := Received(q.verb, head).(body := Buffered(full));
            var r := match deps.tamperer.onResponse(q, shown, view) case Some(r) => r case None => shown;
            r.body.Buffered? && AllowsBody(r.verb, r.status) && !IsBinary(Get(r.header, "Content-Type")) ==>
              exists header ::
                && IsReframed(header, r.header, |r.body.bytes|)
                && Reply(deps, s, q) ==
                   Continue(s.(upstream := Some(s.upstream.value.(input := more)),
                     wire := s.wire + [ToClient([HeadItem(ResponseHead(r.status, header, Length(|r.body.bytes|)))]
                                                + Octets(r.body.bytes))]))
  {
    ViewOfABody(deps.inflate, q.verb, head, full, more);
    hide Decode, Encode, Write;
    ReplyUnderCustom(deps, s, q, head, BodyItems(head.framing, full) + more);
    var shown := Received(q.verb, head).(body := Buffered(full));
    var view := Decode(deps.inflate, Received(q.verb, head), BodyItems(head.framing, full) + more).1;
    var r := match deps.tamperer.onResponse(q, shown, view) case Some(r) => r case None => shown;
    if r.body.Buffered? && AllowsBody(r.verb, r.status) && !IsBinary(Get(r.header, "Content-Type")) {
      BufferedIsWritten(r, more);
      hide Reply, BodyItems, Octets, Received, IsBinary, Get, IsReframed;
      assert IsReframed(Reframed(r, r.body.bytes).header, r.header, |r.body.bytes|);
    }
  }

  lemma ReplyUnderCustom(deps: Deps, s: Session, q: Req, head: Head, src: seq<Item>)
    requires deps.tamperer.Custom? && deps.writes(|s.wire|) && head.ResponseHead? && head.status != 101
    requires s.upstream.Some? && s.upstream.value.input == [HeadItem(head)] + src
    ensures var (r1, view, src1) := Decode(deps.inflate, Received(q.verb, head), src);
            var r := match deps.tamperer.onResponse(q, r1, view) case Some(r) => r case None => r1;
            var (r2, readable, src2) := Encode(r, src1);
            var (items, ok, rest) := Write(r2, src2);
            readable && ok ==>
              Reply(deps, s, q) ==
              Continue(Send(deps, s.(upstream := Some(s.upstream.value.(input := rest))), ToClient(items)))
  {
    assert s.upstream.value.input[1..] == src;
    hide Decode, Encode, Write, Received, IsWebsocketUpgrade;
  }

  lemma BufferedIsWritten(r: Resp, src: seq<Item>)
    requires r.body.Buffered? && AllowsBody(r.verb, r.status) && !IsBinary(Get(r.header, "Content-Type"))
    ensures var (r2, readable, src2) := Encode(r, src);
            var header := Reframed(r, r.body.bytes).header;
            && readable && src2 == src && IsReframed(header, r.header, |r.body.bytes|)
            && Write(r2, src2) == ([HeadItem(ResponseHead(r.status, header, Length(|r.body.bytes|)))]
                                   + Octets(r.body.bytes), true, src)
  {
    assert Octets(r.body.bytes) + [] == Octets(r.body.bytes);
    hide IsBinary, Itoa;
  }

  // ------------------------------------------------------------------------------- rounds that end

  /** A round that the client, or a dial, ends before anything has been written. */
  lemma EndsBeforeAWriteIff(deps: Deps, s: Session)
    ensures var o := Step(deps, s);
            var request := s.client != [] && s.client[0].HeadItem? && s.client[0].head.RequestHead?;
            && (o.Stop? && o.exit == ClientDone <==> s.client == [])
            && (o.Stop? && o.exit == BadRequest <==> s.client != [] && !request)
            && (o.Stop? && o.exit == DialFailed <==>
                  request && s.client[0].head.verb != "CONNECT"
                  && Connected(deps, s.(client := s.client[1..]), s.client[0].head.host).upstream.None?)
            && (o.Stop? && o.exit in {ClientDone, BadRequest, DialFailed} ==> o.s.wire == s.wire)
  {
    hide Address, IsIntercepted, Reply, WriteRequest, OnRequest;
    if s.client != [] && s.client[0].HeadItem? && s.client[0].head.RequestHead? {
      var head, src := s.client[0].head, s.client[1..];
      var t := Connected(deps, s.(client := src), head.host);
      assert t.wire == s.wire;
      if t.upstream.Some? { ExchangeEndsLate(deps, t, head, src); }
      hide Connected, Exchange;
    }
  }

  lemma ExchangeEndsLate(deps: Deps, s: Session, head: Head, src: seq<Item>)
    requires head.RequestHead? && s.upstream.Some?
    ensures Exchange(deps, s, head, src).Stop? ==>
              Exchange(deps, s, head, src).exit !in {ClientDone, BadRequest, DialFailed}
  {
    hide OnRequest, WriteRequest, Decode, Encode, Write, Received, OnResponse, IsWebsocketUpgrade;
  }

  /** A request whose write fails, or whose body breaks off on the way in, ends the session: no more
      than a first part of it has gone upstream, and nothing to the client. */
  lemma FailedRequestEnds(deps: Deps, s: Session, head: Head, src: seq<Item>)
    requires head.RequestHead? && s.upstream.Some?
    requires !deps.writes(|s.wire|) || (deps.tamperer.Nop? && !Drain(src, ReceivedRequest(head).body).ok)
    ensures var o := Exchange(deps, s, head, src);
            var (q, src1) := OnRequest(deps.tamperer, ReceivedRequest(head), src);
            && o.Stop? && o.exit == RequestNotSent && |o.s.wire| == |s.wire| + 1 && o.s.wire[..|s.wire|] == s.wire
            && o.s.wire[|s.wire|].ToUpstream? && o.s.wire[|s.wire|].conn == s.upstream.value.id
            && o.s.wire[|s.wire|].items <= WriteRequest(q, src1).0
  {
    if deps.tamperer.Nop? { BrokenBodyFails(ReceivedRequest(head), src); }
    hide OnRequest, WriteRequest, ReceivedRequest, Drain, Reply;
    assert deps.tamperer.Nop? ==> OnRequest(deps.tamperer, ReceivedRequest(head), src) == (ReceivedRequest(head), src)
    by { NopPasses(ReceivedRequest(head), src); }
  }

  lemma BrokenBodyFails(q: Req, src: seq<Item>)
    ensures !Drain(src, q.body).ok ==> !WriteRequest(q, src).1
  {}

  lemma NopPasses(r: Req, src: seq<Item>)
    ensures OnRequest(Nop, r, src) == (r, src)
  {}

  /** No answer, no write to the client; and the session goes on only when all of an answer is out. */
  lemma AnswerIsNeeded(deps: Deps, s: Session, q: Req)
    requires s.upstream.Some?
    ensures var o := Reply(deps, s, q);
            var input := s.upstream.value.input;
            && (o.Stop? && o.exit == BadResponse <==>
                  input == [] || !input[0].HeadItem? || !input[0].head.ResponseHead?)
            && (o.Stop? && o.exit in {BadResponse, ShortBody} ==> o.s.wire == s.wire)
            && (o.Continue? ==> deps.writes(|s.wire|) && |o.s.wire| == |s.wire| + 1)
  {
    hide Decode, Encode, Write, Received, OnResponse, IsWebsocketUpgrade;
  }
}
