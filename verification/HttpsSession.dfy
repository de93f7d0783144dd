/** One client session of proxy/internals/handlers/https.go: the loop that owns the client stream,
    at most one upstream connection, the dialled host and the CONNECT depth.

    What the outside world does is given by functions: what the n-th dial connects to, what a nested
    TLS layer carries, and whether a write succeeds. */
module HttpsSession {
  import opened Common
  import opened Hosts
  import opened HttpMessages
  import opened BodyPipeline
  import opened LoggingTamper

  const MAX_CONNECT_DEPTH: nat := 4

  /** A hook answers None for an error; then the message it was given goes on. */
  datatype Tamperer =
    | Nop
    | Logger
    | Custom(onRequest: Req -> Option<Req>, onResponse: (Req, Resp, Decoded) -> Option<Resp>)

  datatype Deps = Deps(
    proxyHostPort: string,
    cleanHostname: string,
    tamperer: Tamperer,
    inflate: Inflate,
    resolve: (nat, string) -> Option<string>,           // dial number, host
    dial: (nat, string, string) -> Option<seq<Item>>,   // dial number, address, TLS server name
    handshake: (nat, string) -> Option<seq<Item>>,      // depth, host
    writes: nat -> bool,                                // whether the n-th write goes through
    reach: nat -> nat,                                  // if not, how many items of it are out by then
    spill: nat -> nat)                                  // how much of a failed request has been flushed

  /** What one write has put on a connection. */
  datatype Sent = ToUpstream(conn: nat, items: seq<Item>) | ToClient(items: seq<Item>)

  datatype Conn = Conn(id: nat, serverName: string, input: seq<Item>)

  /** `dials` lists the server names dialled so far; `closed` counts the upstreams closed. */
  datatype Session = Session(
    client: seq<Item>,
    upstream: Option<Conn>,
    dialledHost: string,
    depth: nat,
    handshakes: nat,
    dials: seq<string>,
    closed: nat,
    wire: seq<Sent>)

  datatype Exit =
    | ClientDone | BadRequest | TooDeep | HandshakeFailed | DialFailed | PassedThrough
    | RequestNotSent | BadResponse | Upgraded | ShortBody | ResponseNotSent

  datatype Outcome = Continue(s: Session) | Stop(s: Session, exit: Exit)

  const ESTABLISHED: seq<Item> := [HeadItem(ResponseHead(200, map[], Bodiless))]

  predicate IsIntercepted(deps: Deps, host: string) {
    host == deps.proxyHostPort || host == deps.cleanHostname || IsDiscordHost(host)
  }

  /** Whose requests are for the tamperer: the proxy's own two names, and Discord's. */
  predicate ForTheTamperer(deps: Deps, host: string) {
    host == deps.proxyHostPort || host == deps.cleanHostname || NamesDiscord(host)
  }

  lemma InterceptedIff(deps: Deps, host: string)
    ensures IsIntercepted(deps, host) <==> ForTheTamperer(deps, host)
  {
    DiscordHeadersByLabels(host);
    hide IsDiscordHost, NamesDiscord;
  }

  predicate IsWebsocketUpgrade(h: Header) {
    Contains(LowerCase(Get(h, "Connection")), "upgrade") && EqualFold(Get(h, "Upgrade"), "websocket")
  }

  function CloseUpstream(s: Session): Session {
    if s.upstream.Some? then s.(upstream := None, closed := s.closed + 1) else s
  }

  /** A connection that fails under a write has carried a first part of it. */
  function Out(deps: Deps, n: nat, items: seq<Item>): seq<Item> {
    if deps.writes(n) then items else items[..Min(deps.reach(n), |items|)]
  }

  function Send(deps: Deps, s: Session, w: Sent): Session {
    s.(wire := s.wire + [w.(items := Out(deps, |s.wire|, w.items))])
  }

  /** Nested CONNECT: a new TLS layer on the raw client connection, and any upstream is dropped. */
  function OnConnect(deps: Deps, s: Session, host: string, rest: seq<Item>): Outcome {
    if s.depth >= MAX_CONNECT_DEPTH then Stop(s.(client := rest), TooDeep)
    else
      var s1 := Send(deps, s.(client := rest, handshakes := s.handshakes + 1), ToClient(ESTABLISHED));
      match deps.handshake(s.depth, host)
      case None => Stop(s1, HandshakeFailed)
      case Some(inner) =>
        var s2 := if s1.upstream.Some? then CloseUpstream(s1).(dialledHost := "") else s1;
        Continue(s2.(client := inner, depth := s2.depth + 1))
  }

  function Address(deps: Deps, n: nat, host: string): string {
    if IsDiscordHost(host) && deps.resolve(n, host).Some? then deps.resolve(n, host).value else host
  }

  /** Keeps the upstream for the same host, and otherwise closes it and dials. */
  function Connected(deps: Deps, s: Session, host: string): Session {
    var s1 := if s.upstream.Some? && host != s.dialledHost then CloseUpstream(s) else s;
    if s1.upstream.Some? then s1
    else match deps.dial(|s1.dials|, Address(deps, |s1.dials|, host), host)
      case None => s1
      case Some(input) =>
        s1.(upstream := Some(Conn(|s1.dials|, host, input)), dials := s1.dials + [host], dialledHost := host)
  }

  /** A host that is not intercepted: the request, and then both streams copied to their ends. */
  function PassThrough(deps: Deps, s: Session, head: Head, src: seq<Item>): Outcome
    requires head.RequestHead? && s.upstream.Some?
  {
    var c := s.upstream.value;
    var (items, ok, rest) := WriteRequest(ReceivedRequest(head), src);
    var out := Flushed(ReceivedRequest(head), items, ok, deps.spill(|s.wire|));
    var s1 := Send(deps, s.(client := rest), ToUpstream(c.id, out));
    if !(ok && deps.writes(|s.wire|)) then Stop(s1, RequestNotSent)
    else
      var s2 := Send(deps, s1.(client := []), ToUpstream(c.id, rest));
      Stop(Send(deps, s2, ToClient(c.input)).(upstream := Some(c.(input := []))), PassedThrough)
  }

  function OnRequest(t: Tamperer, r: Req, src: seq<Item>): (Req, seq<Item>) {
    match t
    case Nop => (r, src)
    case Logger => Rewound(r, src)
    case Custom(f, _) => (match f(r) case Some(r') => r' case None => r, src)
  }

  function OnResponse(t: Tamperer, q: Req, r: Resp, view: Decoded): Resp {
    if t.Custom? then match t.onResponse(q, r, view) case Some(r') => r' case None => r else r
  }

  /** The answer: read, shown to the tamperer, re-framed and mirrored to the client. */
  function Reply(deps: Deps, s: Session, q: Req): Outcome
    requires s.upstream.Some?
  {
    var c := s.upstream.value;
    if c.input == [] || !c.input[0].HeadItem? || !c.input[0].head.ResponseHead? then Stop(s, BadResponse)
    else
      var head := c.input[0].head;
      if IsWebsocketUpgrade(q.header) && head.status == 101 then
        var s1 := s.(upstream := Some(c.(input := c.input[1..])));
        Stop(Send(deps, s1, ToClient(Write(Received(q.verb, head), []).0)),
             if deps.writes(|s.wire|) then Upgraded else ResponseNotSent)
      else
        var (r1, view, src1) := Decode(deps.inflate, Received(q.verb, head), c.input[1..]);
        var (r2, readable, src2) := Encode(OnResponse(deps.tamperer, q, r1, view), src1);
        if !readable then Stop(s.(upstream := Some(c.(input := src2))), ShortBody)
        else
          var (items, ok, src3) := Write(r2, src2);
          var s1 := Send(deps, s.(upstream := Some(c.(input := src3))), ToClient(items));
          if ok && deps.writes(|s.wire|) then Continue(s1) else Stop(s1, ResponseNotSent)
  }

  function Exchange(deps: Deps, s: Session, head: Head, src: seq<Item>): Outcome
    requires head.RequestHead? && s.upstream.Some?
  {
    var (q, src1) := OnRequest(deps.tamperer, ReceivedRequest(head), src);
    var (items, ok, rest) := WriteRequest(q, src1);
    var out := Flushed(q, items, ok, deps.spill(|s.wire|));
    var s1 := Send(deps, s.(client := rest), ToUpstream(s.upstream.value.id, out));
    if ok && deps.writes(|s.wire|) then Reply(deps, s1, q) else Stop(s1, RequestNotSent)
  }

  /** One round of the loop. */
  function Step(deps: Deps, s: Session): Outcome {
    if s.client == [] then Stop(s, ClientDone)
    else if !s.client[0].HeadItem? || !s.client[0].head.RequestHead? then Stop(s, BadRequest)
    else
      var head, src := s.client[0].head, s.client[1..];
      if head.verb == "CONNECT" then OnConnect(deps, s, head.host, src)
      else
        var s1 := Connected(deps, s.(client := src), head.host);
        if s1.upstream.None? then Stop(s1, DialFailed)
        else if !IsIntercepted(deps, head.host) then PassThrough(deps, s1, head, src)
        else Exchange(deps, s1, head, src)
  }

  lemma DrainNeverGrows(src: seq<Item>, body: Body)
    ensures |Drain(src, body).rest| <= |src|
  {}

  lemma SendingNeverGrows(t: Tamperer, r: Req, src: seq<Item>)
    ensures |WriteRequest(OnRequest(t, r, src).0, OnRequest(t, r, src).1).2| <= |src|
  {
    DrainNeverGrows(src, r.body);
    DrainNeverGrows(OnRequest(t, r, src).1, OnRequest(t, r, src).0.body);
  }

  /** A reply leaves the client's side of the session and its bookkeeping alone. */
  lemma ReplyFrame(deps: Deps, s: Session, q: Req)
    requires s.upstream.Some?
    ensures var s' := Reply(deps, s, q).s;
            && s' == s.(upstream := s'.upstream, wire := s'.wire)
            && s'.upstream.Some? && s'.upstream.value == s.upstream.value.(input := s'.upstream.value.input)
            && (|| s'.wire == s.wire
                || (&& |s'.wire| == |s.wire| + 1 && s'.wire[..|s.wire|] == s.wire
                    && s'.wire[|s.wire|].ToClient?))
  {
    hide Decode, Encode, Write, Received, OnResponse, IsWebsocketUpgrade;
  }

  /** The next thing on the upstream is an answer whose body breaks off. */
  predicate AnswerBreaksOff(s: Session, q: Req) {
    && s.upstream.Some?
    && var input := s.upstream.value.input;
       && input != [] && input[0].HeadItem? && input[0].head.ResponseHead?
       && Received(q.verb, input[0].head).body.Live? && !ReadBody(input[1..], input[0].head.framing).ok
  }

  /** What of it reaches the client: nothing, or all that arrived of an answer of a binary type. */
  lemma BrokenBodyEndsTheSession(deps: Deps, s: Session, q: Req)
    requires AnswerBreaksOff(s, q) && !deps.tamperer.Custom?
    ensures var input := s.upstream.value.input;
            var o := Reply(deps, s, q);
            && o.Stop?
            && if IsBinary(Get(input[0].head.header, "Content-Type")) then
                 var got := ReadBody(input[1..], input[0].head.framing).bytes;
                 && o.exit == ResponseNotSent
                 && o.s.wire == s.wire + [ToClient(Out(deps, |s.wire|, [input[0]] + Octets(got)))]
               else o.exit == ShortBody && o.s.wire == s.wire
  {
    var input := s.upstream.value.input;
    assert input[0].head.status != 101;
    BrokenBodyIsForwardedIffBinary(deps.inflate, q.verb, input[0].head, input[1..]);
    hide Write, IsWebsocketUpgrade, IsBinary, ReadBody, Octets, Decode, Encode, Received;
  }

  /** The session is to be dropped rather than hand the client a short body.  It hands one over, as far
      as the client's connection carries anything, exactly when the type is binary. */
  lemma ShortBodyReachesTheClientIff(deps: Deps, s: Session, q: Req)
    requires AnswerBreaksOff(s, q) && !deps.tamperer.Custom? && (deps.writes(|s.wire|) || deps.reach(|s.wire|) > 0)
    ensures var input := s.upstream.value.input;
            var wire := Reply(deps, s, q).s.wire;
            (|wire| > |s.wire| && wire[|s.wire|].ToClient? && wire[|s.wire|].items != [])
            <==> IsBinary(Get(input[0].head.header, "Content-Type"))
  {
    BrokenBodyEndsTheSession(deps, s, q);
    hide Reply, IsBinary, ReadBody, Octets;
  }

  /** A body that ends with the upstream's close goes on to the client under the same framing, if its
      type is binary.  But the session goes on too and the client's connection stays open, so the
      client never learns where the body ends. */
  lemma UntilClosedBodyHasNoEnd(deps: Deps, s: Session, q: Req)
    requires s.upstream.Some? && !deps.tamperer.Custom? && deps.writes(|s.wire|)
    requires var input := s.upstream.value.input;
             && input != [] && input[0].HeadItem? && input[0].head.ResponseHead? && input[0].head.status != 101
             && AllowsBody(q.verb, input[0].head.status) && IsBinary(Get(input[0].head.header, "Content-Type"))
             && input[0].head.framing.UntilClose? && ReadBody(input[1..], UntilClose).ok
    ensures var input := s.upstream.value.input;
            var items := [input[0]] + BodyItems(UntilClose, ReadBody(input[1..], UntilClose).bytes);
            && Reply(deps, s, q).Continue? && Reply(deps, s, q).s.client == s.client
            && Reply(deps, s, q).s.wire == s.wire + [ToClient(items)]
            && exists after :: ReadBody(items[1..] + after, UntilClose)
                               != Read(ReadBody(input[1..], UntilClose).bytes, true, after)
  {
    var input := s.upstream.value.input;
    var r := Received(q.verb, input[0].head);
    ForwardsBinaryBodies(deps.inflate, q.verb, input[0].head, input[1..]);
    assert Forward(deps.inflate, r, input[1..]).0[1..] == BodyItems(UntilClose, ReadBody(input[1..], UntilClose).bytes);
    hide Write, Decode, Encode, Received, IsWebsocketUpgrade, IsBinary, ReadBody, BodyItems;
  }

  lemma StepConsumes(deps: Deps, s: Session)
    requires Step(deps, s).Continue?
    ensures Step(deps, s).s.depth == s.depth ==> |Step(deps, s).s.client| < |s.client|
    ensures s.depth <= Step(deps, s).s.depth <= s.depth + 1
    ensures Step(deps, s).s.depth > s.depth ==> s.depth < MAX_CONNECT_DEPTH
  {
    hide Reply, IsDiscordHost, Address, WriteRequest, OnRequest, PassThrough;
    var head, src := s.client[0].head, s.client[1..];
    if head.verb != "CONNECT" {
      var s1 := Connected(deps, s.(client := src), head.host);
      assert s1.depth == s.depth;
      assert Step(deps, s) ==
             if IsIntercepted(deps, head.host) then Exchange(deps, s1, head, src)
             else PassThrough(deps, s1, head, src);
      PassThroughStops(deps, s1, head, src);
      SendingNeverGrows(deps.tamperer, ReceivedRequest(head), src);
      var (q, src1) := OnRequest(deps.tamperer, ReceivedRequest(head), src);
      var (items, ok, rest) := WriteRequest(q, src1);
      var out := Flushed(q, items, ok, deps.spill(|s1.wire|));
      ReplyFrame(deps, Send(deps, s1.(client := rest), ToUpstream(s1.upstream.value.id, out)), q);
    }
  }

  lemma PassThroughStops(deps: Deps, s: Session, head: Head, src: seq<Item>)
    requires head.RequestHead? && s.upstream.Some?
    ensures PassThrough(deps, s, head, src).Stop?
  {}

  /** The whole handler from a loop head on; the deferred Close comes after it. */
  function Loop(deps: Deps, s: Session): (r: (Session, Exit))
    requires s.depth <= MAX_CONNECT_DEPTH
    decreases MAX_CONNECT_DEPTH - s.depth, |s.client|
  {
    match Step(deps, s)
    case Stop(s', exit) => (s', exit)
    case Continue(s') =>
      StepConsumes(deps, s);
      Loop(deps, s')
  }

  function Handle(deps: Deps, client: seq<Item>): (Session, Exit) {
    var (s, exit) := Loop(deps, Session(client, None, "", 0, 0, [], 0, []));
    (CloseUpstream(s), exit)
  }

  lemma LoopGoesOn(deps: Deps, s: Session)
    requires s.depth <= MAX_CONNECT_DEPTH && Step(deps, s).Continue? && Step(deps, s).s.depth <= MAX_CONNECT_DEPTH
    ensures Loop(deps, s) == Loop(deps, Step(deps, s).s)
  {
    hide Step;
  }

  lemma StepExtends(deps: Deps, s: Session)
    ensures s.wire <= Step(deps, s).s.wire
  {
    hide Reply, WriteRequest, OnRequest, IsIntercepted, Address;
    if s.client != [] && s.client[0].HeadItem? && s.client[0].head.RequestHead? {
      var head, src := s.client[0].head, s.client[1..];
      var s1 := Connected(deps, s.(client := src), head.host);
      if head.verb != "CONNECT" && s1.upstream.Some? {
        var (q, src1) := OnRequest(deps.tamperer, ReceivedRequest(head), src);
        var (items, ok, rest) := WriteRequest(q, src1);
        var out := Flushed(q, items, ok, deps.spill(|s1.wire|));
        ReplyFrame(deps, Send(deps, s1.(client := rest), ToUpstream(s1.upstream.value.id, out)), q);
      }
    }
  }

  lemma {:induction false} LoopExtends(deps: Deps, s: Session)
    requires s.depth <= MAX_CONNECT_DEPTH
    ensures s.wire <= Loop(deps, s).0.wire
    decreases MAX_CONNECT_DEPTH - s.depth, |s.client|
  {
    StepExtends(deps, s);
    hide Step;
    if Step(deps, s).Stop? {
    } else {
      StepConsumes(deps, s);
      LoopExtends(deps, Step(deps, s).s);
    }
  }

  // ------------------------------------------------------------------- what every session keeps

  /** Whatever is upstream was dialled as `dialledHost`, at most one upstream is open, and every
      write upstream has gone to a connection that was dialled. */
  ghost predicate Inv(s: Session) {
    && (s.upstream.Some? ==>
          s.upstream.value.serverName == s.dialledHost && s.upstream.value.id < |s.dials|
          && s.dials[s.upstream.value.id] == s.dialledHost)
    && |s.dials| == s.closed + (if s.upstream.Some? then 1 else 0)
    && s.depth <= s.handshakes <= MAX_CONNECT_DEPTH
    && forall i :: 0 <= i < |s.wire| && s.wire[i].ToUpstream? ==> s.wire[i].conn < |s.dials|
  }

  lemma ConnectedKeepsInv(deps: Deps, s: Session, host: string)
    requires Inv(s)
    ensures var s' := Connected(deps, s, host);
            Inv(s') && (s'.upstream.Some? ==> s'.dialledHost == host) && s' == s.(upstream := s'.upstream,
              dialledHost := s'.dialledHost, dials := s'.dials, closed := s'.closed)
  {
    hide Address;
  }

  lemma ExchangeKeepsInv(deps: Deps, s: Session, head: Head, src: seq<Item>)
    requires head.RequestHead? && s.upstream.Some? && Inv(s) && s.dialledHost == head.host
    ensures Inv(Exchange(deps, s, head, src).s)
    ensures Exchange(deps, s, head, src).s.depth == s.depth && Exchange(deps, s, head, src).s.handshakes == s.handshakes
  {
    hide Reply, WriteRequest, OnRequest;
    var (q, src1) := OnRequest(deps.tamperer, ReceivedRequest(head), src);
    var (items, ok, rest) := WriteRequest(q, src1);
    var out := Flushed(q, items, ok, deps.spill(|s.wire|));
    var s2 := Send(deps, s.(client := rest), ToUpstream(s.upstream.value.id, out));
    assert Inv(s2);
    ReplyFrame(deps, s2, q);
    var s3 := Reply(deps, s2, q).s;
    assert forall i :: 0 <= i < |s3.wire| && s3.wire[i].ToUpstream? ==> i < |s2.wire| && s3.wire[i] == s2.wire[i];
  }

  lemma PassThroughKeepsInv(deps: Deps, s: Session, head: Head, src: seq<Item>)
    requires head.RequestHead? && s.upstream.Some? && Inv(s) && s.dialledHost == head.host
    ensures Inv(PassThrough(deps, s, head, src).s)
    ensures PassThrough(deps, s, head, src).s.depth == s.depth
  {
    hide WriteRequest;
  }

  lemma OnConnectKeepsInv(deps: Deps, s: Session, host: string, rest: seq<Item>)
    requires Inv(s) && s.depth == s.handshakes
    ensures Inv(OnConnect(deps, s, host, rest).s)
    ensures OnConnect(deps, s, host, rest).Continue? ==>
              OnConnect(deps, s, host, rest).s.depth == OnConnect(deps, s, host, rest).s.handshakes
  {}

  lemma StepKeepsInv(deps: Deps, s: Session)
    requires Inv(s) && s.depth == s.handshakes
    ensures Inv(Step(deps, s).s)
    ensures Step(deps, s).Continue? ==> Step(deps, s).s.depth == Step(deps, s).s.handshakes
  {
    hide Exchange, PassThrough, OnConnect, Connected, IsIntercepted;
    if s.client != [] && s.client[0].HeadItem? && s.client[0].head.RequestHead? {
      var head, src := s.client[0].head, s.client[1..];
      if head.verb == "CONNECT" {
        OnConnectKeepsInv(deps, s, head.host, src);
      } else {
        assert Inv(s.(client := src));
        ConnectedKeepsInv(deps, s.(client := src), head.host);
        var s1 := Connected(deps, s.(client := src), head.host);
        if s1.upstream.Some? {
          if IsIntercepted(deps, head.host) {
            ExchangeKeepsInv(deps, s1, head, src);
          } else {
            PassThroughKeepsInv(deps, s1, head, src);
            PassThroughStops(deps, s1, head, src);
          }
        }
      }
    }
  }

  lemma {:induction false} LoopKeepsInv(deps: Deps, s: Session)
    requires Inv(s) && s.depth == s.handshakes
    ensures Inv(Loop(deps, s).0)
    decreases MAX_CONNECT_DEPTH - s.depth, |s.client|
  {
    assert s.depth <= MAX_CONNECT_DEPTH;
    hide Inv, Step;
    StepKeepsInv(deps, s);
    if Step(deps, s).Stop? {
    } else {
      StepConsumes(deps, s);
      assert MAX_CONNECT_DEPTH >= Step(deps, s).s.depth;
      LoopKeepsInv(deps, Step(deps, s).s);
    }
  }

  /** For every client, every outside world and every tamperer, on every way out: every upstream that
      was opened has been closed, and no more than MAX_CONNECT_DEPTH nested handshakes took place. */
  lemma SessionsCloseWhatTheyOpen(deps: Deps, client: seq<Item>)
    ensures var s := Handle(deps, client).0;
            && s.upstream.None? && s.closed == |s.dials| && s.handshakes <= MAX_CONNECT_DEPTH
            && forall i :: 0 <= i < |s.wire| && s.wire[i].ToUpstream? ==> s.wire[i].conn < |s.dials|
  {
    LoopKeepsInv(deps, Session(client, None, "", 0, 0, [], 0, []));
    hide Loop;
  }
}
