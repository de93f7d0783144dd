/** Whether the requests of a session reach the hosts that they name: every connection is dialled with
    one server name, and what is written to it may or may not be for that host. */
module HostBinding {
  import opened Common
  import opened Hosts
  import opened HttpMessages
  import opened BodyPipeline
  import opened LoggingTamper
  import opened HttpsSession
  import opened SessionRounds

  /** All requests among these items name this host. */
  predicate HeadsFor(items: seq<Item>, host: string) {
    forall i :: 0 <= i < |items| && items[i].HeadItem? && items[i].head.RequestHead? ==> items[i].head.host == host
  }

  /** Every request written upstream names the host that its connection was dialled for. */
  predicate Bound(s: Session) {
    forall i :: 0 <= i < |s.wire| && s.wire[i].ToUpstream? ==>
      s.wire[i].conn < |s.dials| && HeadsFor(s.wire[i].items, s.dials[s.wire[i].conn])
  }

  /** What this round does not do: send the rest of a client's stream, with requests for other hosts
      in it, after a request that is passed through; or put anything of a request on the connection
      whose Host was rewritten. */
  predicate KeepsHosts(deps: Deps, s: Session) {
    s.client != [] && s.client[0].HeadItem? && s.client[0].head.RequestHead? && s.client[0].head.verb != "CONNECT" ==>
      var n, head, src := |s.wire|, s.client[0].head, s.client[1..];
      Connected(deps, s.(client := src), head.host).upstream.Some? ==>
        if ForTheTamperer(deps, head.host) then
          var (q, src1) := OnRequest(deps.tamperer, ReceivedRequest(head), src);
          q.host == head.host || RequestOut(deps, n, q, src1) == []
        else
          var (_, ok, rest) := WriteRequest(ReceivedRequest(head), src);
          ok && deps.writes(n) ==> HeadsFor(Out(deps, n + 1, rest), head.host)
  }

  /** What the n-th write puts on the connection, if it is this request. */
  function RequestOut(deps: Deps, n: nat, q: Req, src: seq<Item>): seq<Item> {
    var (items, ok, _) := WriteRequest(q, src);
    Out(deps, n, Flushed(q, items, ok, deps.spill(n)))
  }

  predicate SessionKeepsHosts(deps: Deps, s: Session)
    requires s.depth <= MAX_CONNECT_DEPTH
    decreases MAX_CONNECT_DEPTH - s.depth, |s.client|
  {
    KeepsHosts(deps, s) &&
    match Step(deps, s)
    case Stop(_, _) => true
    case Continue(s') =>
      StepConsumes(deps, s);
      SessionKeepsHosts(deps, s')
  }

  // ---------------------------------------------------------------------------------- one round

  lemma {:induction false} OctetsHaveNoHeads(bytes: seq<byte>, host: string)
    ensures HeadsFor(Octets(bytes), host)
  {
    if bytes == [] {
    } else {
      OctetsHaveNoHeads(bytes[1..], host);
    }
  }

  /** One request has one head, and it comes first. */
  lemma WrittenRequestNamesItsHost(q: Req, src: seq<Item>, out: seq<Item>, host: string)
    requires out <= WriteRequest(q, src).0
    ensures HeadsFor(out, host) <==> out == [] || q.host == host
  {
    var read := Drain(src, q.body);
    var items := WriteRequest(q, src).0;
    OctetsHaveNoHeads(read.bytes, host);
    assert items[0].head.host == q.host;
    hide Drain, RequestFraming;
    assert HeadsFor(items[1..], host);
    assert forall i :: 0 < i < |items| ==> items[i] == items[1..][i - 1];
  }

  lemma OutIsOfTheRequest(deps: Deps, n: nat, q: Req, src: seq<Item>)
    ensures RequestOut(deps, n, q, src) <= WriteRequest(q, src).0
  {
    hide WriteRequest;
  }

  lemma ConnectingKeepsBound(deps: Deps, s: Session, src: seq<Item>, host: string)
    requires Inv(s)
    ensures var s1 := Connected(deps, s.(client := src), host);
            && (Bound(s1) <==> Bound(s)) && Inv(s1) && s1.wire == s.wire
            && (s1.upstream.Some? ==> s1.dialledHost == host && s1.dials[s1.upstream.value.id] == host)
  {
    var s1 := Connected(deps, s.(client := src), host);
    assert Inv(s.(client := src));
    ConnectedKeepsInv(deps, s.(client := src), host);
    assert s.dials <= s1.dials by { hide Address, Inv; }
    hide Connected, HeadsFor;
    forall i | 0 <= i < |s.wire| && s.wire[i].ToUpstream? ensures s1.dials[s.wire[i].conn] == s.dials[s.wire[i].conn] {}
  }

  /** A write upstream keeps a session bound exactly when its requests are for the dialled host. */
  lemma SendingUpstream(deps: Deps, s: Session, items: seq<Item>)
    requires s.upstream.Some? && s.upstream.value.id < |s.dials|
    ensures Bound(Send(deps, s, ToUpstream(s.upstream.value.id, items))) <==>
            Bound(s) && HeadsFor(Out(deps, |s.wire|, items), s.dials[s.upstream.value.id])
  {
    hide HeadsFor, Out;
    var id := s.upstream.value.id;
    var t := Send(deps, s, ToUpstream(id, items));
    assert t.wire[|s.wire|] == ToUpstream(id, Out(deps, |s.wire|, items));
    assert forall i :: 0 <= i < |s.wire| ==> t.wire[i] == s.wire[i];
  }

  /** Writes to the client are another matter. */
  lemma SameUpstreamWrites(s: Session, t: Session)
    requires t.dials == s.dials && s.wire <= t.wire && forall i :: |s.wire| <= i < |t.wire| ==> t.wire[i].ToClient?
    ensures Bound(s) <==> Bound(t)
  {
    hide HeadsFor;
  }

  lemma ExchangeIsBoundIff(deps: Deps, s: Session, head: Head, src: seq<Item>)
    requires head.RequestHead? && s.upstream.Some? && s.upstream.value.id < |s.dials|
    requires s.dials[s.upstream.value.id] == head.host
    ensures var (q, src1) := OnRequest(deps.tamperer, ReceivedRequest(head), src);
            Bound(Exchange(deps, s, head, src).s) <==>
            Bound(s) && (q.host == head.host || RequestOut(deps, |s.wire|, q, src1) == [])
  {
    var (q, src1) := OnRequest(deps.tamperer, ReceivedRequest(head), src);
    var (items, ok, rest) := WriteRequest(q, src1);
    OutIsOfTheRequest(deps, |s.wire|, q, src1);
    WrittenRequestNamesItsHost(q, src1, RequestOut(deps, |s.wire|, q, src1), head.host);
    var out := Flushed(q, items, ok, deps.spill(|s.wire|));
    assert RequestOut(deps, |s.wire|, q, src1) == Out(deps, |s.wire|, out);
    hide OnRequest, WriteRequest, HeadsFor, Bound, Reply, RequestOut, Flushed, Out;
    var s1 := s.(client := rest);
    SameUpstreamWrites(s, s1);
    SendingUpstream(deps, s1, out);
    var s2 := Send(deps, s1, ToUpstream(s.upstream.value.id, out));
    if ok && deps.writes(|s.wire|) {
      ReplyFrame(deps, s2, q);
      SameUpstreamWrites(s2, Reply(deps, s2, q).s);
    }
  }

  lemma PassThroughIsBoundIff(deps: Deps, s: Session, head: Head, src: seq<Item>)
    requires head.RequestHead? && s.upstream.Some? && s.upstream.value.id < |s.dials|
    requires s.dials[s.upstream.value.id] == head.host
    ensures var (_, ok, rest) := WriteRequest(ReceivedRequest(head), src);
            Bound(PassThrough(deps, s, head, src).s) <==>
            Bound(s) && (ok && deps.writes(|s.wire|) ==> HeadsFor(Out(deps, |s.wire| + 1, rest), head.host))
  {
    hide WriteRequest, HeadsFor, Bound, Flushed, Out;
    var q := ReceivedRequest(head);
    var (items, ok, rest) := WriteRequest(q, src);
    OutIsOfTheRequest(deps, |s.wire|, q, src);
    WrittenRequestNamesItsHost(q, src, RequestOut(deps, |s.wire|, q, src), head.host);
    var out := Flushed(q, items, ok, deps.spill(|s.wire|));
    assert RequestOut(deps, |s.wire|, q, src) == Out(deps, |s.wire|, out);
    hide RequestOut;
    var s0 := s.(client := rest);
    SameUpstreamWrites(s, s0);
    SendingUpstream(deps, s0, out);
    var s1 := Send(deps, s0, ToUpstream(s.upstream.value.id, out));
    if ok && deps.writes(|s.wire|) {
      var s1' := s1.(client := []);
      SameUpstreamWrites(s1, s1');
      SendingUpstream(deps, s1', rest);
      var s2 := Send(deps, s1', ToUpstream(s.upstream.value.id, rest));
      SameUpstreamWrites(s2, PassThrough(deps, s, head, src).s);
    }
  }

  lemma ConnectIsBoundIff(deps: Deps, s: Session, host: string, rest: seq<Item>)
    ensures Bound(OnConnect(deps, s, host, rest).s) <==> Bound(s)
  {
    SameUpstreamWrites(s, OnConnect(deps, s, host, rest).s);
  }

  lemma StepIsBoundIff(deps: Deps, s: Session)
    requires Inv(s)
    ensures Bound(Step(deps, s).s) <==> Bound(s) && KeepsHosts(deps, s)
  {
    hide Bound, HeadsFor, Exchange, PassThrough, OnConnect, Connected, IsIntercepted, ForTheTamperer, OnRequest,
      WriteRequest;
    if s.client != [] && s.client[0].HeadItem? && s.client[0].head.RequestHead? {
      var head, src := s.client[0].head, s.client[1..];
      if head.verb == "CONNECT" {
        ConnectIsBoundIff(deps, s, head.host, src);
      } else {
        InterceptedIff(deps, head.host);
        ConnectingKeepsBound(deps, s, src, head.host);
        var s1 := Connected(deps, s.(client := src), head.host);
        if s1.upstream.Some? {
          if ForTheTamperer(deps, head.host) {
            ExchangeIsBoundIff(deps, s1, head, src);
          } else {
            PassThroughIsBoundIff(deps, s1, head, src);
          }
        }
      }
    }
  }

  lemma {:induction false} LoopIsBoundIff(deps: Deps, s: Session)
    requires Inv(s) && s.depth == s.handshakes
    ensures s.depth <= MAX_CONNECT_DEPTH
    ensures Bound(Loop(deps, s).0) <==> Bound(s) && SessionKeepsHosts(deps, s)
    decreases MAX_CONNECT_DEPTH - s.depth, |s.client|
  {
    StepIsBoundIff(deps, s);
    StepKeepsInv(deps, s);
    assert s.depth <= MAX_CONNECT_DEPTH;
    hide Bound, Step, Inv, KeepsHosts;
    if Step(deps, s).Stop? {
    } else {
      StepConsumes(deps, s);
      LoopIsBoundIff(deps, Step(deps, s).s);
    }
  }

  // --------------------------------------------------------------------------------- whole runs

  function Start(client: seq<Item>): Session { Session(client, None, "", 0, 0, [], 0, []) }

  /** For every client, outside world and tamperer: every request that the session writes upstream is
      written to a connection dialled for the host that it names, exactly when no passthrough carries
      a request for another host and no tamperer changes Host. */
  lemma RequestsReachTheirHostsIff(deps: Deps, client: seq<Item>)
    ensures Bound(Handle(deps, client).0) <==> SessionKeepsHosts(deps, Start(client))
  {
    LoopIsBoundIff(deps, Start(client));
    hide HeadsFor, Loop, SessionKeepsHosts;
    SameUpstreamWrites(Loop(deps, Start(client)).0, Handle(deps, client).0);
    assert Bound(Start(client));
  }

  /** So the default tamperers never send a request astray unless the session ends in a passthrough. */
  lemma {:induction false} InterceptedSessionsKeepHosts(deps: Deps, s: Session)
    requires s.depth <= MAX_CONNECT_DEPTH && !deps.tamperer.Custom? && Loop(deps, s).1 != PassedThrough
    ensures SessionKeepsHosts(deps, s)
    decreases MAX_CONNECT_DEPTH - s.depth, |s.client|
  {
    InterceptedRoundKeepsHosts(deps, s);
    hide Step, KeepsHosts;
    if Step(deps, s).Stop? {
    } else {
      StepConsumes(deps, s);
      InterceptedSessionsKeepHosts(deps, Step(deps, s).s);
    }
  }

  lemma InterceptedRoundKeepsHosts(deps: Deps, s: Session)
    requires !deps.tamperer.Custom? && (Step(deps, s).Stop? ==> Step(deps, s).exit != PassedThrough)
    ensures KeepsHosts(deps, s)
  {
    hide IsIntercepted, ForTheTamperer, WriteRequest, HeadsFor, Reply, Address;
    if s.client != [] && s.client[0].HeadItem? && s.client[0].head.RequestHead? {
      var head, src := s.client[0].head, s.client[1..];
      InterceptedIff(deps, head.host);
      assert OnRequest(deps.tamperer, ReceivedRequest(head), src).0.host == head.host;
      assert Connected(deps, s.(client := src), head.host).wire == s.wire;
      NopPasses(ReceivedRequest(head), src);
      hide OnRequest, Connected;
    }
  }

  lemma DefaultTamperersBind(deps: Deps, client: seq<Item>)
    requires !deps.tamperer.Custom? && Handle(deps, client).1 != PassedThrough
    ensures Bound(Handle(deps, client).0)
  {
    RequestsReachTheirHostsIff(deps, client);
    hide Loop, SessionKeepsHosts, Bound;
    InterceptedSessionsKeepHosts(deps, Start(client));
  }

  // ------------------------------------------------------------------------ requests gone astray

  function Get(host: string): Head { RequestHead("GET", host, "/", map[], Bodiless) }

  /** After a request that is passed through, one for another host goes to the same connection. */
  lemma PassthroughCarriesOtherHosts(deps: Deps, a: string, b: string)
    requires !ForTheTamperer(deps, a) && a != b && deps.dial(0, Address(deps, 0, a), a).Some?
    requires deps.writes(0) && (deps.writes(1) || deps.reach(1) > 0)
    ensures !Bound(Handle(deps, [HeadItem(Get(a)), HeadItem(Get(b))]).0)
  {
    var client := [HeadItem(Get(a)), HeadItem(Get(b))];
    RequestsReachTheirHostsIff(deps, client);
    hide Loop, Bound, ForTheTamperer, Address, KeepsHosts;
    FirstIsPassedThrough(deps, a, b);
  }

  lemma FirstIsPassedThrough(deps: Deps, a: string, b: string)
    requires !ForTheTamperer(deps, a) && a != b && deps.dial(0, Address(deps, 0, a), a).Some?
    requires deps.writes(0) && (deps.writes(1) || deps.reach(1) > 0)
    ensures !KeepsHosts(deps, Start([HeadItem(Get(a)), HeadItem(Get(b))]))
  {
    hide ForTheTamperer, Address;
    var s, src := Start([HeadItem(Get(a)), HeadItem(Get(b))]), [HeadItem(Get(b))];
    assert s.client[1..] == src;
    assert Connected(deps, s.(client := src), a).upstream.Some?;
    hide WriteRequest, ReceivedRequest, Connected;
    NothingIsRead(a, src);
    assert Out(deps, 1, src) == src;
    assert src[0].head.host == b;
    assert !HeadsFor(src, a);
  }

  lemma NothingIsRead(host: string, src: seq<Item>)
    ensures WriteRequest(ReceivedRequest(Get(host)), src).1 && WriteRequest(ReceivedRequest(Get(host)), src).2 == src
  {}

  /** Such as this one: the request for discord.com is sent to whoever answers for a.example. */
  lemma PassthroughInput()
    ensures !Bound(Handle(PLAIN, [HeadItem(Get("a.example")), HeadItem(Get("discord.com"))]).0)
  {
    var a := "a.example";
    ExampleIsPassedThrough();
    hide ForTheTamperer, IsDiscordHost;
    assert PLAIN.dial(0, Address(PLAIN, 0, a), a) == Some([]);
    assert a[0] != "discord.com"[0];
    PassthroughCarriesOtherHosts(PLAIN, a, "discord.com");
  }

  lemma ExampleIsPassedThrough()
    ensures !ForTheTamperer(PLAIN, "a.example")
  {
    hide IsDiscordHost, NamesDiscord;
    var a := "a.example";
    NotDiscord(a);
    DiscordHeadersByLabels(a);
    assert a[0] == 'a' && PLAIN.proxyHostPort[0] == 'p' && PLAIN.cleanHostname[0] == 'p';
  }

  const PLAIN := Deps(
    "proxy:443", "proxy", Nop,
    (encoding: string, bytes: seq<byte>) => None,
    (n: nat, host: string) => None,
    (n: nat, address: string, host: string) => Some([]),
    (depth: nat, host: string) => None,
    (n: nat) => true,
    (n: nat) => 0,
    (n: nat) => 0)

  lemma {:induction false} LowerCaseLength(s: string)
    ensures |LowerCase(s)| == |s|
  {
    if s == [] {
    } else {
      LowerCaseLength(s[1..]);
    }
  }

  lemma NotDiscord(host: string)
    requires ':' !in host && '[' !in host && ']' !in host && |host| < 10
    ensures !IsDiscordHost(host)
  {
    PortIsStripped(host, "");
    LowerCaseLength(host);
    if HasSuffix(host, ".") { LowerCaseLength(host[..|host| - 1]); }
    hide LowerCase, ServerName;
    assert |Canonical(host)| < 10;
  }

  /** A tamperer that changes Host sends the request to the connection of the old one. */
  lemma RewrittenHostGoesAstray(deps: Deps, a: string, b: string)
    requires ForTheTamperer(deps, a) && a != b && deps.writes(0) && deps.dial(0, Address(deps, 0, a), a).Some?
    requires deps.tamperer.Custom?
             && deps.tamperer.onRequest(ReceivedRequest(Get(a))) == Some(ReceivedRequest(Get(a)).(host := b))
    ensures !Bound(Handle(deps, [HeadItem(Get(a))]).0)
  {
    var client := [HeadItem(Get(a))];
    var s := Start(client);
    assert s.client[1..] == [];
    RequestsReachTheirHostsIff(deps, client);
    hide Loop, Bound, ForTheTamperer, Address;
    var q := ReceivedRequest(Get(a)).(host := b);
    assert Connected(deps, s.(client := []), a).upstream.Some?;
    assert OnRequest(deps.tamperer, ReceivedRequest(Get(a)), []) == (q, []);
    assert WriteRequest(q, []).1;
    hide WriteRequest, OnRequest, Connected;
    assert !KeepsHosts(deps, s);
  }
}
