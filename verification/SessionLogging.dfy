/** Two runs of one session side by side: under the default tamperer Logging and under Nop. */
module SessionLogging {
  import opened Common
  import opened HttpMessages
  import opened BodyPipeline
  import opened LoggingTamper
  import opened HttpsSession

  function Plain(deps: Deps): Deps { deps.(tamperer := Nop) }

  function Logged(deps: Deps): Deps { deps.(tamperer := Logger) }

  /** What each of the two puts on the upstream connection for a request, as the session's n-th write. */
  function PlainOut(deps: Deps, n: nat, head: Head, src: seq<Item>): seq<Item>
    requires head.RequestHead?
  {
    var (items, ok, _) := SentByNop(head, src);
    Out(deps, n, Flushed(ReceivedRequest(head), items, ok, deps.spill(n)))
  }

  function LoggedOut(deps: Deps, n: nat, head: Head, src: seq<Item>): seq<Item>
    requires head.RequestHead?
  {
    var (items, ok, _) := SentByLogging(head, src);
    Out(deps, n, Flushed(Rewound(ReceivedRequest(head), src).0, items, ok, deps.spill(n)))
  }

  /** Logging puts something else there than Nop: a chunked body instead of none; or, of a body that
      broke off, nothing at all, or the last chunk if it was chunked.  And the connection carries as
      much of it as it takes to tell. */
  predicate DepartsAt(deps: Deps, n: nat, head: Head, src: seq<Item>)
    requires head.RequestHead?
  {
    var reach := if deps.writes(n) then 2 else deps.reach(n);
    if Drain(src, ReceivedRequest(head).body).ok then GainsChunkedFraming(head) && reach >= 1
    else reach >= if head.framing.Chunked? then 2 else 1
  }

  predicate Departs(deps: Deps, s: Session) {
    s.client != [] && s.client[0].HeadItem? && s.client[0].head.RequestHead? &&
    var head, src := s.client[0].head, s.client[1..];
    && head.verb != "CONNECT" && Connected(deps, s.(client := src), head.host).upstream.Some?
    && ForTheTamperer(deps, head.host) && DepartsAt(deps, |s.wire|, head, src)
  }

  /** Logging never does so in the session from s on. */
  predicate NeverDeparts(deps: Deps, s: Session)
    requires s.depth <= MAX_CONNECT_DEPTH
    decreases MAX_CONNECT_DEPTH - s.depth, |s.client|
  {
    !Departs(deps, s) &&
    match Step(deps, s)
    case Stop(_, _) => true
    case Continue(s') =>
      StepConsumes(deps, s);
      NeverDeparts(deps, s')
  }

  lemma RepliesAgree(deps: Deps, s: Session, q: Req, r: Req)
    requires s.upstream.Some? && q.(body := r.body) == r
    ensures Reply(Logged(deps), s, q) == Reply(Plain(deps), s, r)
  {
    hide Decode, Encode, Write, Received, IsWebsocketUpgrade;
  }

  lemma HeadsOfBroken(head: Head, src: seq<Item>)
    requires head.RequestHead? && !Drain(src, ReceivedRequest(head).body).ok
    ensures var items := SentByNop(head, src).0;
            items != [] && (head.framing.Chunked? ==> items[0] == HeadItem(head)) && (|items| > 1 ==> items[1].Octet?)
    ensures !head.framing.Chunked? ==> |SentByLogging(head, src).0| == 1
  {
    var got := Drain(src, ReceivedRequest(head).body).bytes;
    assert got != [] ==> Octets(got)[0].Octet?;
    hide ReadBody, Octets;
  }

  lemma WholeOutsDifferIff(deps: Deps, n: nat, head: Head, src: seq<Item>)
    requires head.RequestHead? && Drain(src, ReceivedRequest(head).body).ok
    ensures PlainOut(deps, n, head, src) != LoggedOut(deps, n, head, src) <==> DepartsAt(deps, n, head, src)
  {
    LoggingSendsTheSameIff(head, src);
    LoggingSendsTheSameMessage(head, src, []);
    var l, p := SentByLogging(head, src).0, SentByNop(head, src).0;
    assert GainsChunkedFraming(head) ==> l[0] != p[0] by { FramingsDiffer(head, src); }
    hide SentByLogging, SentByNop, GainsChunkedFraming, Rewound, Drain;
    if GainsChunkedFraming(head) && (deps.writes(n) || deps.reach(n) >= 1) {
      assert LoggedOut(deps, n, head, src)[0] == l[0] && PlainOut(deps, n, head, src)[0] == p[0];
    }
  }

  lemma FramingsDiffer(head: Head, src: seq<Item>)
    requires head.RequestHead? && Drain(src, ReceivedRequest(head).body).ok
    ensures GainsChunkedFraming(head) ==> SentByLogging(head, src).0[0] != SentByNop(head, src).0[0]
  {
    var r := ReceivedRequest(head);
    var bytes := Drain(src, r.body).bytes;
    assert SentByLogging(head, src).0[0].head.framing == RequestFraming(Rewound(r, src).0, bytes);
    assert SentByNop(head, src).0[0].head.framing == RequestFraming(r, bytes);
  }

  lemma BrokenOutsDifferIff(deps: Deps, n: nat, head: Head, src: seq<Item>)
    requires head.RequestHead? && !Drain(src, ReceivedRequest(head).body).ok
    ensures PlainOut(deps, n, head, src) != LoggedOut(deps, n, head, src) <==> DepartsAt(deps, n, head, src)
  {
    BrokenBodyIsSentIffChunked(head, src);
    HeadsOfBroken(head, src);
    assert ReceivedRequest(head).body.Live? && Rewound(ReceivedRequest(head), src).0.body == Buffered([]);
    hide SentByLogging, SentByNop, Rewound, Drain, ReceivedRequest;
    var l, p := LoggedOut(deps, n, head, src), PlainOut(deps, n, head, src);
    if head.framing.Chunked? {
      if deps.writes(n) || deps.reach(n) >= 2 {
        assert l == [HeadItem(head), LastChunk];
        assert |p| > 1 ==> p[1].Octet?;
      } else if deps.reach(n) == 1 {
        assert l == [HeadItem(head)] == p;
      }
    }
  }

  lemma OutsDifferIff(deps: Deps, n: nat, head: Head, src: seq<Item>)
    requires head.RequestHead?
    ensures PlainOut(deps, n, head, src) != LoggedOut(deps, n, head, src) <==> DepartsAt(deps, n, head, src)
  {
    if Drain(src, ReceivedRequest(head).body).ok { WholeOutsDifferIff(deps, n, head, src); }
    else { BrokenOutsDifferIff(deps, n, head, src); }
  }

  /** From s the two runs write different things. */
  predicate Part(s: Session, l: Outcome, n: Outcome) {
    && |s.wire| < |l.s.wire| && |s.wire| < |n.s.wire|
    && l.s.wire[|s.wire|] != n.s.wire[|s.wire|]
  }

  /** The session once a request has been written. */
  function Written(s: Session, rest: seq<Item>, out: seq<Item>): Session
    requires s.upstream.Some?
  {
    s.(client := rest, wire := s.wire + [ToUpstream(s.upstream.value.id, out)])
  }

  lemma PlainExchange(deps: Deps, s: Session, head: Head, src: seq<Item>)
    requires head.RequestHead? && s.upstream.Some?
    ensures var (_, ok, rest) := SentByNop(head, src);
            var s1 := Written(s, rest, PlainOut(deps, |s.wire|, head, src));
            Exchange(Plain(deps), s, head, src)
            == if ok && deps.writes(|s.wire|) then Reply(Plain(deps), s1, ReceivedRequest(head))
               else Stop(s1, RequestNotSent)
  {
    hide Reply, WriteRequest, Rewound, Flushed;
  }

  lemma LoggedExchange(deps: Deps, s: Session, head: Head, src: seq<Item>)
    requires head.RequestHead? && s.upstream.Some?
    ensures var (_, ok, rest) := SentByLogging(head, src);
            var s1 := Written(s, rest, LoggedOut(deps, |s.wire|, head, src));
            Exchange(Logged(deps), s, head, src)
            == if ok && deps.writes(|s.wire|) then Reply(Logged(deps), s1, Rewound(ReceivedRequest(head), src).0)
               else Stop(s1, RequestNotSent)
  {
    hide Reply, WriteRequest, Rewound, Flushed;
  }

  /** Where they write the same, they are in the same state behind it. */
  lemma ExchangesAgree(deps: Deps, s: Session, head: Head, src: seq<Item>)
    requires head.RequestHead? && s.upstream.Some? && !DepartsAt(deps, |s.wire|, head, src)
    ensures Exchange(Logged(deps), s, head, src) == Exchange(Plain(deps), s, head, src)
  {
    assert deps.writes(|s.wire|) ==> Drain(src, ReceivedRequest(head).body).ok;
    hide Exchange, Reply, Drain, ReceivedRequest, Rewound, SentByLogging, SentByNop, PlainOut, LoggedOut, DepartsAt;
    OutsDifferIff(deps, |s.wire|, head, src);
    SameRest(head, src);
    PlainExchange(deps, s, head, src);
    LoggedExchange(deps, s, head, src);
    var s1 := Written(s, SentByNop(head, src).2, PlainOut(deps, |s.wire|, head, src));
    SameButBody(ReceivedRequest(head), src);
    RepliesAgree(deps, s1, Rewound(ReceivedRequest(head), src).0, ReceivedRequest(head));
  }

  lemma SameButBody(r: Req, src: seq<Item>)
    ensures Rewound(r, src).0.(body := r.body) == r
  {}

  lemma SameRest(head: Head, src: seq<Item>)
    requires head.RequestHead?
    ensures SentByLogging(head, src).2 == SentByNop(head, src).2
    ensures Drain(src, ReceivedRequest(head).body).ok ==> SentByLogging(head, src).1 && SentByNop(head, src).1
  {
    if Drain(src, ReceivedRequest(head).body).ok { LoggingSendsTheSameMessage(head, src, []); }
    else { BrokenBodyIsSentIffChunked(head, src); }
  }

  lemma ExchangesCompare(deps: Deps, s: Session, head: Head, src: seq<Item>)
    requires head.RequestHead? && s.upstream.Some?
    ensures var l, n := Exchange(Logged(deps), s, head, src), Exchange(Plain(deps), s, head, src);
            if DepartsAt(deps, |s.wire|, head, src) then Part(s, l, n) else l == n
  {
    hide Exchange, Reply, Rewound, SentByLogging, SentByNop, DepartsAt, PlainOut, LoggedOut;
    if DepartsAt(deps, |s.wire|, head, src) {
      OutsDifferIff(deps, |s.wire|, head, src);
      PlainExchange(deps, s, head, src);
      LoggedExchange(deps, s, head, src);
      ReplyFrame(Plain(deps), Written(s, SentByNop(head, src).2, PlainOut(deps, |s.wire|, head, src)),
        ReceivedRequest(head));
      ReplyFrame(Logged(deps), Written(s, SentByLogging(head, src).2, LoggedOut(deps, |s.wire|, head, src)),
                 Rewound(ReceivedRequest(head), src).0);
    } else {
      ExchangesAgree(deps, s, head, src);
    }
  }

  lemma StepsCompare(deps: Deps, s: Session)
    ensures var l, n := Step(Logged(deps), s), Step(Plain(deps), s);
            if Departs(Plain(deps), s) then Part(s, l, n) else l == n
  {
    hide Exchange, IsIntercepted, ForTheTamperer, DepartsAt;
    if s.client != [] && s.client[0].HeadItem? && s.client[0].head.RequestHead? {
      var head, src := s.client[0].head, s.client[1..];
      var s1 := Connected(Plain(deps), s.(client := src), head.host);
      assert s1 == Connected(Logged(deps), s.(client := src), head.host) && s1.wire == s.wire;
      hide Connected;
      InterceptedIff(Plain(deps), head.host);
      InterceptionIgnoresTamperer(deps, head.host);
      DepartureIgnoresTamperer(deps, |s.wire|, head, src);
      if head.verb != "CONNECT" && s1.upstream.Some? && IsIntercepted(Plain(deps), head.host) {
        ExchangesCompare(deps, s1, head, src);
      }
    }
  }

  lemma DepartureIgnoresTamperer(deps: Deps, n: nat, head: Head, src: seq<Item>)
    requires head.RequestHead?
    ensures DepartsAt(Plain(deps), n, head, src) == DepartsAt(deps, n, head, src)
  {
    hide Drain, GainsChunkedFraming;
  }

  lemma InterceptionIgnoresTamperer(deps: Deps, host: string)
    ensures IsIntercepted(Plain(deps), host) == IsIntercepted(Logged(deps), host)
  {}

  lemma StepEndsExtended(deps: Deps, s: Session)
    requires s.depth <= MAX_CONNECT_DEPTH
    ensures Step(deps, s).s.wire <= Loop(deps, s).0.wire
  {
    hide Step;
    if Step(deps, s).Continue? {
      StepConsumes(deps, s);
      LoopExtends(deps, Step(deps, s).s);
    }
  }

  /** A whole session puts the same on the wire, towards client and upstream, under Logging as under Nop
      exactly when it forwards no request with an empty body under a method that usually has one, and
      no body that breaks off; then it ends in the same state and way too. */
  lemma {:induction false} LoggingIsTransparentIff(deps: Deps, s: Session)
    requires s.depth <= MAX_CONNECT_DEPTH
    ensures Loop(Logged(deps), s).0.wire == Loop(Plain(deps), s).0.wire <==> NeverDeparts(Plain(deps), s)
    ensures NeverDeparts(Plain(deps), s) ==> Loop(Logged(deps), s) == Loop(Plain(deps), s)
    decreases MAX_CONNECT_DEPTH - s.depth, |s.client|
  {
    StepsCompare(deps, s);
    hide Step, Departs;
    if Departs(Plain(deps), s) {
      StepEndsExtended(Logged(deps), s);
      StepEndsExtended(Plain(deps), s);
    } else if Step(Plain(deps), s).Continue? {
      StepConsumes(Plain(deps), s);
      StepConsumes(Logged(deps), s);
      LoggingIsTransparentIff(deps, Step(Plain(deps), s).s);
    }
  }
}
