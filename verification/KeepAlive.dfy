/** Keep-alive sessions on well-formed traffic: at every loop head both streams stand exactly at a
    message boundary, so requests and answers stay in step. */
module KeepAlive {
  import opened Common
  import opened HttpMessages
  import opened BodyPipeline
  import opened LoggingTamper
  import opened HttpsSession
  import opened SessionRounds

  datatype Query = Query(head: Head, bytes: seq<byte>)

  datatype Answer = Answer(head: Head, bytes: seq<byte>)

  predicate GoodQuery(deps: Deps, q: Query) {
    IsAhead(q.head, q.bytes) && q.head.verb != "CONNECT" && ForTheTamperer(deps, q.head.host)
  }

  /** An answer to a request with the given method, as a server may send it on a lasting connection. */
  predicate GoodAnswer(verb: string, a: Answer) {
    && a.head.ResponseHead? && a.head.status != 101 && !a.head.framing.UntilClose?
    && (if AllowsBody(verb, a.head.status) then Fits(a.head.framing, a.bytes) else a.bytes == [])
  }

  predicate GoodQueries(deps: Deps, qs: seq<Query>) { forall i :: 0 <= i < |qs| ==> GoodQuery(deps, qs[i]) }

  lemma TailIsGood(deps: Deps, qs: seq<Query>)
    requires |qs| > 0 && GoodQueries(deps, qs)
    ensures GoodQuery(deps, qs[0]) && GoodQueries(deps, qs[1..]) && qs[0].head.RequestHead?
  {}

  function QueryItems(q: Query): seq<Item> { [HeadItem(q.head)] + BodyItems(q.head.framing, q.bytes) }

  function AnswerBody(verb: string, a: Answer): seq<Item>
    requires a.head.ResponseHead?
  {
    if AllowsBody(verb, a.head.status) then BodyItems(a.head.framing, a.bytes) else []
  }

  function AnswerItems(verb: string, a: Answer): seq<Item>
    requires a.head.ResponseHead?
  {
    [HeadItem(a.head)] + AnswerBody(verb, a)
  }

  /** What the client reads from these items, in answer to its request, is the answer: its status and
      exactly its body. */
  ghost predicate Delivers(verb: string, items: seq<Item>, a: Answer) {
    && items != [] && items[0].HeadItem? && items[0].head.ResponseHead? && a.head.ResponseHead?
    && items[0].head.status == a.head.status
    && forall after :: Drain(items[1..] + after, Received(verb, items[0].head).body) == Read(a.bytes, true, after)
  }

  lemma ReadsByFraming(verb: string, head: Head, src: seq<Item>)
    requires head.ResponseHead? && AllowsBody(verb, head.status)
    ensures Drain(src, Received(verb, head).body) == ReadBody(src, head.framing)
  {}

  lemma BodylessAnswerIsForwarded(inflate: Inflate, verb: string, a: Answer, more: seq<Item>)
    requires GoodAnswer(verb, a) && Received(verb, a.head).body.NoBody?
    ensures AnswerBody(verb, a) == []
    ensures var (items, ok, rest) := Forward(inflate, Received(verb, a.head), more);
            ok && rest == more && Delivers(verb, items, a)
  {
    var (items, ok, rest) := Forward(inflate, Received(verb, a.head), more);
    assert a.bytes == [] && items[1..] == [];
    assert Received(verb, items[0].head).body.NoBody?;
    forall after ensures Drain(items[1..] + after, NoBody) == Read([], true, after) {
      assert items[1..] + after == after;
    }
  }

  lemma LiveAnswerIsForwarded(inflate: Inflate, verb: string, a: Answer, more: seq<Item>)
    requires GoodAnswer(verb, a) && Received(verb, a.head).body.Live?
    ensures var (items, ok, rest) := Forward(inflate, Received(verb, a.head), AnswerBody(verb, a) + more);
            ok && rest == more && Delivers(verb, items, a)
  {
    var r, src := Received(verb, a.head), AnswerBody(verb, a) + more;
    ReadBackWhole(a.head.framing, a.bytes, more);
    var (items, ok, rest) := Forward(inflate, r, src);
    hide Forward;
    if IsBinary(Get(a.head.header, "Content-Type")) {
      ForwardsBinaryBodies(inflate, verb, a.head, src);
      assert items[1..] == BodyItems(a.head.framing, a.bytes);
      forall after ensures Drain(items[1..] + after, Received(verb, items[0].head).body) == Read(a.bytes, true, after) {
        ReadBackWhole(a.head.framing, a.bytes, after);
        ReadsByFraming(verb, items[0].head, items[1..] + after);
      }
    } else {
      ForwardsTheUpstreamsBytes(inflate, r, src, []);
      assert items[1..] == Octets(a.bytes);
      forall after ensures Drain(items[1..] + after, Received(verb, items[0].head).body) == Read(a.bytes, true, after) {
        ForwardsTheUpstreamsBytes(inflate, r, src, after);
        ReadsByFraming(verb, items[0].head, items[1..] + after);
      }
    }
  }

  lemma AnswerIsForwarded(inflate: Inflate, verb: string, a: Answer, more: seq<Item>)
    requires GoodAnswer(verb, a)
    ensures var (items, ok, rest) := Forward(inflate, Received(verb, a.head), AnswerBody(verb, a) + more);
            ok && rest == more && Delivers(verb, items, a)
  {
    if Received(verb, a.head).body.NoBody? {
      BodylessAnswerIsForwarded(inflate, verb, a, more);
      assert [] + more == more;
    } else {
      LiveAnswerIsForwarded(inflate, verb, a, more);
    }
  }

  /** What the upstream reads from these items is the query. */
  ghost predicate Asks(items: seq<Item>, q: Query) {
    && items != [] && items[0].HeadItem? && items[0].head.RequestHead? && q.head.RequestHead?
    && SameRequestLine(items[0].head, q.head)
    && forall after :: ReadBody(items[1..] + after, items[0].head.framing) == Read(q.bytes, true, after)
  }

  lemma QueryIsForwarded(deps: Deps, q: Query, rest: seq<Item>)
    requires GoodQuery(deps, q)
    ensures var (items, ok, rest') := WriteRequest(ReceivedRequest(q.head), BodyItems(q.head.framing, q.bytes) + rest);
            ok && rest' == rest && Asks(items, q)
  {
    RequestIsWritten(ReceivedRequest(q.head), q.head, q.bytes, rest);
    hide WriteRequest, ForTheTamperer, ReadBody;
  }

  // ------------------------------------------------------------------------------- one round

  /** The outside world of a well-behaved session: no write fails, Nop is in charge, and the n-th
      connection answers by its script. */
  datatype Turn = Turn(verb: string, answer: Answer)

  type Script = nat -> seq<Turn>

  function Flat(turns: seq<Turn>): seq<Item>
    requires forall i :: 0 <= i < |turns| ==> turns[i].answer.head.ResponseHead?
  {
    if turns == [] then [] else AnswerItems(turns[0].verb, turns[0].answer) + Flat(turns[1..])
  }

  ghost predicate GoodScript(script: Script) {
    forall n: nat, i: nat :: i < |script(n)| ==> GoodAnswer(script(n)[i].verb, script(n)[i].answer)
  }

  ghost predicate WellBehaved(deps: Deps, script: Script) {
    && deps.tamperer.Nop? && GoodScript(script)
    && (forall n: nat :: deps.writes(n))
    && (forall n: nat, address, host :: deps.dial(n, address, host) == Some(Flat(script(n))))
  }

  /** Under Nop a reply is what the response path forwards. */
  lemma ReplyIsForward(deps: Deps, s: Session, r: Req, head: Head, src: seq<Item>)
    requires deps.tamperer.Nop? && deps.writes(|s.wire|) && head.ResponseHead? && head.status != 101
    requires s.upstream.Some? && s.upstream.value.input == [HeadItem(head)] + src
    requires Forward(deps.inflate, Received(r.verb, head), src).1
    ensures var (out, _, rest) := Forward(deps.inflate, Received(r.verb, head), src);
            Reply(deps, s, r) ==
              Continue(Send(deps, s.(upstream := Some(s.upstream.value.(input := rest))), ToClient(out)))
  {
    hide Decode, Encode, Write, Received, IsWebsocketUpgrade;
    assert s.upstream.value.input[1..] == src;
  }

  /** A reply takes exactly one answer off the upstream and hands it to the client. */
  lemma ReplyMovesOneAnswer(deps: Deps, s: Session, r: Req, a: Answer, more: seq<Item>) returns (given: seq<Item>)
    requires deps.tamperer.Nop? && deps.writes(|s.wire|) && GoodAnswer(r.verb, a)
    requires s.upstream.Some? && s.upstream.value.input == [HeadItem(a.head)] + (AnswerBody(r.verb, a) + more)
    ensures Delivers(r.verb, given, a)
    ensures Reply(deps, s, r) ==
            Continue(Send(deps, s.(upstream := Some(s.upstream.value.(input := more))), ToClient(given)))
  {
    AnswerIsForwarded(deps.inflate, r.verb, a, more);
    given := Forward(deps.inflate, Received(r.verb, a.head), AnswerBody(r.verb, a) + more).0;
    assert a.head.status != 101;
    hide Forward, Reply, Delivers, GoodAnswer, Received, AnswerBody;
    ReplyIsForward(deps, s, r, a.head, AnswerBody(r.verb, a) + more);
  }

  /** The first half of an exchange takes exactly one query off the client. */
  lemma RequestMovesOneQuery(deps: Deps, s: Session, q: Query, rest: seq<Item>) returns (asked: seq<Item>)
    requires deps.tamperer.Nop? && deps.writes(|s.wire|) && GoodQuery(deps, q) && s.upstream.Some?
    ensures Asks(asked, q)
    ensures Exchange(deps, s, q.head, BodyItems(q.head.framing, q.bytes) + rest) ==
            Reply(deps, Send(deps, s.(client := rest), ToUpstream(s.upstream.value.id, asked)), ReceivedRequest(q.head))
  {
    QueryIsForwarded(deps, q, rest);
    hide Reply, WriteRequest, Asks, ForTheTamperer;
    asked := WriteRequest(ReceivedRequest(q.head), BodyItems(q.head.framing, q.bytes) + rest).0;
  }

  /** A session after one exchange, in which `asked` went upstream and `given` to the client. */
  function Exchanged(s: Session, rest: seq<Item>, more: seq<Item>, asked: seq<Item>, given: seq<Item>): Session
    requires s.upstream.Some?
  {
    s.(client := rest, upstream := Some(s.upstream.value.(input := more)),
       wire := s.wire + [ToUpstream(s.upstream.value.id, asked)] + [ToClient(given)])
  }

  /** One exchange moves both streams on by exactly one message. */
  lemma ExchangeMovesOneMessage(deps: Deps, s: Session, q: Query, rest: seq<Item>, a: Answer, more: seq<Item>)
    returns (asked: seq<Item>, given: seq<Item>)
    requires deps.tamperer.Nop? && (forall n: nat :: deps.writes(n)) && GoodQuery(deps, q) && GoodAnswer(q.head.verb, a)
    requires s.upstream.Some? && s.upstream.value.input == [HeadItem(a.head)] + (AnswerBody(q.head.verb, a) + more)
    ensures Asks(asked, q) && Delivers(q.head.verb, given, a)
    ensures Exchange(deps, s, q.head, BodyItems(q.head.framing, q.bytes) + rest) ==
            Continue(Exchanged(s, rest, more, asked, given))
  {
    asked := RequestMovesOneQuery(deps, s, q, rest);
    var r := ReceivedRequest(q.head);
    hide Reply, Delivers, Asks, GoodQuery, GoodAnswer, Exchange, AnswerBody, BodyItems;
    var s1 := Send(deps, s.(client := rest), ToUpstream(s.upstream.value.id, asked));
    given := ReplyMovesOneAnswer(deps, s1, r, a, more);
  }

  // ------------------------------------------------------------------------------ whole sessions

  /** The connection in use: its host, its number, and how many answers have been taken from it. */
  datatype Link = Link(host: string, conn: nat, taken: nat)

  function NextLink(link: Option<Link>, dials: nat, host: string): Link {
    if link.Some? && link.value.host == host then link.value else Link(host, dials, 0)
  }

  /** For each query, the answer that the connection dialled for its host gives to it: the next one
      of that connection's script.  None if some script has no answer for the query's method. */
  function Plan(script: Script, qs: seq<Query>, link: Option<Link>, dials: nat): Option<seq<Answer>> {
    if qs == [] then Some([])
    else if !qs[0].head.RequestHead? then None else
      var l := NextLink(link, dials, qs[0].head.host);
      if l.taken >= |script(l.conn)| || script(l.conn)[l.taken].verb != qs[0].head.verb then None
      else match Plan(script, qs[1..], Some(l.(taken := l.taken + 1)), if l.conn == dials then dials + 1 else dials)
        case None => None
        case Some(answers) => Some([script(l.conn)[l.taken].answer] + answers)
  }

  function Queries(qs: seq<Query>): seq<Item> {
    if qs == [] then [] else QueryItems(qs[0]) + Queries(qs[1..])
  }

  /** Both streams stand at a message boundary: the client's at the queries to come, with `tail` behind
      them, and the upstream's at the answers that its script still holds. */
  ghost predicate AtBoundary(script: Script, s: Session, qs: seq<Query>, link: Option<Link>, tail: seq<Item>)
    requires GoodScript(script)
  {
    && s.client == Queries(qs) + tail
    && (link.None? ==> s.upstream.None?)
    && (link.Some? ==>
          && link.value.conn < |s.dials| && link.value.taken <= |script(link.value.conn)|
          && s.dialledHost == link.value.host
          && s.upstream == Some(Conn(link.value.conn, link.value.host, Rest(script, link.value))))
  }

  function Rest(script: Script, l: Link): seq<Item>
    requires l.taken <= |script(l.conn)|
    requires forall i :: 0 <= i < |script(l.conn)| ==> script(l.conn)[i].answer.head.ResponseHead?
  {
    Flat(script(l.conn)[l.taken..])
  }

  /** From position `from` on, the writes ask query k upstream and deliver answer k to the client. */
  ghost predicate InStep(wire: seq<Sent>, from: nat, qs: seq<Query>, answers: seq<Answer>) {
    && |qs| == |answers| && |wire| == from + 2 * |qs|
    && forall k :: 0 <= k < |qs| ==>
         && wire[from + 2 * k].ToUpstream? && Asks(wire[from + 2 * k].items, qs[k])
         && wire[from + 2 * k + 1].ToClient? && qs[k].head.RequestHead?
         && Delivers(qs[k].head.verb, wire[from + 2 * k + 1].items, answers[k])
  }

  /** The streams, split behind the head of their first message. */
  lemma QueriesSplit(qs: seq<Query>, tail: seq<Item>)
    requires |qs| > 0
    ensures Queries(qs) + tail ==
            [HeadItem(qs[0].head)] + (BodyItems(qs[0].head.framing, qs[0].bytes) + (Queries(qs[1..]) + tail))
  {
    hide BodyItems;
  }

  lemma RestSplit(script: Script, l: Link)
    requires l.taken < |script(l.conn)|
    requires forall i :: 0 <= i < |script(l.conn)| ==> script(l.conn)[i].answer.head.ResponseHead?
    ensures var turn := script(l.conn)[l.taken];
            Rest(script, l) == [HeadItem(turn.answer.head)]
                               + (AnswerBody(turn.verb, turn.answer) + Rest(script, l.(taken := l.taken + 1)))
  {
    var turns := script(l.conn)[l.taken..];
    assert turns[1..] == script(l.conn)[l.taken + 1..];
    hide AnswerBody;
  }

  /** Connecting for the next query puts the upstream at the answer planned for it. */
  lemma ConnectedAtAnswer(deps: Deps, script: Script, s: Session, qs: seq<Query>, link: Option<Link>, tail: seq<Item>,
    rest: seq<Item>)
    requires WellBehaved(deps, script) && |qs| > 0 && AtBoundary(script, s, qs, link, tail) && GoodQuery(deps, qs[0])
    requires var l := NextLink(link, |s.dials|, qs[0].head.host); l.taken < |script(l.conn)|
    ensures var l := NextLink(link, |s.dials|, qs[0].head.host);
            var turn := script(l.conn)[l.taken];
            var s1 := Connected(deps, s.(client := rest), qs[0].head.host);
            && GoodAnswer(turn.verb, turn.answer)
            && s1.upstream == Some(Conn(l.conn, l.host, [HeadItem(turn.answer.head)]
                 + (AnswerBody(turn.verb, turn.answer) + Rest(script, l.(taken := l.taken + 1)))))
            && s1.dialledHost == l.host && s1.client == rest && s1.wire == s.wire
            && s1.depth == s.depth && s1.handshakes == s.handshakes
            && |s1.dials| == (if l.conn == |s.dials| then |s.dials| + 1 else |s.dials|) && l.conn < |s1.dials|
  {
    var l := NextLink(link, |s.dials|, qs[0].head.host);
    RestSplit(script, l);
    if l.taken == 0 { assert script(l.conn)[0..] == script(l.conn); }
    hide ForTheTamperer, Address, Queries, AnswerBody;
  }

  /** The first query's link, and the plan for the others once it has been answered. */
  lemma PlanAhead(script: Script, qs: seq<Query>, link: Option<Link>, dials: nat)
    requires |qs| > 0 && qs[0].head.RequestHead? && Plan(script, qs, link, dials).Some?
    ensures var l := NextLink(link, dials, qs[0].head.host);
            var answers := Plan(script, qs, link, dials).value;
            && l.taken < |script(l.conn)| && script(l.conn)[l.taken].verb == qs[0].head.verb
            && |answers| > 0 && answers[0] == script(l.conn)[l.taken].answer
            && Plan(script, qs[1..], Some(l.(taken := l.taken + 1)), if l.conn == dials then dials + 1 else dials)
               == Some(answers[1..])
  {}

  /** One round of the loop, from the session that is connected for the next query. */
  lemma RoundIsExchange(deps: Deps, script: Script, s: Session, qs: seq<Query>, link: Option<Link>, tail: seq<Item>)
    returns (s1: Session, asked: seq<Item>, given: seq<Item>)
    requires WellBehaved(deps, script) && |qs| > 0 && AtBoundary(script, s, qs, link, tail) && GoodQuery(deps, qs[0])
    requires var l := NextLink(link, |s.dials|, qs[0].head.host);
             l.taken < |script(l.conn)| && script(l.conn)[l.taken].verb == qs[0].head.verb
    ensures var l := NextLink(link, |s.dials|, qs[0].head.host);
            && s1.upstream.Some? && s1.upstream.value.id == l.conn && s1.upstream.value.serverName == l.host
            && s1.dialledHost == l.host && s1.wire == s.wire && s1.depth == s.depth && s1.handshakes == s.handshakes
            && |s1.dials| == (if l.conn == |s.dials| then |s.dials| + 1 else |s.dials|) && l.conn < |s1.dials|
            && Asks(asked, qs[0]) && Delivers(qs[0].head.verb, given, script(l.conn)[l.taken].answer)
            && Step(deps, s) ==
               Continue(Exchanged(s1, Queries(qs[1..]) + tail, Rest(script, l.(taken := l.taken + 1)), asked, given))
  {
    var q := qs[0];
    var l := NextLink(link, |s.dials|, q.head.host);
    var turn := script(l.conn)[l.taken];
    var rest := Queries(qs[1..]) + tail;
    var src := BodyItems(q.head.framing, q.bytes) + rest;
    QueriesSplit(qs, tail);
    ConnectedAtAnswer(deps, script, s, qs, link, tail, src);
    assert q.head.RequestHead? && q.head.verb != "CONNECT" && ForTheTamperer(deps, q.head.host) && GoodScript(script);
    assert s.client == Queries(qs) + tail && l.taken + 1 <= |script(l.conn)|;
    assert forall i :: 0 <= i < |script(l.conn)| ==> script(l.conn)[i].answer.head.ResponseHead?;
    hide Exchange, Connected, Step, ForTheTamperer, Queries, Asks, Delivers, GoodAnswer, Rest, Flat, AnswerBody,
      BodyItems, GoodQuery, AtBoundary, Exchanged;
    s1 := Connected(deps, s.(client := src), q.head.host);
    RoundGoesBy(deps, s, q.head, src);
    asked, given := ExchangeMovesOneMessage(deps, s1, q, rest, turn.answer, Rest(script, l.(taken := l.taken + 1)));
  }

  /** One round of the loop: the next query is asked, its planned answer delivered, and both streams
      are at a boundary again. */
  lemma RoundStaysInStep(deps: Deps, script: Script, s: Session, qs: seq<Query>, link: Option<Link>, tail: seq<Item>)
    returns (asked: seq<Item>, given: seq<Item>)
    requires WellBehaved(deps, script) && |qs| > 0 && AtBoundary(script, s, qs, link, tail) && GoodQuery(deps, qs[0])
    requires var l := NextLink(link, |s.dials|, qs[0].head.host);
             l.taken < |script(l.conn)| && script(l.conn)[l.taken].verb == qs[0].head.verb
    ensures var l := NextLink(link, |s.dials|, qs[0].head.host);
            var o := Step(deps, s);
            && Asks(asked, qs[0]) && Delivers(qs[0].head.verb, given, script(l.conn)[l.taken].answer)
            && o.Continue? && o.s.depth == s.depth && o.s.handshakes == s.handshakes
            && o.s.wire == s.wire + [ToUpstream(l.conn, asked)] + [ToClient(given)]
            && |o.s.dials| == (if l.conn == |s.dials| then |s.dials| + 1 else |s.dials|)
            && AtBoundary(script, o.s, qs[1..], Some(l.(taken := l.taken + 1)), tail)
  {
    var s1;
    assert GoodScript(script);
    hide Step, Queries, Asks, Delivers, Rest, GoodQuery, WellBehaved, GoodScript;
    s1, asked, given := RoundIsExchange(deps, script, s, qs, link, tail);
  }

  /** How many connections have been dialled once these queries have been asked. */
  function Dialled(qs: seq<Query>, link: Option<Link>, dials: nat): nat {
    if qs == [] then dials
    else if !qs[0].head.RequestHead? then dials else
      var l := NextLink(link, dials, qs[0].head.host);
      Dialled(qs[1..], Some(l.(taken := l.taken + 1)), if l.conn == dials then dials + 1 else dials)
  }

  /** The session from s on asks all queries and delivers the planned answers, and then goes on as from
      `end`, at the boundary behind them. */
  ghost predicate ComesInStepTo(deps: Deps, script: Script, s: Session, qs: seq<Query>, link: Option<Link>,
    tail: seq<Item>, end: Session, last: Option<Link>)
    requires s.depth <= MAX_CONNECT_DEPTH && GoodScript(script)
  {
    && end.depth == s.depth && end.handshakes == s.handshakes && Loop(deps, s) == Loop(deps, end)
    && AtBoundary(script, end, [], last, tail) && |end.dials| == Dialled(qs, link, |s.dials|)
    && s.wire <= end.wire && Plan(script, qs, link, |s.dials|).Some?
    && InStep(end.wire, |s.wire|, qs, Plan(script, qs, link, |s.dials|).value)
  }

  /** A session that comes in step to its end after one round does so from before that round too. */
  lemma RoundAhead(deps: Deps, script: Script, s: Session, s': Session, qs: seq<Query>, link: Option<Link>,
    next: Option<Link>, tail: seq<Item>, end: Session, last: Option<Link>, conn: nat, asked: seq<Item>,
    given: seq<Item>)
    requires s.depth <= MAX_CONNECT_DEPTH && GoodScript(script) && |qs| > 0 && qs[0].head.RequestHead?
    requires s'.depth == s.depth && s'.handshakes == s.handshakes && Loop(deps, s) == Loop(deps, s')
    requires s'.wire == s.wire + [ToUpstream(conn, asked)] + [ToClient(given)]
    requires Dialled(qs, link, |s.dials|) == Dialled(qs[1..], next, |s'.dials|)
    requires Plan(script, qs, link, |s.dials|).Some?
    requires var answers := Plan(script, qs, link, |s.dials|).value;
             && |answers| > 0 && Plan(script, qs[1..], next, |s'.dials|) == Some(answers[1..])
             && Asks(asked, qs[0]) && Delivers(qs[0].head.verb, given, answers[0])
    requires ComesInStepTo(deps, script, s', qs[1..], next, tail, end, last)
    ensures ComesInStepTo(deps, script, s, qs, link, tail, end, last)
  {
    hide Loop, Plan, AtBoundary, Asks, Delivers, InStep, Dialled;
    StepsJoin(s.wire, s'.wire, end.wire, qs, Plan(script, qs, link, |s.dials|).value);
  }

  lemma NextRoundIsReady(deps: Deps, script: Script, s: Session, qs: seq<Query>, link: Option<Link>, tail: seq<Item>)
    returns (next: Option<Link>, conn: nat, asked: seq<Item>, given: seq<Item>)
    requires s.depth <= MAX_CONNECT_DEPTH && GoodScript(script)
    requires WellBehaved(deps, script) && |qs| > 0 && AtBoundary(script, s, qs, link, tail)
    requires GoodQueries(deps, qs) && Plan(script, qs, link, |s.dials|).Some?
    ensures qs[0].head.RequestHead? && GoodQueries(deps, qs[1..])
    ensures var o := Step(deps, s);
            && o.Continue? && o.s.depth == s.depth && o.s.handshakes == s.handshakes && Loop(deps, s) == Loop(deps, o.s)
            && o.s.wire == s.wire + [ToUpstream(conn, asked)] + [ToClient(given)]
            && AtBoundary(script, o.s, qs[1..], next, tail)
            && Dialled(qs, link, |s.dials|) == Dialled(qs[1..], next, |o.s.dials|)
            && var answers := Plan(script, qs, link, |s.dials|).value;
               && |answers| > 0 && Plan(script, qs[1..], next, |o.s.dials|) == Some(answers[1..])
               && Asks(asked, qs[0]) && Delivers(qs[0].head.verb, given, answers[0])
  {
    hide *;
    TailIsGood(deps, qs);
    PlanAhead(script, qs, link, |s.dials|);
    DialledAhead(qs, link, |s.dials|);
    asked, given := RoundStaysInStep(deps, script, s, qs, link, tail);
    LoopGoesOn(deps, s);
    conn := NextLink(link, |s.dials|, qs[0].head.host).conn;
    var l := NextLink(link, |s.dials|, qs[0].head.host);
    next := Some(l.(taken := l.taken + 1));
  }

  lemma DialledAhead(qs: seq<Query>, link: Option<Link>, dials: nat)
    requires |qs| > 0 && qs[0].head.RequestHead?
    ensures var l := NextLink(link, dials, qs[0].head.host);
            Dialled(qs, link, dials) ==
            Dialled(qs[1..], Some(l.(taken := l.taken + 1)), if l.conn == dials then dials + 1 else dials)
  {}

  /** Over any number of keep-alive requests, to any hosts in any order: request k goes upstream as it
      came, and the k-th answer that the client gets is the one that the connection dialled for its
      host gave to it.  Behind them both streams are at a message boundary, with nothing left over. */
  lemma {:induction false} AnswersStayInStep(deps: Deps, script: Script, s: Session, qs: seq<Query>, link: Option<Link>,
    tail: seq<Item>) returns (end: Session, last: Option<Link>)
    requires s.depth <= MAX_CONNECT_DEPTH && WellBehaved(deps, script) && AtBoundary(script, s, qs, link, tail)
    requires GoodQueries(deps, qs) && Plan(script, qs, link, |s.dials|).Some?
    ensures ComesInStepTo(deps, script, s, qs, link, tail, end, last)
    decreases |qs|
  {
    if qs == [] {
      end, last := s, link;
      hide Loop, AtBoundary;
    } else {
      assert GoodScript(script);
      hide *;
      var next, conn, asked, given := NextRoundIsReady(deps, script, s, qs, link, tail);
      end, last := AnswersStayInStep(deps, script, Step(deps, s).s, qs[1..], next, tail);
      RoundAhead(deps, script, s, Step(deps, s).s, qs, link, next, tail, end, last, conn, asked, given);
    }
  }

  lemma IdleSessionEnds(deps: Deps, s: Session)
    requires s.depth <= MAX_CONNECT_DEPTH && s.client == []
    ensures Loop(deps, s) == (s, ClientDone)
  {}

  lemma NothingBehind(qs: seq<Query>)
    ensures Queries(qs) + [] == Queries(qs) && Queries([]) == []
  {}

  /** The same for the handler as a whole, from its first request to its deferred Close. */
  lemma WholeSessionStaysInStep(deps: Deps, script: Script, qs: seq<Query>)
    requires WellBehaved(deps, script) && GoodQueries(deps, qs) && Plan(script, qs, None, 0).Some?
    ensures var (t, exit) := Handle(deps, Queries(qs));
            && exit == ClientDone && t.client == [] && t.upstream.None?
            && InStep(t.wire, 0, qs, Plan(script, qs, None, 0).value)
  {
    var s := Session(Queries(qs), None, "", 0, 0, [], 0, []);
    NothingBehind(qs);
    var end, last := AnswersStayInStep(deps, script, s, qs, None, []);
    assert end.client == [];
    hide Loop, InStep, Plan, WellBehaved, GoodQueries, Queries, Rest;
    IdleSessionEnds(deps, end);
  }

  lemma StepsJoin(w: seq<Sent>, w': seq<Sent>, end: seq<Sent>, qs: seq<Query>, answers: seq<Answer>)
    requires |qs| > 0 && |answers| > 0 && |w'| == |w| + 2 && w' <= end
    requires InStep(end, |w'|, qs[1..], answers[1..])
    requires w'[|w|].ToUpstream? && Asks(w'[|w|].items, qs[0])
    requires w'[|w| + 1].ToClient? && qs[0].head.RequestHead?
             && Delivers(qs[0].head.verb, w'[|w| + 1].items, answers[0])
    ensures InStep(end, |w|, qs, answers)
  {
    hide Asks, Delivers;
    assert end[|w|] == w'[|w|] && end[|w| + 1] == w'[|w| + 1];
    forall k | 0 <= k < |qs|
      ensures end[|w| + 2 * k].ToUpstream? && Asks(end[|w| + 2 * k].items, qs[k])
      ensures end[|w| + 2 * k + 1].ToClient? && qs[k].head.RequestHead?
              && Delivers(qs[k].head.verb, end[|w| + 2 * k + 1].items, answers[k])
    {
      if k > 0 {
        assert qs[1..][k - 1] == qs[k] && answers[1..][k - 1] == answers[k];
        assert |w'| + 2 * (k - 1) == |w| + 2 * k;
      }
    }
  }
}
