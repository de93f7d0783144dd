/** Keep-alive sessions with servers that answer a request with interim responses before the final one:
    section 15.2 of RFC 9110.  The session takes one response off the upstream for each request. */
module InterimResponses {
  import opened Common
  import opened HttpMessages
  import opened BodyPipeline
  import opened LoggingTamper
  import opened HttpsSession
  import opened KeepAlive

  /** What a server sends in answer to one request with this method: any number of interim responses,
      and a final one. */
  datatype Reply = Reply(verb: string, answers: seq<Answer>)

  predicate IsReply(r: Reply) {
    && r.answers != [] && (forall i :: 0 <= i < |r.answers| ==> r.answers[i].head.ResponseHead?)
    && r.answers[|r.answers| - 1].head.status >= 200
    && forall i :: 0 <= i < |r.answers| - 1 ==> r.answers[i].head.status < 200
  }

  /** The replies of each connection, in order. */
  type Replies = nat -> seq<Reply>

  ghost predicate AreReplies(replies: Replies) { forall n: nat, j: nat :: j < |replies(n)| ==> IsReply(replies(n)[j]) }

  function TurnsOf(r: Reply): seq<Turn> {
    seq(|r.answers|, i requires 0 <= i < |r.answers| => Turn(r.verb, r.answers[i]))
  }

  function Turns(rs: seq<Reply>): seq<Turn> { if rs == [] then [] else TurnsOf(rs[0]) + Turns(rs[1..]) }

  /** The responses that each connection sends, one after the other. */
  function Responses(replies: Replies): Script { (n: nat) => Turns(replies(n)) }

  /** For each query, the reply that the connection dialled for its host makes to it.  None if some
      server does not answer. */
  function Owed(replies: Replies, qs: seq<Query>, link: Option<Link>, dials: nat): Option<seq<Reply>> {
    if qs == [] then Some([])
    else if !qs[0].head.RequestHead? then None else
      var l := NextLink(link, dials, qs[0].head.host);
      if l.taken >= |replies(l.conn)| || replies(l.conn)[l.taken].verb != qs[0].head.verb then None
      else match Owed(replies, qs[1..], Some(l.(taken := l.taken + 1)), if l.conn == dials then dials + 1 else dials)
        case None => None
        case Some(rest) => Some([replies(l.conn)[l.taken]] + rest)
  }

  /** So far the connection in use has answered each request with one response. */
  predicate Aligned(replies: Replies, link: Option<Link>) {
    link.Some? ==> forall j :: 0 <= j < Min(link.value.taken, |replies(link.value.conn)|) ==>
      |replies(link.value.conn)[j].answers| == 1
  }

  lemma {:induction false} ResponseAt(rs: seq<Reply>, t: nat)
    requires t < |rs| && rs[t].answers != [] && forall j :: 0 <= j < t ==> |rs[j].answers| == 1
    ensures t < |Turns(rs)| && Turns(rs)[t] == Turn(rs[t].verb, rs[t].answers[0])
  {
    if t == 0 {
    } else {
      ResponseAt(rs[1..], t - 1);
    }
  }

  /** The query's reply, and those that are owed to the others. */
  lemma OwedAhead(replies: Replies, qs: seq<Query>, link: Option<Link>, dials: nat)
    requires |qs| > 0 && Owed(replies, qs, link, dials).Some?
    ensures qs[0].head.RequestHead?
    ensures var l := NextLink(link, dials, qs[0].head.host);
            var owed := Owed(replies, qs, link, dials).value;
            && l.taken < |replies(l.conn)| && replies(l.conn)[l.taken].verb == qs[0].head.verb
            && |owed| > 0 && owed[0] == replies(l.conn)[l.taken]
            && Owed(replies, qs[1..], Some(l.(taken := l.taken + 1)), if l.conn == dials then dials + 1 else dials)
               == Some(owed[1..])
  {}

  lemma {:induction false} OnePerQuery(replies: Replies, qs: seq<Query>, link: Option<Link>, dials: nat)
    requires Owed(replies, qs, link, dials).Some?
    ensures |Owed(replies, qs, link, dials).value| == |qs|
    ensures forall k :: 0 <= k < |qs| ==>
              qs[k].head.RequestHead? && Owed(replies, qs, link, dials).value[k].verb == qs[k].head.verb
    decreases |qs|
  {
    if qs == [] {
    } else {
      OwedAhead(replies, qs, link, dials);
      var l := NextLink(link, dials, qs[0].head.host);
      OnePerQuery(replies, qs[1..], Some(l.(taken := l.taken + 1)), if l.conn == dials then dials + 1 else dials);
      var owed := Owed(replies, qs, link, dials).value;
      hide Owed;
      forall k | 0 < k < |qs| ensures qs[k].head.RequestHead? && owed[k].verb == qs[k].head.verb {
        assert qs[k] == qs[1..][k - 1] && owed[k] == owed[1..][k - 1];
      }
    }
  }

  lemma NextResponse(replies: Replies, qs: seq<Query>, link: Option<Link>, dials: nat)
    requires AreReplies(replies) && Aligned(replies, link) && |qs| > 0 && Owed(replies, qs, link, dials).Some?
    ensures qs[0].head.RequestHead?
    ensures var l := NextLink(link, dials, qs[0].head.host);
            var reply := Owed(replies, qs, link, dials).value[0];
            && IsReply(reply) && l.taken < |Responses(replies)(l.conn)|
            && Responses(replies)(l.conn)[l.taken] == Turn(qs[0].head.verb, reply.answers[0])
            && (|reply.answers| == 1 ==> Aligned(replies, Some(l.(taken := l.taken + 1))))
  {
    OwedAhead(replies, qs, link, dials);
    var l := NextLink(link, dials, qs[0].head.host);
    assert IsReply(replies(l.conn)[l.taken]);
    ResponseAt(replies(l.conn), l.taken);
  }

  // ------------------------------------------------------------------------------ whole sessions

  /** From position `from` on, the k-th thing that the client is given is the final answer to query k. */
  ghost predicate GetsFinal(wire: seq<Sent>, from: nat, owed: seq<Reply>, k: nat) {
    && k < |owed| && owed[k].answers != [] && from + 2 * k + 1 < |wire| && wire[from + 2 * k + 1].ToClient?
    && Delivers(owed[k].verb, wire[from + 2 * k + 1].items, owed[k].answers[|owed[k].answers| - 1])
  }

  ghost predicate GetsFinals(wire: seq<Sent>, from: nat, owed: seq<Reply>) {
    forall k :: 0 <= k < |owed| ==> GetsFinal(wire, from, owed, k)
  }

  predicate NoInterims(owed: seq<Reply>) { forall k :: 0 <= k < |owed| ==> |owed[k].answers| == 1 }

  /** A first reply with an interim response puts the session out of step at once. */
  lemma InterimIsNotFinal(wire: seq<Sent>, from: nat, owed: seq<Reply>, given: seq<Item>)
    requires |owed| > 0 && IsReply(owed[0]) && from + 1 < |wire| && wire[from + 1] == ToClient(given)
    requires Delivers(owed[0].verb, given, owed[0].answers[0])
    ensures GetsFinal(wire, from, owed, 0) <==> |owed[0].answers| == 1
  {
    assert |owed[0].answers| > 1 ==> owed[0].answers[0].head.status < 200;
    assert from + 2 * 0 + 1 == from + 1;
  }

  lemma SameFinal(wire: seq<Sent>, from: nat, owed: seq<Reply>, k: nat)
    requires k + 1 < |owed|
    ensures GetsFinal(wire, from, owed, k + 1) <==> GetsFinal(wire, from + 2, owed[1..], k)
  {
    assert from + 2 * (k + 1) + 1 == from + 2 + 2 * k + 1;
  }

  lemma FinalsFromRest(wire: seq<Sent>, from: nat, owed: seq<Reply>)
    requires |owed| > 0 && GetsFinal(wire, from, owed, 0) && GetsFinals(wire, from + 2, owed[1..])
    ensures GetsFinals(wire, from, owed)
  {
    hide GetsFinal;
    var next, rest := from + 2, owed[1..];
    forall k | 0 <= k < |owed| ensures GetsFinal(wire, from, owed, k) {
      if k > 0 {
        assert GetsFinal(wire, next, rest, k - 1);
        SameFinal(wire, from, owed, k - 1);
      }
    }
  }

  lemma FinalsAhead(wire: seq<Sent>, from: nat, owed: seq<Reply>)
    requires |owed| > 0
    ensures GetsFinals(wire, from, owed) <==> GetsFinal(wire, from, owed, 0) && GetsFinals(wire, from + 2, owed[1..])
    ensures NoInterims(owed) <==> |owed[0].answers| == 1 && NoInterims(owed[1..])
  {
    var next, rest := from + 2, owed[1..];
    assert owed == [owed[0]] + rest;
    hide GetsFinal;
    if GetsFinals(wire, from, owed) {
      forall k | 0 <= k < |rest| ensures GetsFinal(wire, next, rest, k) {
        assert GetsFinal(wire, from, owed, k + 1);
        SameFinal(wire, from, owed, k);
      }
    }
    if GetsFinal(wire, from, owed, 0) && GetsFinals(wire, from + 2, rest) { FinalsFromRest(wire, from, owed); }
  }

  /** A session at a boundary, in step so far, with requests to come that are all answered. */
  ghost predicate Ready(deps: Deps, replies: Replies, s: Session, qs: seq<Query>, link: Option<Link>)
    requires GoodScript(Responses(replies))
  {
    && GoodQueries(deps, qs) && AtBoundary(Responses(replies), s, qs, link, []) && Aligned(replies, link)
    && Owed(replies, qs, link, |s.dials|).Some?
  }

  function Next(s: Session, qs: seq<Query>, link: Option<Link>): Option<Link>
    requires |qs| > 0 && qs[0].head.RequestHead?
  {
    var l := NextLink(link, |s.dials|, qs[0].head.host);
    Some(l.(taken := l.taken + 1))
  }

  /** What one round does, whatever comes after it. */
  lemma OneRound(deps: Deps, replies: Replies, s: Session, qs: seq<Query>, link: Option<Link>)
    returns (given: seq<Item>)
    requires s.depth <= MAX_CONNECT_DEPTH && WellBehaved(deps, Responses(replies)) && AreReplies(replies)
    requires |qs| > 0 && Ready(deps, replies, s, qs, link)
    ensures var owed := Owed(replies, qs, link, |s.dials|).value;
            var o := Step(deps, s);
            && |owed| > 0 && IsReply(owed[0]) && Delivers(owed[0].verb, given, owed[0].answers[0])
            && o.Continue? && o.s.depth == s.depth
            && |o.s.wire| == |s.wire| + 2 && o.s.wire[|s.wire| + 1] == ToClient(given)
            && qs[0].head.RequestHead?
            && (|owed[0].answers| == 1 ==>
                  && Ready(deps, replies, o.s, qs[1..], Next(s, qs, link))
                  && Owed(replies, qs[1..], Next(s, qs, link), |o.s.dials|) == Some(owed[1..]))
  {
    RoundsReply(deps, replies, s, qs, link);
    assert GoodScript(Responses(replies));
    hide WellBehaved, GoodQueries, GoodQuery, AtBoundary, Aligned, Owed, Responses, AreReplies, IsReply, Step,
         NextLink, Delivers,
         Asks, GoodScript;
    var asked;
    asked, given := RoundStaysInStep(deps, Responses(replies), s, qs, link, []);
  }

  /** The reply that the next round takes the first response of. */
  lemma RoundsReply(deps: Deps, replies: Replies, s: Session, qs: seq<Query>, link: Option<Link>)
    requires GoodScript(Responses(replies)) && AreReplies(replies) && |qs| > 0 && Ready(deps, replies, s, qs, link)
    ensures GoodQuery(deps, qs[0]) && GoodQueries(deps, qs[1..]) && qs[0].head.RequestHead?
    ensures var l := NextLink(link, |s.dials|, qs[0].head.host);
            var owed := Owed(replies, qs, link, |s.dials|).value;
            && |owed| > 0 && IsReply(owed[0]) && owed[0].verb == qs[0].head.verb
            && l.taken < |Responses(replies)(l.conn)|
            && Responses(replies)(l.conn)[l.taken] == Turn(owed[0].verb, owed[0].answers[0])
            && (|owed[0].answers| == 1 ==> Aligned(replies, Next(s, qs, link)))
            && Owed(replies, qs[1..], Next(s, qs, link), if l.conn == |s.dials| then |s.dials| + 1 else |s.dials|)
               == Some(owed[1..])
  {
    TailIsGood(deps, qs);
    hide AtBoundary, GoodQuery, GoodQueries;
    OwedAhead(replies, qs, link, |s.dials|);
    NextResponse(replies, qs, link, |s.dials|);
  }

  /** And what the whole session makes of it. */
  lemma RoundInLoop(deps: Deps, replies: Replies, s: Session, qs: seq<Query>, link: Option<Link>)
    requires s.depth <= MAX_CONNECT_DEPTH && WellBehaved(deps, Responses(replies)) && AreReplies(replies)
    requires |qs| > 0 && Ready(deps, replies, s, qs, link)
    requires GoodScript(Responses(replies)) && Owed(replies, qs, link, |s.dials|).Some?
    ensures qs[0].head.RequestHead? && Owed(replies, qs, link, |s.dials|).value != []
    ensures InLoop(deps, replies, s, qs, link, Owed(replies, qs, link, |s.dials|).value)
  {
    hide Ready, WellBehaved, Owed, Responses, AreReplies, IsReply, Step, Loop, Next, Delivers, GoodScript, GetsFinal;
    var owed := Owed(replies, qs, link, |s.dials|).value;
    var given := OneRound(deps, replies, s, qs, link);
    LaterWritesExtend(deps, s);
    var wire := Loop(deps, s).0.wire;
    assert wire[|s.wire| + 1] == Step(deps, s).s.wire[|s.wire| + 1];
    InterimIsNotFinal(wire, |s.wire|, owed, given);
  }

  ghost predicate InLoop(deps: Deps, replies: Replies, s: Session, qs: seq<Query>, link: Option<Link>, owed: seq<Reply>)
    requires s.depth <= MAX_CONNECT_DEPTH && |qs| > 0 && qs[0].head.RequestHead? && owed != []
    requires GoodScript(Responses(replies))
  {
    var o := Step(deps, s);
    && o.Continue? && o.s.depth == s.depth && |o.s.wire| == |s.wire| + 2 && Loop(deps, s) == Loop(deps, o.s)
    && (GetsFinal(Loop(deps, s).0.wire, |s.wire|, owed, 0) <==> |owed[0].answers| == 1)
    && (|owed[0].answers| == 1 ==>
          && Ready(deps, replies, o.s, qs[1..], Next(s, qs, link))
          && Owed(replies, qs[1..], Next(s, qs, link), |o.s.dials|) == Some(owed[1..]))
  }

  lemma LaterWritesExtend(deps: Deps, s: Session)
    requires s.depth <= MAX_CONNECT_DEPTH && Step(deps, s).Continue? && Step(deps, s).s.depth == s.depth
    ensures Loop(deps, s) == Loop(deps, Step(deps, s).s) && Step(deps, s).s.wire <= Loop(deps, s).0.wire
  {
    hide Step;
    LoopGoesOn(deps, s);
    LoopExtends(deps, Step(deps, s).s);
  }

  lemma {:induction false} LoopInStepIff(deps: Deps, replies: Replies, s: Session, qs: seq<Query>, link: Option<Link>)
    requires s.depth <= MAX_CONNECT_DEPTH && WellBehaved(deps, Responses(replies)) && AreReplies(replies)
    requires GoodScript(Responses(replies)) && Ready(deps, replies, s, qs, link)
             && Owed(replies, qs, link, |s.dials|).Some?
    ensures var owed := Owed(replies, qs, link, |s.dials|).value;
            GetsFinals(Loop(deps, s).0.wire, |s.wire|, owed) <==> NoInterims(owed)
    decreases |qs|
  {
    if qs == [] {
      hide Loop;
      assert Owed(replies, qs, link, |s.dials|).value == [];
    } else {
      hide Ready, WellBehaved, Owed, Responses, AreReplies, Step, Next, GoodScript, GetsFinal, GetsFinals,
        NoInterims, Loop;
      RoundInLoop(deps, replies, s, qs, link);
      var owed := Owed(replies, qs, link, |s.dials|).value;
      FinalsAhead(Loop(deps, s).0.wire, |s.wire|, owed);
      if |owed[0].answers| == 1 {
        LoopInStepIff(deps, replies, Step(deps, s).s, qs[1..], Next(s, qs, link));
      }
    }
  }

  /** For any requests to any hosts, each answered by its server: the client gets the final answer to
      every request exactly when no server sends an interim response to any of them.  Whatever the
      session does after the first interim response, it is out of step by then. */
  lemma InStepIffNoInterimResponses(deps: Deps, replies: Replies, qs: seq<Query>)
    requires WellBehaved(deps, Responses(replies)) && AreReplies(replies) && GoodQueries(deps, qs)
    requires Owed(replies, qs, None, 0).Some?
    ensures var owed := Owed(replies, qs, None, 0).value;
            && |owed| == |qs|
            && (GetsFinals(Handle(deps, Queries(qs)).0.wire, 0, owed) <==> NoInterims(owed))
  {
    var s := Session(Queries(qs), None, "", 0, 0, [], 0, []);
    OnePerQuery(replies, qs, None, 0);
    NothingBehind(qs);
    assert AtBoundary(Responses(replies), s, qs, None, []) by { hide Queries; }
    assert Ready(deps, replies, s, qs, None);
    hide WellBehaved, GoodQueries, AtBoundary, Ready, Owed, Responses, AreReplies, Loop, GetsFinals, NoInterims;
    LoopInStepIff(deps, replies, s, qs, None);
  }
}
