/** CONNECT inside a session: each leads into a TLS layer of its own on the client's connection, with
    requests inside it, and no more than four layers deep. */
module Tunnels {
  import opened Common
  import opened HttpMessages
  import opened HttpsSession
  import opened KeepAlive

  /** What a client sends in one layer when it opens another: queries, the CONNECT behind them, and
      whatever follows the CONNECT outside the new layer. */
  datatype Layer = Layer(qs: seq<Query>, connect: Head, behind: seq<Item>)

  predicate IsConnect(head: Head) { head.RequestHead? && head.verb == "CONNECT" }

  // ------------------------------------------------------------------------------- one CONNECT

  /** A CONNECT is answered with 200, and then the session is one on the client's stream inside the new
      layer, one level deeper and with no upstream; what the client sent behind it is not read. */
  lemma ConnectLeadsInside(deps: Deps, s: Session, head: Head, behind: seq<Item>, inner: seq<Item>)
    requires s.client == [HeadItem(head)] + behind && IsConnect(head) && s.depth < 4
    requires deps.handshake(s.depth, head.host) == Some(inner)
    ensures Step(deps, s).Continue? && Loop(deps, s) == Loop(deps, Step(deps, s).s)
    ensures var t := Step(deps, s).s;
            && t.client == inner && t.upstream == None && t.depth == s.depth + 1 && t.handshakes == s.handshakes + 1
            && t.dials == s.dials && t.closed == (if s.upstream.Some? then s.closed + 1 else s.closed)
            && t.wire == s.wire + [ToClient(Out(deps, |s.wire|, [HeadItem(ResponseHead(200, map[], Bodiless))]))]
  {
    hide Exchange, PassThrough, Connected, IsIntercepted, Out;
  }

  /** Where the handshake fails the session ends, and so it does at a CONNECT in the fourth layer, with
      nothing written and no handshake tried. */
  lemma ConnectEndsIt(deps: Deps, s: Session, head: Head, behind: seq<Item>)
    requires s.client == [HeadItem(head)] + behind && IsConnect(head) && s.depth <= 4
    ensures s.depth == 4 ==> Loop(deps, s) == (s.(client := behind), TooDeep)
    ensures s.depth < 4 && deps.handshake(s.depth, head.host).None? ==>
              var (t, exit) := Loop(deps, s);
              && exit == HandshakeFailed && t.client == behind && t.upstream == s.upstream
              && t.handshakes == s.handshakes + 1
              && t.wire == s.wire + [ToClient(Out(deps, |s.wire|, [HeadItem(ResponseHead(200, map[], Bodiless))]))]
  {
    assert s.client[1..] == behind;
    hide Exchange, PassThrough, Connected, IsIntercepted, Out;
  }

  // --------------------------------------------------------------------------- layers in layers

  function Asked(layers: seq<Layer>, last: seq<Query>): seq<Query> { if layers == [] then last else layers[0].qs }

  function Behind(layers: seq<Layer>): seq<Item> {
    if layers == [] then [] else [HeadItem(layers[0].connect)] + layers[0].behind
  }

  /** The client's stream in the outermost of these layers; `last` are the queries in the innermost. */
  function Outermost(layers: seq<Layer>, last: seq<Query>): seq<Item> { Queries(Asked(layers, last)) + Behind(layers) }

  /** The handshake behind each CONNECT, as far as there is one, uncovers the next layer; in every layer
      the queries are well-formed and each upstream has its answers. */
  ghost predicate AreNested(deps: Deps, script: Script, layers: seq<Layer>, last: seq<Query>, depth: nat, dials: nat) {
    var qs := Asked(layers, last);
    && GoodQueries(deps, qs) && Plan(script, qs, None, dials).Some?
    && (layers != [] ==> IsConnect(layers[0].connect))
    && (layers != [] && depth < 4 ==>
          && deps.handshake(depth, layers[0].connect.host) == Some(Outermost(layers[1..], last))
          && AreNested(deps, script, layers[1..], last, depth + 1, Dialled(qs, None, dials)))
  }

  /** From position `from` on the writes ask the queries of each layer and deliver their answers, in
      step, with one 200 to the client between a layer and the next. */
  ghost predicate LayersInStep(script: Script, wire: seq<Sent>, from: nat, layers: seq<Layer>, last: seq<Query>,
    depth: nat, dials: nat)
    decreases |layers|
  {
    var qs := Asked(layers, last);
    var to := from + 2 * |qs|;
    && to <= |wire| && Plan(script, qs, None, dials).Some?
    && InStep(wire[..to], from, qs, Plan(script, qs, None, dials).value)
    && if layers == [] || depth == 4 then |wire| == to else
         && to < |wire| && wire[to] == ToClient([HeadItem(ResponseHead(200, map[], Bodiless))])
         && LayersInStep(script, wire, to + 1, layers[1..], last, depth + 1, Dialled(qs, None, dials))
  }

  /** The session has worked off what is asked in this layer and stands before what comes behind. */
  lemma LayerIsAsked(deps: Deps, script: Script, s: Session, layers: seq<Layer>, last: seq<Query>)
    returns (end: Session)
    requires s.depth <= 4 && WellBehaved(deps, script) && s.upstream.None?
    requires s.client == Outermost(layers, last) && AreNested(deps, script, layers, last, s.depth, |s.dials|)
    ensures end.depth == s.depth && end.handshakes == s.handshakes && Loop(deps, s) == Loop(deps, end)
    ensures end.client == Behind(layers) && s.wire <= end.wire && (forall n: nat :: deps.writes(n))
    ensures var qs := Asked(layers, last);
            && |end.dials| == Dialled(qs, None, |s.dials|) && Plan(script, qs, None, |s.dials|).Some?
            && InStep(end.wire, |s.wire|, qs, Plan(script, qs, None, |s.dials|).value)
  {
    var qs := Asked(layers, last);
    assert AtBoundary(script, s, qs, None, Behind(layers));
    var link;
    hide Loop, InStep, Plan, Queries, Rest, Dialled, GoodQueries;
    end, link := AnswersStayInStep(deps, script, s, qs, None, Behind(layers));
    NothingBehind([]);
    assert [] + Behind(layers) == Behind(layers);
  }

  lemma LayersJoin(script: Script, wire: seq<Sent>, w: seq<Sent>, from: nat, layers: seq<Layer>, last: seq<Query>,
    depth: nat, dials: nat)
    requires var qs := Asked(layers, last);
             && Plan(script, qs, None, dials).Some? && InStep(w, from, qs, Plan(script, qs, None, dials).value)
             && if layers == [] || depth == 4 then wire == w else
                  && w + [ToClient([HeadItem(ResponseHead(200, map[], Bodiless))])] <= wire
                  && LayersInStep(script, wire, |w| + 1, layers[1..], last, depth + 1, Dialled(qs, None, dials))
    ensures LayersInStep(script, wire, from, layers, last, depth, dials)
  {
    hide InStep, Plan, Dialled;
    StepsLength(w, from, Asked(layers, last), Plan(script, Asked(layers, last), None, dials).value);
    assert w <= wire && wire[..|w|] == w;
  }

  lemma StepsLength(wire: seq<Sent>, from: nat, qs: seq<Query>, answers: seq<Answer>)
    requires InStep(wire, from, qs, answers)
    ensures |wire| == from + 2 * |qs|
  {
    hide Asks, Delivers;
  }

  /** Over any number of layers, with any queries in each: all queries are asked and answered in step,
      layer by layer, and the session ends well; only a CONNECT in the fourth layer ends it early. */
  lemma {:induction false} LayersStayInStep(deps: Deps, script: Script, s: Session, layers: seq<Layer>,
    last: seq<Query>)
    requires s.depth <= 4 && WellBehaved(deps, script) && s.upstream.None?
    requires s.client == Outermost(layers, last) && AreNested(deps, script, layers, last, s.depth, |s.dials|)
    ensures var (t, exit) := Loop(deps, s);
            && s.wire <= t.wire && LayersInStep(script, t.wire, |s.wire|, layers, last, s.depth, |s.dials|)
            && (if s.depth + |layers| <= 4 then exit == ClientDone && t.client == [] else exit == TooDeep)
            && t.handshakes == s.handshakes + Min(|layers|, 4 - s.depth)
    decreases |layers|
  {
    hide Loop, InStep, Plan, Dialled, WellBehaved, Outermost, LayersInStep, GoodQueries, Step;
    var end := LayerIsAsked(deps, script, s, layers, last);
    if layers == [] {
      IdleSessionEnds(deps, end);
    } else if s.depth == 4 {
      ConnectEndsIt(deps, end, layers[0].connect, layers[0].behind);
    } else {
      ConnectLeadsInside(deps, end, layers[0].connect, layers[0].behind, Outermost(layers[1..], last));
      LayersStayInStep(deps, script, Step(deps, end).s, layers[1..], last);
    }
    LayersJoin(script, Loop(deps, s).0.wire, end.wire, |s.wire|, layers, last, s.depth, |s.dials|);
  }

  /** The same for the handler as a whole. */
  lemma TunnelledSessionsStayInStep(deps: Deps, script: Script, layers: seq<Layer>, last: seq<Query>)
    requires WellBehaved(deps, script) && AreNested(deps, script, layers, last, 0, 0)
    ensures var (t, exit) := Handle(deps, Outermost(layers, last));
            && t.upstream.None? && LayersInStep(script, t.wire, 0, layers, last, 0, 0)
            && (if |layers| <= 4 then exit == ClientDone && t.client == [] else exit == TooDeep)
            && t.handshakes == (if |layers| <= 4 then |layers| else 4)
  {
    hide Loop, WellBehaved, AreNested, Outermost, LayersInStep;
    LayersStayInStep(deps, script, Session(Outermost(layers, last), None, "", 0, 0, [], 0, []), layers, last);
  }
}
