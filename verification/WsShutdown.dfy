/** How the two WebSocket pumps of proxy/internals/handlers/ws.go bring each other down.  Both run at
    once, and so do the goroutines of the stream decoder, so the session is a transition system over
    all their steps: the decoder is the one of ZlibDecoder. */
module WsShutdown {
  import opened Common
  import Z = ZlibDecoder

  /** Bot is the pump bot -> Discord, Discord the pump Discord -> bot. */
  datatype Side = Bot | Discord

  /** Compressed: a binary frame on a zlib-stream connection. */
  datatype Kind = Ordinary | Compressed(data: seq<byte>) | CloseFrame

  /** Decoding is inside Decode, Closing at the deferred Close of the connection written to. */
  datatype Stage = Reading | Decoding | Writing(kind: Kind) | Closing | Done

  /** The frames that have arrived for a pump and that it has not read. */
  datatype Pump = Pump(stage: Stage, arrived: seq<Kind>)

  /** clientOpen and serverOpen: not yet closed by the proxy.  The bot pump reads the client and
      writes the server; the Discord pump the other way round. */
  datatype State = State(
    bot: Pump,
    discord: Pump,
    clientOpen: bool,
    serverOpen: bool,
    decoder: Z.State,
    returned: bool)

  function Of(s: State, p: Side): Pump { if p.Bot? then s.bot else s.discord }
  function With(s: State, p: Side, pump: Pump): State { if p.Bot? then s.(bot := pump) else s.(discord := pump) }
  predicate SourceOpen(s: State, p: Side) { if p.Bot? then s.clientOpen else s.serverOpen }

  function Init(buffered: Side -> seq<Kind>): State {
    State(Pump(Reading, buffered(Bot)), Pump(Reading, buffered(Discord)), true, true, Z.START, false)
  }

  /** SourceClosed is a read that fails since the proxy has closed the connection; PeerFails one that
      fails since the peer has ended or broken it, and WriteEnds with false a write that fails so. */
  datatype Event =
    | Arrive(p: Side, kind: Kind)
    | Read(p: Side)
    | SourceClosed(p: Side)
    | PeerFails(p: Side)
    | Decoder(e: Z.Event)        // a step of the running Decode or of one of its writers
    | DecodeReturns
    | WriteEnds(p: Side, ok: bool)
    | Close(p: Side)
    | Return                     // with the deferred decoder.Close

  /** The pump that has this frame next calls Decode on it. */
  predicate Decodes(p: Side, pump: Pump) { p.Discord? && pump.arrived != [] && pump.arrived[0].Compressed? }

  predicate Enabled(c: Z.Codec, s: State, e: Event) {
    match e
    case Arrive(p, _) => SourceOpen(s, p)
    case Read(p) =>
      Of(s, p).stage.Reading? && Of(s, p).arrived != [] && (Decodes(p, Of(s, p)) ==> s.decoder.phase.Free?)
    case SourceClosed(p) => Of(s, p).stage.Reading? && Of(s, p).arrived == [] && !SourceOpen(s, p)
    case PeerFails(p) => Of(s, p).stage.Reading? && Of(s, p).arrived == [] && SourceOpen(s, p)
    case Decoder(d) => Z.Inside(d) && Z.Enabled(c, s.decoder, d)
    case DecodeReturns => s.discord.stage.Decoding? && s.decoder.phase.Free?
    case WriteEnds(p, _) => Of(s, p).stage.Writing?
    case Close(p) => Of(s, p).stage.Closing?
    case Return => s.bot.stage.Done? && s.discord.stage.Done? && !s.returned && s.decoder.phase.Free?
  }

  function Apply(c: Z.Codec, s: State, e: Event): State
    requires Enabled(c, s, e)
  {
    match e
    case Arrive(p, kind) => With(s, p, Of(s, p).(arrived := Of(s, p).arrived + [kind]))
    case Read(p) =>
      var pump := Of(s, p);
      if Decodes(p, pump) then
        s.(discord := Pump(Decoding, pump.arrived[1..]), decoder := Z.Called(c, s.decoder, pump.arrived[0].data))
      else With(s, p, Pump(Writing(pump.arrived[0]), pump.arrived[1..]))
    case SourceClosed(p) => With(s, p, Of(s, p).(stage := Closing))
    case PeerFails(p) => With(s, p, Of(s, p).(stage := Closing))
    case Decoder(d) => s.(decoder := Z.Apply(c, s.decoder, d))
    case DecodeReturns => s.(discord := s.discord.(stage := Writing(Compressed([]))))
    case WriteEnds(p, ok) =>
      With(s, p, Of(s, p).(stage := if !ok || Of(s, p).stage.kind.CloseFrame? then Closing else Reading))
    case Close(p) =>
      var s := With(s, p, Of(s, p).(stage := Done));
      if p.Bot? then s.(serverOpen := false) else s.(clientOpen := false)
    case Return => s.(returned := true, decoder := Z.Apply(c, s.decoder, Z.Close))
  }

  predicate Run(c: Z.Codec, s: State, es: seq<Event>)
    decreases |es|
  {
    es == [] || (Enabled(c, s, es[0]) && Run(c, Apply(c, s, es[0]), es[1..]))
  }

  function End(c: Z.Codec, s: State, es: seq<Event>): State
    requires Run(c, s, es)
    decreases |es|
  {
    if es == [] then s else End(c, Apply(c, s, es[0]), es[1..])
  }

  // ------------------------------------------------------------------------------ invariant

  /** A connection is closed exactly when the pump that writes to it has returned, InspectWS waits for
      both, and the decoder's mutex is held only by the pump that decodes. */
  predicate PumpsOk(s: State) {
    && (s.serverOpen <==> !s.bot.stage.Done?)
    && (s.clientOpen <==> !s.discord.stage.Done?)
    && (s.returned ==> s.bot.stage.Done? && s.discord.stage.Done?)
    && !s.bot.stage.Decoding?
    && (if s.returned then s.decoder.phase.Closed?
        else !s.decoder.phase.Closed? && (s.discord.stage.Decoding? || s.decoder.phase.Free?))
  }

  ghost predicate DecoderOk(c: Z.Codec, d: Z.State) { Z.Inv(c, d) && Z.PlaceOk(c, d) && Z.InTurn(c, d) }

  ghost predicate Inv(c: Z.Codec, s: State) {
    PumpsOk(s) && DecoderOk(c, s.decoder)
  }

  lemma PhaseChanges(c: Z.Codec, d: Z.State, e: Z.Event)
    requires Z.Enabled(c, d, e) && Z.Inside(e)
    ensures d.phase.Free? ==> Z.Apply(c, d, e).phase.Free? && Z.Apply(c, d, e).reader == d.reader
    ensures d.phase.Closed? <==> Z.Apply(c, d, e).phase.Closed?
  {}

  lemma PumpsStep(c: Z.Codec, s: State, e: Event)
    requires PumpsOk(s) && Enabled(c, s, e)
    ensures PumpsOk(Apply(c, s, e))
  {
    if e.Decoder? { PhaseChanges(c, s.decoder, e.e); }
    hide Z.Enabled, Z.IsZlibFlush;
  }

  /** What an event has the decoder do. */
  function DecoderEvent(s: State, e: Event): Option<Z.Event> {
    match e
    case Read(p) => if Decodes(p, Of(s, p)) then Some(Z.Call(Of(s, p).arrived[0].data)) else None
    case Decoder(d) => Some(d)
    case Return => Some(Z.Close)
    case _ => None
  }

  lemma DecoderDoes(c: Z.Codec, s: State, e: Event)
    requires Enabled(c, s, e)
    ensures match DecoderEvent(s, e)
            case Some(d) => Z.Enabled(c, s.decoder, d) && Apply(c, s, e).decoder == Z.Apply(c, s.decoder, d)
            case None => Apply(c, s, e).decoder == s.decoder
  {
    if e.Decoder? || DecoderEvent(s, e).None? { hide Z.Enabled, Z.Apply; }
  }

  lemma DecoderStep(c: Z.Codec, s: State, e: Event)
    requires Z.Lawful(c) && Enabled(c, s, e) && DecoderOk(c, s.decoder)
    ensures DecoderOk(c, Apply(c, s, e).decoder)
  {
    hide Z.Lawful, Z.Inv, Z.PlaceOk, Z.InTurn, Z.Enabled, Z.Apply, Apply, Enabled;
    DecoderDoes(c, s, e);
    if DecoderEvent(s, e).Some? {
      Z.InvStep(c, s.decoder, DecoderEvent(s, e).value);
      Z.PlaceStep(c, s.decoder, DecoderEvent(s, e).value);
      Z.InTurnStep(c, s.decoder, DecoderEvent(s, e).value);
    }
  }

  lemma InvStep(c: Z.Codec, s: State, e: Event)
    requires Z.Lawful(c) && Inv(c, s) && Enabled(c, s, e)
    ensures Inv(c, Apply(c, s, e))
  {
    hide Z.Lawful, DecoderOk, Apply, Enabled, PumpsOk;
    PumpsStep(c, s, e);
    DecoderStep(c, s, e);
  }

  lemma {:induction false} RunKeepsInv(c: Z.Codec, s: State, es: seq<Event>)
    requires Z.Lawful(c) && Inv(c, s) && Run(c, s, es)
    ensures Inv(c, End(c, s, es))
    decreases |es|
  {
    hide Z.Lawful, Inv, Apply, Enabled;
    if es == [] {
    } else {
      InvStep(c, s, es[0]);
      RunKeepsInv(c, Apply(c, s, es[0]), es[1..]);
    }
  }

  lemma InitInv(c: Z.Codec, buffered: Side -> seq<Kind>)
    ensures Inv(c, Init(buffered))
  {
    Z.InvAtStart(c);
    assert Z.PlaceOk(c, Z.START) && Z.InTurn(c, Z.START);
    hide Z.Inv, Z.PlaceOk, Z.InTurn;
  }

  /** When InspectWS has returned, both connections are closed, and nothing is left to happen but
      writer goroutines that a failed inflater left behind. */
  lemma ReturnLeavesNothingOpen(c: Z.Codec, buffered: Side -> seq<Kind>, es: seq<Event>)
    requires Z.Lawful(c) && Run(c, Init(buffered), es) && End(c, Init(buffered), es).returned
    ensures var s := End(c, Init(buffered), es);
            && !s.clientOpen && !s.serverOpen
            && forall e :: Enabled(c, s, e) ==> e.Decoder?
  {
    InitInv(c, buffered);
    RunKeepsInv(c, Init(buffered), es);
    hide Z.Lawful, DecoderOk, Run, End, Init, PumpsOk, Enabled;
    NothingIsOpen(c, End(c, Init(buffered), es));
  }

  lemma NothingIsOpen(c: Z.Codec, s: State)
    requires PumpsOk(s) && s.returned
    ensures !s.clientOpen && !s.serverOpen && forall e :: Enabled(c, s, e) ==> e.Decoder?
  {
    hide Z.Enabled;
  }

  // ---------------------------------------------------------------------------- frames in order

  /** The frames that come in for a pump in a run, and those that it reads. */
  function Arrivals(es: seq<Event>, p: Side): seq<Kind> {
    if es == [] then [] else
      (if es[0].Arrive? && es[0].p == p then [es[0].kind] else []) + Arrivals(es[1..], p)
  }

  function Taken(c: Z.Codec, s: State, es: seq<Event>, p: Side): seq<Kind>
    requires Run(c, s, es)
    decreases |es|
  {
    if es == [] then [] else
      (if es[0] == Read(p) then [Of(s, p).arrived[0]] else []) + Taken(c, Apply(c, s, es[0]), es[1..], p)
  }

  lemma FrameIsTakenOrLeft(c: Z.Codec, s: State, e: Event, p: Side)
    requires Enabled(c, s, e)
    ensures Of(s, p).arrived + Arrivals([e], p) ==
            (if e == Read(p) then [Of(s, p).arrived[0]] else []) + Of(Apply(c, s, e), p).arrived
  {
    hide Z.Enabled, Z.Apply, Z.Called;
  }

  lemma ArrivalsAhead(e: Event, es: seq<Event>, p: Side)
    ensures Arrivals([e] + es, p) == Arrivals([e], p) + Arrivals(es, p)
  {
    assert ([e] + es)[1..] == es && [e][1..] == [];
  }

  /** Each pump reads its frames in the order in which they came, each once. */
  lemma {:induction false} FramesAreReadInOrder(c: Z.Codec, s: State, es: seq<Event>, p: Side)
    requires Run(c, s, es)
    ensures Of(s, p).arrived + Arrivals(es, p) == Taken(c, s, es, p) + Of(End(c, s, es), p).arrived
    decreases |es|
  {
    hide Enabled, Apply, Of;
    if es == [] {
    } else {
      FrameIsTakenOrLeft(c, s, es[0], p);
      FramesAreReadInOrder(c, Apply(c, s, es[0]), es[1..], p);
      assert es == [es[0]] + es[1..];
      ArrivalsAhead(es[0], es[1..], p);
      var t, u := Apply(c, s, es[0]), End(c, s, es);
      var first := if es[0] == Read(p) then [Of(s, p).arrived[0]] else [];
      Rechain(Of(s, p).arrived, Arrivals([es[0]], p), first, Of(t, p).arrived, Arrivals(es[1..], p),
        Taken(c, t, es[1..], p), Of(u, p).arrived);
    }
  }

  lemma Rechain(a: seq<Kind>, x: seq<Kind>, first: seq<Kind>, b: seq<Kind>, y: seq<Kind>, others: seq<Kind>,
    left: seq<Kind>)
    requires a + x == first + b && b + y == others + left
    ensures a + (x + y) == (first + others) + left
  {
    assert a + (x + y) == (a + x) + y;
    assert (first + b) + y == first + (b + y);
  }

  /** After a frame has been written, or could not be, the pump ends exactly if the write failed or the
      frame was a Close; otherwise it reads on. */
  lemma PumpEndsIff(c: Z.Codec, s: State, p: Side, ok: bool)
    requires Of(s, p).stage.Writing?
    ensures var stage := Of(Apply(c, s, WriteEnds(p, ok)), p).stage;
            && (stage == Closing <==> !ok || Of(s, p).stage == Writing(CloseFrame))
            && (stage == Reading <==> ok && Of(s, p).stage != Writing(CloseFrame))
  {}

  predicate IsEnding(stage: Stage) { stage == Writing(CloseFrame) || stage == Closing || stage == Done }

  lemma EndingStays(c: Z.Codec, s: State, e: Event, p: Side)
    requires Enabled(c, s, e) && IsEnding(Of(s, p).stage)
    ensures e != Read(p) && IsEnding(Of(Apply(c, s, e), p).stage)
    ensures e == Close(p) ==> Of(Apply(c, s, e), p).stage == Done && !SourceOpen(Apply(c, s, e), Other(p))
  {
    hide Z.Enabled, Z.Apply, Z.Called;
  }

  function Other(p: Side): Side { if p.Bot? then Discord else Bot }

  /** A pump that has a Close to pass on reads nothing behind it, whatever else happens: all that it
      may still do is to close the connection that it writes to. */
  lemma {:induction false} NothingIsReadBehindAClose(c: Z.Codec, s: State, es: seq<Event>, p: Side)
    requires Run(c, s, es) && IsEnding(Of(s, p).stage)
    ensures Read(p) !in es && IsEnding(Of(End(c, s, es), p).stage)
    decreases |es|
  {
    if es == [] {
    } else {
      EndingStays(c, s, es[0], p);
      hide Enabled, Apply, Of, IsEnding;
      NothingIsReadBehindAClose(c, Apply(c, s, es[0]), es[1..], p);
    }
  }

  // ------------------------------------------------------------------------------- shutdown

  predicate HalfDone(s: State) { s.bot.stage.Done? || s.discord.stage.Done? }

  function Rank(stage: Stage): nat {
    match stage
    case Reading => 2
    case Decoding => 4
    case Writing(_) => 3
    case Closing => 1
    case Done => 0
  }

  /** The steps that a pump still has before it: a bounded number per buffered frame. */
  function Left(pump: Pump): nat {
    if pump.stage.Done? then 0 else 4 * |pump.arrived| + Rank(pump.stage)
  }

  function Measure(s: State): nat { Left(s.bot) + Left(s.discord) + if s.returned then 0 else 1 }

  /** Steps of the pumps, as against frames that the network delivers and steps inside Decode. */
  predicate IsMove(e: Event) { !e.Arrive? && !e.Decoder? }

  function Moves(es: seq<Event>): nat {
    if es == [] then 0 else (if IsMove(es[0]) then 1 else 0) + Moves(es[1..])
  }

  lemma StepGoesDown(c: Z.Codec, s: State, e: Event)
    requires PumpsOk(s) && HalfDone(s) && Enabled(c, s, e)
    ensures HalfDone(Apply(c, s, e))
    ensures (if IsMove(e) then 1 else 0) + Measure(Apply(c, s, e)) <= Measure(s)
  {
    hide Z.Enabled, Z.Apply;
  }

  /** Once either pump has returned, the pumps' steps are bounded by the frames still buffered, in every
      continuation: nothing can be added, since the connection that the other pump reads is closed. */
  lemma {:induction false} ShutdownIsBounded(c: Z.Codec, s: State, es: seq<Event>)
    requires Z.Lawful(c) && Inv(c, s) && HalfDone(s) && Run(c, s, es)
    ensures Moves(es) + Measure(End(c, s, es)) <= Measure(s)
    ensures HalfDone(End(c, s, es)) && Inv(c, End(c, s, es))
    decreases |es|
  {
    hide Z.Lawful, DecoderOk, Apply, Enabled, Measure, HalfDone, PumpsOk;
    if es == [] {
    } else {
      StepGoesDown(c, s, es[0]);
      InvStep(c, s, es[0]);
      ShutdownIsBounded(c, Apply(c, s, es[0]), es[1..]);
    }
  }

  function DecoderSteps(es: seq<Event>): nat {
    if es == [] then 0 else (if es[0].Decoder? then 1 else 0) + DecoderSteps(es[1..])
  }

  /** And between two steps of the pumps the decoder's are bounded, so no continuation goes on for ever
      unless the network delivers for ever to a pump that has returned. */
  lemma {:induction false} DecodingIsBounded(c: Z.Codec, s: State, es: seq<Event>)
    requires Z.Lawful(c) && Inv(c, s) && Run(c, s, es) && Moves(es) == 0
    ensures DecoderSteps(es) <= Z.Work(c, s.decoder)
    decreases |es|
  {
    if es == [] {
    } else {
      assert !IsMove(es[0]);
      DecoderGoesDown(c, s, es[0]);
      hide Z.Lawful, Inv, Apply, Enabled, Z.Work;
      InvStep(c, s, es[0]);
      DecodingIsBounded(c, Apply(c, s, es[0]), es[1..]);
    }
  }

  lemma DecoderGoesDown(c: Z.Codec, s: State, e: Event)
    requires Z.Lawful(c) && Inv(c, s) && Enabled(c, s, e) && !IsMove(e)
    ensures (if e.Decoder? then 1 else 0) + Z.Work(c, Apply(c, s, e).decoder) <= Z.Work(c, s.decoder)
  {
    hide Z.Lawful, Z.Inv, Z.PlaceOk, Z.InTurn, Z.Work, Z.Enabled, Z.Apply;
    if e.Decoder? { Z.WorkGoesDown(c, s.decoder, e.e); }
  }

  // ------------------------------------------------------------------------ Decode in the way

  /** The Discord pump is in a Decode that hangs, or about to call one. */
  ghost predicate Stuck(c: Z.Codec, s: State) {
    || (s.discord.stage.Decoding? && Z.Hung(c, s.decoder))
    || (s.discord.stage.Reading? && Decodes(Discord, s.discord)
      && !Z.Answerable(c, s.decoder, s.discord.arrived[0].data))
  }

  lemma CallSettles(c: Z.Codec, s: State)
    requires Z.Lawful(c) && Inv(c, s) && Enabled(c, s, Read(Discord)) && Decodes(Discord, s.discord)
    ensures Stuck(c, Apply(c, s, Read(Discord))) <==> Stuck(c, s)
  {
    assert s.decoder.head == [] && Z.LawfulInput(c);
    hide Z.Lawful, Z.LawfulInput, Z.Inv, Z.PlaceOk, Z.Hung, Z.Answerable;
    Z.CalledIsHungIffNotAnswerable(c, s.decoder, s.discord.arrived[0].data);
  }

  lemma SameAnswer(c: Z.Codec, d: Z.State, d': Z.State, data: seq<byte>)
    requires d.reader == d'.reader
    ensures Z.Answerable(c, d, data) <==> Z.Answerable(c, d', data)
  {
    hide Z.Drainable, Z.IsZlibFlush;
  }

  lemma StuckStays(c: Z.Codec, s: State, e: Event)
    requires Z.Lawful(c) && Inv(c, s) && Stuck(c, s) && Enabled(c, s, e)
    ensures Stuck(c, Apply(c, s, e))
  {
    if e.Decoder? {
      DecoderStaysStuck(c, s, e.e);
    } else {
      FreeIsNotHung(c, s.decoder);
      hide Z.Lawful, DecoderOk, Z.Hung, Z.Answerable, Z.Enabled, Z.Apply, Z.Called, Apply;
      if e == Read(Discord) {
        CallSettles(c, s);
      } else {
        OthersLeaveItStuck(c, s, e);
      }
    }
  }

  lemma FreeIsNotHung(c: Z.Codec, d: Z.State)
    ensures d.phase.Free? ==> !Z.Hung(c, d)
  {}

  lemma OthersLeaveItStuck(c: Z.Codec, s: State, e: Event)
    requires Stuck(c, s) && Enabled(c, s, e) && !e.Decoder? && e != Read(Discord)
    requires s.decoder.phase.Free? ==> !Z.Hung(c, s.decoder)
    ensures Stuck(c, Apply(c, s, e))
  {
    hide Z.Hung, Z.Answerable, Z.Enabled, Z.Apply, Z.Called;
  }

  lemma DecoderStaysStuck(c: Z.Codec, s: State, d: Z.Event)
    requires Z.Lawful(c) && Inv(c, s) && Stuck(c, s) && Enabled(c, s, Decoder(d))
    ensures Stuck(c, Apply(c, s, Decoder(d)))
  {
    hide Z.Lawful, Z.Inv, Z.PlaceOk, Z.Hung, Z.Answerable, Z.Enabled, Z.Apply;
    if s.discord.stage.Decoding? {
      Z.HungStays(c, s.decoder, d);
    } else {
      PhaseChanges(c, s.decoder, d);
      SameAnswer(c, s.decoder, Z.Apply(c, s.decoder, d), s.discord.arrived[0].data);
    }
  }

  /** A Decode on a frame that is not answerable is not freed by the shutdown: the bot's connection is
      closed, and the decoder too, only after the hung pump returns. */
  lemma {:induction false} HungDecodeHoldsTheSession(c: Z.Codec, s: State, es: seq<Event>)
    requires Z.Lawful(c) && Inv(c, s) && Stuck(c, s) && Run(c, s, es)
    ensures Stuck(c, End(c, s, es)) && !End(c, s, es).returned && End(c, s, es).clientOpen
    decreases |es|
  {
    hide Z.Lawful, Z.Inv, Z.PlaceOk, Z.Hung, Z.Answerable, Apply, Enabled;
    if es == [] {
    } else {
      InvStep(c, s, es[0]);
      StuckStays(c, s, es[0]);
      HungDecodeHoldsTheSession(c, Apply(c, s, es[0]), es[1..]);
    }
  }

  /** The proxy is at rest: nothing is left to happen but arrivals. */
  ghost predicate AtRest(c: Z.Codec, s: State) { forall e :: Enabled(c, s, e) ==> e.Arrive? }

  /** A Decode that can return has a step to do. */
  lemma NextInDecode(c: Z.Codec, d: Z.State) returns (e: Z.Event)
    requires Z.CanReturn(c, d) && !d.phase.Free?
    ensures Z.Inside(e) && Z.Enabled(c, d, e) && Z.CanReturn(c, Z.Apply(c, d, e))
  {
    var d' :| Z.Leads(c, d, d') && d'.phase.Free?;
    var es :| Z.Exec(c, d, es) == Some(d');
    e := es[0];
    assert Z.Inside(e);
    hide Z.Apply, Z.Enabled;
    assert Z.Exec(c, Z.Apply(c, d, e), es[1..]) == Some(d');
    assert Z.Leads(c, Z.Apply(c, d, e), d');
  }

  lemma RestingDecodeHangs(c: Z.Codec, s: State)
    requires Z.Lawful(c) && Inv(c, s) && s.discord.stage.Decoding? && AtRest(c, s)
    ensures Z.Hung(c, s.decoder)
  {
    RestingDecodeWaits(c, s);
    hide Z.Lawful, Inv, Z.Hung, Z.CanReturn, Enabled;
    Z.CanReturnIffNotHung(c, s.decoder);
    if Z.CanReturn(c, s.decoder) { NotAtRest(c, s); }
  }

  lemma RestingDecodeWaits(c: Z.Codec, s: State)
    requires Inv(c, s) && s.discord.stage.Decoding? && AtRest(c, s)
    ensures !s.decoder.phase.Free? && !s.decoder.phase.Closed? && Z.Inv(c, s.decoder) && Z.PlaceOk(c, s.decoder)
  {
    assert !Enabled(c, s, DecodeReturns);
    hide Z.Inv, Z.PlaceOk, Z.Enabled;
  }

  lemma NotAtRest(c: Z.Codec, s: State)
    requires Z.CanReturn(c, s.decoder) && !s.decoder.phase.Free?
    ensures exists e :: Enabled(c, s, e) && !e.Arrive?
  {
    var d := NextInDecode(c, s.decoder);
    assert Enabled(c, s, Decoder(d));
  }

  /** The continuations that can be extended no further end with InspectWS returned and both
      connections closed, or inside a Decode that hangs: there is no other deadlock. */
  lemma ShutdownFinishesUnlessDecodeHangs(c: Z.Codec, s: State, es: seq<Event>)
    requires Z.Lawful(c) && Inv(c, s) && HalfDone(s) && Run(c, s, es) && AtRest(c, End(c, s, es))
    ensures var t := End(c, s, es);
            if t.discord.stage.Decoding? then Z.Hung(c, t.decoder) && !t.returned && t.clientOpen && !t.serverOpen
            else t.returned && !t.clientOpen && !t.serverOpen
  {
    ShutdownIsBounded(c, s, es);
    var t := End(c, s, es);
    hide Run, End, Z.Lawful, Z.Inv, Z.PlaceOk, Z.Hung;
    if t.discord.stage.Decoding? {
      RestingDecodeHangs(c, t);
    } else {
      RestingPumpsAreDone(c, t);
    }
  }

  lemma RestingPumpsAreDone(c: Z.Codec, s: State)
    requires Inv(c, s) && AtRest(c, s) && !s.discord.stage.Decoding?
    ensures s.bot.stage.Done? && s.discord.stage.Done? && s.returned
  {
    hide Z.Inv, Z.PlaceOk, Z.Enabled;
    forall p: Side ensures Of(s, p).stage.Done? {
      assert !Enabled(c, s, Read(p)) && !Enabled(c, s, SourceClosed(p)) && !Enabled(c, s, PeerFails(p));
      assert !Enabled(c, s, WriteEnds(p, true)) && !Enabled(c, s, Close(p));
    }
    assert Of(s, Bot).stage.Done? && Of(s, Discord).stage.Done?;
    assert !Enabled(c, s, Return);
  }

  ghost predicate CanReturn(c: Z.Codec, s: State) { exists es :: Run(c, s, es) && End(c, s, es).returned }

  /** The way out that every pump has: finish the frame, drain the buffer, close. */
  lemma NextMove(c: Z.Codec, s: State) returns (e: Event)
    requires Z.Lawful(c) && Inv(c, s) && HalfDone(s) && !Stuck(c, s) && !s.returned
    requires s.discord.stage.Decoding? ==> s.decoder.phase.Free?
    ensures Enabled(c, s, e) && IsMove(e) && !Stuck(c, Apply(c, s, e))
  {
    hide Z.Lawful, DecoderOk, Z.Hung, Z.Answerable, Z.Enabled, Z.Apply, Z.Called;
    var p := if s.bot.stage.Done? then Discord else Bot;
    e := match Of(s, p).stage
         case Reading => if Of(s, p).arrived == [] then SourceClosed(p) else Read(p)
         case Decoding => DecodeReturns
         case Writing(_) => WriteEnds(p, false)
         case Closing => Close(p)
         case Done => Return;
    if e == Read(Discord) && Decodes(Discord, s.discord) {
      CallSettles(c, s);
    } else {
      MoveIsUnstuck(c, s, e);
    }
  }

  /** Such a move leads to no Decode. */
  lemma MoveIsUnstuck(c: Z.Codec, s: State, e: Event)
    requires Enabled(c, s, e) && IsMove(e) && !(e == Read(Discord) && Decodes(Discord, s.discord))
    requires !Stuck(c, s) && (e.WriteEnds? ==> !e.ok)
    requires s.discord.stage.Decoding? ==> e.DecodeReturns?
    ensures !Stuck(c, Apply(c, s, e))
  {
    hide Z.Hung, Z.Answerable, Z.Enabled, Z.Apply, Z.Called;
  }

  lemma NextInside(c: Z.Codec, s: State) returns (e: Event)
    requires Z.Lawful(c) && Inv(c, s) && !Stuck(c, s) && s.discord.stage.Decoding? && !s.decoder.phase.Free?
    ensures e.Decoder? && Enabled(c, s, e) && !Stuck(c, Apply(c, s, e)) && Apply(c, s, e).discord.stage.Decoding?
    ensures Measure(Apply(c, s, e)) == Measure(s)
  {
    hide Z.Lawful, Z.Inv, Z.PlaceOk, Z.Hung, Z.CanReturn, Z.Enabled, Z.Apply;
    Z.CanReturnIffNotHung(c, s.decoder);
    var d := NextInDecode(c, s.decoder);
    e := Decoder(d);
    Z.InvStep(c, s.decoder, d);
    Z.PlaceStep(c, s.decoder, d);
    PhaseChanges(c, s.decoder, d);
    Z.CanReturnIffNotHung(c, Z.Apply(c, s.decoder, d));
  }

  lemma {:induction false} ReturnIsReachable(c: Z.Codec, s: State) returns (es: seq<Event>)
    requires Z.Lawful(c) && Inv(c, s) && HalfDone(s) && !Stuck(c, s)
    ensures Run(c, s, es) && End(c, s, es).returned
    decreases Measure(s), Z.Work(c, s.decoder)
  {
    es := [];
    if !s.returned {
      var e;
      hide Z.Lawful, Z.Inv, Z.PlaceOk, Z.Work, Stuck, Apply, Enabled, Measure;
      if s.discord.stage.Decoding? && !s.decoder.phase.Free? {
        e := NextInside(c, s);
        DecoderGoesDown(c, s, e);
      } else {
        e := NextMove(c, s);
      }
      StepGoesDown(c, s, e);
      InvStep(c, s, e);
      var rest := ReturnIsReachable(c, Apply(c, s, e));
      es := [e] + rest;
      assert es[1..] == rest;
    }
  }

  /** With one pump gone, some continuation ends the session exactly when neither the Decode that is
      running hangs, nor is the next frame one on which it would.  But the peers may have to fail. */
  lemma PeerFailureCanEndItIff(c: Z.Codec, s: State)
    requires Z.Lawful(c) && Inv(c, s) && HalfDone(s)
    ensures CanReturn(c, s) <==> !Stuck(c, s)
  {
    hide Z.Lawful, Inv, Stuck, HalfDone;
    if !Stuck(c, s) {
      var es := ReturnIsReachable(c, s);
    } else if CanReturn(c, s) {
      var es :| Run(c, s, es) && End(c, s, es).returned;
      HungDecodeHoldsTheSession(c, s, es);
    }
  }

  // ------------------------------------------------------------------------- peers in good health

  /** No peer fails: what is read comes to an end by the proxy's own closing, and writes succeed. */
  predicate IsHealthy(e: Event) { !e.PeerFails? && (e.WriteEnds? ==> e.ok) }

  predicate AreHealthy(es: seq<Event>) { forall i :: 0 <= i < |es| ==> IsHealthy(es[i]) }

  /** Every compressed frame up to the first Close is answerable in its turn. */
  predicate Clear(c: Z.Codec, st: Z.Stream, frames: seq<Kind>)
    decreases |frames|
  {
    if frames == [] || frames[0].CloseFrame? then true
    else if frames[0].Compressed? then
      Z.StreamAnswerable(c, st, frames[0].data) && Clear(c, Z.After(c, st, frames[0].data), frames[1..])
    else Clear(c, st, frames[1..])
  }

  /** The Discord pump can work off what has arrived for it. */
  ghost predicate WayIsClear(c: Z.Codec, s: State) {
    var st := Z.StreamOf(c, s.decoder.writers);
    match s.discord.stage
    case Done => true
    case Closing => true
    case Reading => Clear(c, st, s.discord.arrived)
    case Writing(kind) => kind.CloseFrame? || Clear(c, st, s.discord.arrived)
    case Decoding => !Z.Hung(c, s.decoder) && Clear(c, st, s.discord.arrived)
  }

  lemma CallInItsTurn(c: Z.Codec, s: State)
    requires Z.Lawful(c) && Inv(c, s) && Enabled(c, s, Read(Discord)) && Decodes(Discord, s.discord)
    ensures WayIsClear(c, Apply(c, s, Read(Discord))) <==> WayIsClear(c, s)
  {
    var data := s.discord.arrived[0].data;
    var st := Z.StreamOf(c, s.decoder.writers);
    FreeDecoder(c, s);
    CalledStream(c, s.decoder, data);
    assert Z.LawfulInput(c);
    hide Z.Lawful, Z.LawfulInput, Inv, Z.Hung, Z.Answerable, Z.StreamAnswerable, Z.Tracks, Z.StreamOf, Z.After,
      Z.Called;
    Z.CalledIsHungIffNotAnswerable(c, s.decoder, data);
    Z.AnswerableInTurn(c, s.decoder, st, data);
  }

  lemma FreeDecoder(c: Z.Codec, s: State)
    requires Inv(c, s) && s.decoder.phase.Free?
    ensures s.decoder.head == [] && Z.Tracks(c, s.decoder, Z.StreamOf(c, s.decoder.writers))
  {
    hide Z.StreamOf, Z.Tracks;
  }

  lemma CalledStream(c: Z.Codec, d: Z.State, data: seq<byte>)
    requires d.phase.Free?
    ensures Z.StreamOf(c, Z.Called(c, d, data).writers) == Z.After(c, Z.StreamOf(c, d.writers), data)
  {
    var ws := Z.Called(c, d, data).writers;
    assert ws[..|ws| - 1] == d.writers && ws[|ws| - 1].frame == data;
  }

  /** A way that is not clear stays so, as long as the peers do not fail. */
  lemma BlockedStays(c: Z.Codec, s: State, e: Event)
    requires Z.Lawful(c) && Inv(c, s) && HalfDone(s) && !WayIsClear(c, s) && Enabled(c, s, e) && IsHealthy(e)
    ensures !WayIsClear(c, Apply(c, s, e))
  {
    if e.Decoder? {
      DecoderStaysBlocked(c, s, e.e);
    } else {
      FreeIsNotHung(c, s.decoder);
      hide Z.Lawful, DecoderOk, WayIsClear, Z.Enabled, Z.Apply, Z.Called, Apply;
      if e == Read(Discord) && Decodes(Discord, s.discord) {
        CallInItsTurn(c, s);
      } else {
        OthersLeaveItBlocked(c, s, e);
      }
    }
  }

  lemma OthersLeaveItBlocked(c: Z.Codec, s: State, e: Event)
    requires PumpsOk(s) && HalfDone(s) && !WayIsClear(c, s) && Enabled(c, s, e) && IsHealthy(e) && !e.Decoder?
    requires !(e == Read(Discord) && Decodes(Discord, s.discord))
    requires s.decoder.phase.Free? ==> !Z.Hung(c, s.decoder)
    ensures !WayIsClear(c, Apply(c, s, e))
  {
    hide Z.Hung, Z.StreamAnswerable, Z.Enabled, Z.Apply, Z.Called, Z.StreamOf, Z.After;
  }

  lemma DecoderStaysBlocked(c: Z.Codec, s: State, d: Z.Event)
    requires Z.Lawful(c) && Inv(c, s) && !WayIsClear(c, s) && Enabled(c, s, Decoder(d))
    ensures !WayIsClear(c, Apply(c, s, Decoder(d)))
  {
    hide Z.Lawful, Z.Inv, Z.PlaceOk, Z.InTurn, Z.Hung, Z.Enabled, Z.Apply, Z.StreamOf, Clear;
    Z.StreamsStay(c, s.decoder, d);
    if s.discord.stage.Decoding? && Z.Hung(c, s.decoder) { Z.HungStays(c, s.decoder, d); }
  }

  lemma {:induction false} BlockedNeverReturns(c: Z.Codec, s: State, es: seq<Event>)
    requires Z.Lawful(c) && Inv(c, s) && HalfDone(s) && !WayIsClear(c, s) && Run(c, s, es) && AreHealthy(es)
    ensures !End(c, s, es).returned
    decreases |es|
  {
    if es == [] {
      hide Z.Lawful, DecoderOk, Z.Hung, Clear;
    } else {
      assert IsHealthy(es[0]) && AreHealthy(es[1..]);
      hide Z.Lawful, Inv, WayIsClear, Apply, Enabled, AreHealthy;
      StillHalfDone(c, s, es[0]);
      InvStep(c, s, es[0]);
      BlockedStays(c, s, es[0]);
      BlockedNeverReturns(c, Apply(c, s, es[0]), es[1..]);
    }
  }

  lemma StillHalfDone(c: Z.Codec, s: State, e: Event)
    requires Inv(c, s) && HalfDone(s) && Enabled(c, s, e)
    ensures HalfDone(Apply(c, s, e))
  {
    hide DecoderOk;
    StepGoesDown(c, s, e);
  }

  /** The way out when nobody fails: work the buffer off, then close. */
  lemma NextHealthyMove(c: Z.Codec, s: State) returns (e: Event)
    requires Z.Lawful(c) && Inv(c, s) && HalfDone(s) && WayIsClear(c, s) && !s.returned
    requires s.discord.stage.Decoding? ==> s.decoder.phase.Free?
    ensures Enabled(c, s, e) && IsMove(e) && IsHealthy(e) && WayIsClear(c, Apply(c, s, e))
  {
    var p := if s.bot.stage.Done? then Discord else Bot;
    e := match Of(s, p).stage
         case Reading => if Of(s, p).arrived == [] then SourceClosed(p) else Read(p)
         case Decoding => DecodeReturns
         case Writing(_) => WriteEnds(p, true)
         case Closing => Close(p)
         case Done => Return;
    hide DecoderOk, Z.Lawful, Z.Hung, Z.StreamAnswerable, Z.Enabled, Z.Apply, Z.Called, Z.StreamOf, Z.After;
    if e == Read(Discord) && Decodes(Discord, s.discord) {
      CallInItsTurn(c, s);
    } else if e.Return? {
      hide Clear;
    } else {
      SameDecoder(c, s, e);
    }
  }

  lemma SameDecoder(c: Z.Codec, s: State, e: Event)
    requires Enabled(c, s, e) && IsMove(e) && !e.Return? && !(e == Read(Discord) && Decodes(Discord, s.discord))
    ensures Apply(c, s, e).decoder == s.decoder
  {
    hide Z.Enabled, Z.Apply, Z.Called;
  }

  lemma NextInsideClear(c: Z.Codec, s: State) returns (e: Event)
    requires Z.Lawful(c) && Inv(c, s) && WayIsClear(c, s) && s.discord.stage.Decoding? && !s.decoder.phase.Free?
    ensures e.Decoder? && Enabled(c, s, e) && WayIsClear(c, Apply(c, s, e))
    ensures Measure(Apply(c, s, e)) == Measure(s)
  {
    hide Z.Lawful, Inv, Z.Hung, Z.StreamOf, Clear, Z.Enabled, Z.Apply, Measure;
    assert !Stuck(c, s);
    e := NextInside(c, s);
    InsideStaysClear(c, s, e.e);
  }

  lemma InsideStaysClear(c: Z.Codec, s: State, d: Z.Event)
    requires Enabled(c, s, Decoder(d)) && s.discord.stage.Decoding? && WayIsClear(c, s)
    requires !Stuck(c, Apply(c, s, Decoder(d)))
    ensures WayIsClear(c, Apply(c, s, Decoder(d)))
  {
    hide Z.Hung, Z.StreamOf, Clear, Z.Enabled, Z.Apply;
    Z.StreamsStay(c, s.decoder, d);
  }

  lemma {:induction false} HealthyReturn(c: Z.Codec, s: State) returns (es: seq<Event>)
    requires Z.Lawful(c) && Inv(c, s) && HalfDone(s) && WayIsClear(c, s)
    ensures Run(c, s, es) && AreHealthy(es) && End(c, s, es).returned
    decreases Measure(s), Z.Work(c, s.decoder)
  {
    es := [];
    if s.returned {
    } else {
      var e;
      hide Z.Lawful, DecoderOk, Z.Work, WayIsClear, Apply, Enabled, Measure;
      if s.discord.stage.Decoding? && !s.decoder.phase.Free? {
        e := NextInsideClear(c, s);
        DecoderGoesDown(c, s, e);
      } else {
        e := NextHealthyMove(c, s);
      }
      StepGoesDown(c, s, e);
      InvStep(c, s, e);
      var rest := HealthyReturn(c, Apply(c, s, e));
      es := [e] + rest;
      assert es[1..] == rest;
    }
  }

  ghost predicate CanReturnInHealth(c: Z.Codec, s: State) {
    exists es :: Run(c, s, es) && AreHealthy(es) && End(c, s, es).returned
  }

  /** With one pump gone and no peer failing, the session can still end exactly when the Decode that is
      running does not hang and every frame that is buffered, up to the first Close, is answerable in
      its turn.  The frames alone decide that. */
  lemma SessionCanEndIff(c: Z.Codec, s: State)
    requires Z.Lawful(c) && Inv(c, s) && HalfDone(s)
    ensures CanReturnInHealth(c, s) <==> WayIsClear(c, s)
  {
    hide Z.Lawful, Inv, WayIsClear, HalfDone;
    if WayIsClear(c, s) {
      var es := HealthyReturn(c, s);
    } else if CanReturnInHealth(c, s) {
      var es :| Run(c, s, es) && AreHealthy(es) && End(c, s, es).returned;
      BlockedNeverReturns(c, s, es);
    }
  }
}
