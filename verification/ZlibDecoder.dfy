/** The zlib-stream decoder of proxy/internals/discord/wscompress.go.

    `Decode` starts a goroutine that writes the frame into an io.Pipe and lets an inflater read
    from the other end.  A pipe write is a rendezvous: it ends when readers have taken every byte,
    and the goroutine reports on `writeDone` some time after that.  Every atomic action is one
    event here, so a run is any scheduling of the goroutines, and nothing else is left open: how
    much a read takes from the pipe and how much it returns are settled by the bytes read so far.
    The inflater is any function of these bytes that only ever extends its output. */
module ZlibDecoder {
  import opened Common

  datatype Header = NeedMore | Good | Bad

  datatype Verdict = Running | EndOfStream | Corrupt

  /** What inflating does: the fate of the stream header, all output that a given input makes
      available, and whether the stream has ended or broken once that output is out.  One Read with
      `drain`'s buffer returns chunk(a, e) bytes where e bytes of output(a) are out; the last tail(a)
      come together with the error.  A read that blocks asks the pipe for ask(a) bytes. */
  datatype Codec = Codec(
    header: seq<byte> -> Header,
    output: seq<byte> -> seq<byte>,
    verdict: seq<byte> -> Verdict,
    tail: seq<byte> -> nat,
    chunk: (seq<byte>, nat) -> nat,
    ask: seq<byte> -> nat)

  /** How much of output(a) comes from reads without an error. */
  function Limit(c: Codec, a: seq<byte>): nat {
    if c.tail(a) <= |c.output(a)| then |c.output(a)| - c.tail(a) else 0
  }

  ghost predicate LawfulInput(c: Codec) {
    && c.header([]) == NeedMore
    && (forall a :: |a| >= HEADER ==> c.header(a) != NeedMore)
    && (forall a, b :: a <= b && c.header(a) != NeedMore ==> c.header(b) == c.header(a))
    && (forall a, b :: a <= b ==> c.output(a) <= c.output(b))
    && (forall a, b :: a <= b && c.verdict(a) != Running ==> c.verdict(b) == c.verdict(a) && c.output(b) == c.output(a))
    && (forall a :: c.ask(a) >= PIPE_BUFFER)
  }

  ghost predicate LawfulReads(c: Codec) {
    && (forall a :: c.tail(a) <= |c.output(a)| && c.tail(a) <= BUFFER && (c.verdict(a) == Running ==> c.tail(a) == 0))
    && (forall a, b :: a <= b && c.verdict(a) == Running ==> |c.output(a)| <= Limit(c, b))
    && (forall a, b :: a <= b && c.verdict(a) != Running ==> c.tail(b) == c.tail(a))
    && (forall a, e: nat :: e < Limit(c, a) ==> 1 <= c.chunk(a, e) <= BUFFER && e + c.chunk(a, e) <= Limit(c, a))
  }

  ghost predicate Lawful(c: Codec) { LawfulInput(c) && LawfulReads(c) }

  function Minus(a: nat, b: nat): nat { if b <= a then a - b else 0 }

  /** A codec that holds all output back until it has a block of `block` bytes behind the header. */
  function BlockCodec(block: nat): Codec {
    Codec((a: seq<byte>) => if |a| < 2 then NeedMore else Good,
          (a: seq<byte>) => if |a| < 2 + block then [] else a[2..2 + block],
          (a: seq<byte>) => Running,
          (a: seq<byte>) => 0,
          (a: seq<byte>, e: nat) => Min(BUFFER, Minus(block, e)),
          (a: seq<byte>) => PIPE_BUFFER)
  }

  lemma BlockCodecLimit(block: nat, a: seq<byte>)
    ensures Limit(BlockCodec(block), a) == |BlockCodec(block).output(a)| == if |a| < 2 + block then 0 else block
  {}

  lemma BlockCodecOutput(block: nat, a: seq<byte>, b: seq<byte>)
    requires a <= b
    ensures BlockCodec(block).output(a) <= BlockCodec(block).output(b)
  {
    if |a| >= 2 + block { assert a[2..2 + block] == b[2..2 + block]; }
  }

  lemma BlockCodecInput(block: nat)
    ensures LawfulInput(BlockCodec(block))
  {
    var c := BlockCodec(block);
    forall a, b | a <= b ensures c.output(a) <= c.output(b) { BlockCodecOutput(block, a, b); }
    assert forall a :: c.verdict(a) == Running && c.ask(a) >= PIPE_BUFFER;
    assert forall a :: c.header(a) == if |a| < 2 then NeedMore else Good;
    hide BlockCodec;
  }

  lemma BlockCodecReads(block: nat)
    ensures LawfulReads(BlockCodec(block))
  {
    var c := BlockCodec(block);
    forall a ensures c.tail(a) == 0 && Limit(c, a) == |c.output(a)| == if |a| < 2 + block then 0 else block {
      BlockCodecLimit(block, a);
    }
    assert forall a, e: nat :: c.chunk(a, e) == Min(BUFFER, Minus(block, e));
    assert forall a :: c.verdict(a) == Running;
    hide BlockCodec, Limit;
  }

  /** The laws can be met. */
  lemma SomeCodecIsLawful(block: nat)
    ensures Lawful(BlockCodec(block))
  {
    BlockCodecInput(block);
    BlockCodecReads(block);
  }

  const FLUSH: seq<byte> := [0x00, 0x00, 0xff, 0xff]

  /** The buffer of `drain`, the one that zlib.NewReader puts around the pipe, and the longest header. */
  const BUFFER: nat := 8192
  const PIPE_BUFFER: nat := 4096
  const HEADER: nat := 6

  predicate IsZlibFlush(data: seq<byte>) {
    |data| >= |FLUSH| && data[|data| - |FLUSH|..] == FLUSH
  }

  lemma FlushMarkIff(data: seq<byte>)
    ensures IsZlibFlush(data) <==> exists body :: data == body + [0x00, 0x00, 0xff, 0xff]
  {
    if IsZlibFlush(data) { assert data == data[..|data| - 4] + [0x00, 0x00, 0xff, 0xff]; }
  }

  /** The goroutine of one Decode call. `met` says that a reader has met its write at least once:
      an empty write too waits for one reader. */
  datatype Status = Gate | Offering | Finished | Signalled

  datatype Writer = Writer(frame: seq<byte>, left: seq<byte>, met: bool, status: Status)

  datatype Inflater = Inflater(recv: seq<byte>, emitted: nat, broken: bool)

  /** Where the call that holds the mutex stands; Free when none does. */
  datatype Phase =
    | Free
    | Heading                          // zlib.NewReader is reading the header
    | AwaitNil                         // a non-terminal frame: <-writeDone
    | AwaitErr                         // the header was bad: <-writeDone
    | Reading(result: seq<byte>)       // in drain, before or inside Read
    | Polling(result: seq<byte>)       // in drain, after a short read
    | Closed

  /** `head` holds the bytes of a header read in progress and `dropped` those of header reads that
      failed.  Three fields are history: all frames in call order, all bytes that readers have taken
      from the pipe, and the concatenation of everything that Decode calls have returned. */
  datatype State = State(
    writers: seq<Writer>,
    holder: Option<nat>,
    dropped: seq<byte>,
    head: seq<byte>,
    reader: Option<Inflater>,
    phase: Phase,
    sent: seq<byte>,
    taken: seq<byte>,
    outs: seq<byte>)

  const START := State([], None, [], [], None, Free, [], [], [])

  datatype Event =
    | Call(data: seq<byte>)
    | Acquire(i: nat)          // writer i enters the pipe's write gate
    | Transfer(k: nat)         // a read takes k bytes of the offered frame, as many as it asked for
    | HeaderDone
    | Deliver(n: nat)          // Read returns n > 0 bytes
    | Fail(n: nat)             // Read returns n bytes and an error, end of stream included
    | Poll                     // the non-blocking select on writeDone
    | Finish(i: nat)           // Write returns in goroutine i
    | Signal(i: nat)           // goroutine i sends on writeDone
    | Return                   // <-writeDone succeeds
    | Close

  function Last(s: State): Writer
    requires |s.writers| > 0
  {
    s.writers[|s.writers| - 1]
  }

  predicate Broken(s: State) { s.reader.Some? && s.reader.value.broken }

  /** All output available from the bytes received has been read. */
  predicate Exhausted(c: Codec, r: Inflater) { r.emitted == |c.output(r.recv)| }

  /** The inflater is blocked in a read from the pipe. */
  predicate WantsInput(c: Codec, s: State) {
    || (s.phase.Heading? && c.header(s.head) == NeedMore)
    || (s.phase.Reading? && s.reader.Some? && !Broken(s) && Exhausted(c, s.reader.value)
        && c.verdict(s.reader.value.recv) == Running)
  }

  /** A read takes what it asked for, or all there is. */
  predicate IsAsked(c: Codec, s: State, left: seq<byte>, k: nat) {
    k == Min(if s.phase.Reading? && s.reader.Some? then c.ask(s.reader.value.recv) else PIPE_BUFFER, |left|)
  }

  predicate IsChunk(c: Codec, r: Inflater, n: nat) { r.emitted < Limit(c, r.recv) && n == c.chunk(r.recv, r.emitted) }

  predicate IsTail(c: Codec, r: Inflater, n: nat) { n == c.tail(r.recv) }

  predicate Enabled(c: Codec, s: State, e: Event) {
    match e
    case Call(_) => s.phase.Free?
    case Acquire(i) => i < |s.writers| && s.holder.None? && s.writers[i].status.Gate?
    case Transfer(k) =>
      && WantsInput(c, s) && s.holder.Some? && s.holder.value < |s.writers|
      && var w := s.writers[s.holder.value];
         w.status.Offering? && k <= |w.left| && (w.left != [] || !w.met) && IsAsked(c, s, w.left, k)
    case HeaderDone => s.phase.Heading? && c.header(s.head) != NeedMore && |s.writers| > 0
    case Deliver(n) =>
      && s.phase.Reading? && s.reader.Some? && !Broken(s)
      && s.reader.value.emitted + n <= |c.output(s.reader.value.recv)| && IsChunk(c, s.reader.value, n)
    case Fail(n) =>
      && s.phase.Reading? && s.reader.Some?
      && var r := s.reader.value;
         if r.broken then n == 0
         else r.emitted + n == |c.output(r.recv)| && IsTail(c, r, n) && c.verdict(r.recv) != Running
    case Poll => s.phase.Polling? && |s.writers| > 0
    case Finish(i) =>
      i < |s.writers| && s.writers[i].status.Offering? && s.writers[i].met && s.writers[i].left == []
    case Signal(i) => i < |s.writers| && s.writers[i].status.Finished?
    case Return => (s.phase.AwaitNil? || s.phase.AwaitErr?) && |s.writers| > 0 && Last(s).status.Signalled?
    case Close => s.phase.Free?
  }

  function SetWriter(s: State, i: nat, w: Writer): State
    requires i < |s.writers|
  {
    s.(writers := s.writers[i := w])
  }

  /** What Decode does once a reader exists. */
  function AfterHeader(data: seq<byte>): Phase {
    if IsZlibFlush(data) then Reading([]) else AwaitNil
  }

  function Apply(c: Codec, s: State, e: Event): State
    requires Enabled(c, s, e)
  {
    match e
    case Call(data) =>
      s.(writers := s.writers + [Writer(data, data, false, Gate)], sent := s.sent + data,
         phase := if s.reader.None? then Heading else AfterHeader(data))
    case Acquire(i) => SetWriter(s, i, s.writers[i].(status := Offering)).(holder := Some(i))
    case Transfer(k) =>
      var w := s.writers[s.holder.value];
      var s1 := SetWriter(s, s.holder.value, w.(left := w.left[k..], met := true)).(taken := s.taken + w.left[..k]);
      if s.phase.Heading? then s1.(head := s.head + w.left[..k])
      else s1.(reader := Some(s.reader.value.(recv := s.reader.value.recv + w.left[..k])))
    case HeaderDone =>
      if c.header(s.head) == Good then
        s.(reader := Some(Inflater(s.head, 0, false)), head := [], phase := AfterHeader(Last(s).frame))
      else s.(dropped := s.dropped + s.head, head := [], phase := AwaitErr)
    case Deliver(n) =>
      var r := s.reader.value;
      var result := s.phase.result + c.output(r.recv)[r.emitted..r.emitted + n];
      s.(reader := Some(r.(emitted := r.emitted + n)), phase := if n < BUFFER then Polling(result) else Reading(result))
    case Fail(n) =>
      var r := s.reader.value;
      var result := s.phase.result + (if r.broken then [] else c.output(r.recv)[r.emitted..r.emitted + n]);
      s.(reader := Some(r.(emitted := r.emitted + n, broken := true)), phase := Free, outs := s.outs + result)
    case Poll =>
      if Last(s).status.Signalled? then s.(phase := Free, outs := s.outs + s.phase.result)
      else s.(phase := Reading(s.phase.result))
    case Finish(i) => SetWriter(s, i, s.writers[i].(status := Finished)).(holder := None)
    case Signal(i) => SetWriter(s, i, s.writers[i].(status := Signalled))
    case Return => s.(phase := Free)
    case Close => s.(phase := Closed)
  }

  // ------------------------------------------------------------------------------------ streams

  /** The bytes that the readers so far have been given. */
  function Received(s: State): seq<byte> {
    s.dropped + s.head + (if s.reader.Some? then s.reader.value.recv else [])
  }

  /** Everything inflated so far, returned or about to be. */
  function Outputs(s: State): seq<byte> {
    s.outs + (if s.phase.Reading? || s.phase.Polling? then s.phase.result else [])
  }

  // ---------------------------------------------------------------------------------- invariant

  predicate WriterOk(w: Writer) {
    && (!w.met ==> w.left == w.frame)
    && (w.status.Gate? ==> !w.met)
    && (w.status.Finished? || w.status.Signalled? ==> w.met && w.left == [])
  }

  predicate GateOk(s: State) {
    && (s.holder.Some? ==> s.holder.value < |s.writers| && s.writers[s.holder.value].status.Offering?)
    && (forall i :: 0 <= i < |s.writers| && s.writers[i].status.Offering? ==> s.holder == Some(i))
  }

  predicate PhaseOk(s: State) {
    && (!s.phase.Free? && !s.phase.Closed? ==> |s.writers| > 0)
    && (s.phase.Heading? || s.phase.AwaitErr? ==> s.reader.None?)
    && (s.phase.AwaitNil? || s.phase.Reading? || s.phase.Polling? ==> s.reader.Some?)
    && (s.phase.Reading? || s.phase.Polling? ==> IsZlibFlush(Last(s).frame))
    && (!s.phase.Heading? ==> s.head == [])
  }

  /** Until the inflater's first error only the newest writer can be busy, and none is between calls. */
  predicate Orderly(s: State) {
    && (forall i :: 0 <= i < |s.writers| - 1 ==> s.writers[i].status.Signalled?)
    && (s.phase.Free? || s.phase.Closed? ==> |s.writers| > 0 ==> Last(s).status.Signalled?)
    && s.taken + (if s.writers == [] then [] else Last(s).left) == s.sent
  }

  /** After it nothing more is ever taken from the pipe. */
  predicate Disorderly(s: State) {
    && s.taken <= s.sent
    && !s.phase.Polling?
    && (s.phase.AwaitNil? || s.phase.Reading? ==> |s.writers| > 0 && !Last(s).met)
  }

  predicate OutputOk(c: Codec, s: State) {
    if s.reader.None? then Outputs(s) == [] else
      && s.reader.value.emitted <= |c.output(s.reader.value.recv)|
      && Outputs(s) == c.output(s.reader.value.recv)[..s.reader.value.emitted]
  }

  ghost predicate Inv(c: Codec, s: State) {
    && (forall i :: 0 <= i < |s.writers| ==> WriterOk(s.writers[i]))
    && GateOk(s) && PhaseOk(s) && OutputOk(c, s) && s.taken == Received(s)
    && (if Broken(s) then Disorderly(s) else Orderly(s))
  }

  lemma InvAtStart(c: Codec)
    ensures Inv(c, START)
  {}

  /** The events in which a writer goroutine acts by itself. */
  predicate WriterStep(e: Event) { e.Acquire? || e.Finish? || e.Signal? }

  lemma WriterStepKeepsStreams(c: Codec, s: State, e: Event)
    requires OutputOk(c, s) && Enabled(c, s, e) && WriterStep(e)
    ensures OutputOk(c, Apply(c, s, e)) && Received(Apply(c, s, e)) == Received(s)
  {
    assert Outputs(Apply(c, s, e)) == Outputs(s);
  }

  lemma WriterStepKeepsInv(c: Codec, s: State, e: Event)
    requires Inv(c, s) && Enabled(c, s, e) && WriterStep(e)
    ensures Inv(c, Apply(c, s, e))
  {
    WriterStepKeepsStreams(c, s, e);
    hide Outputs, Received, OutputOk, IsZlibFlush;
    assert WriterOk(s.writers[e.i]);
  }

  lemma MoreInput(c: Codec, a: seq<byte>, b: seq<byte>)
    requires Lawful(c) && a <= b
    ensures c.output(a) <= c.output(b)
    ensures c.verdict(a) != Running ==> c.verdict(b) == c.verdict(a) && c.output(b) == c.output(a)
    ensures c.verdict(a) == Running ==> |c.output(a)| <= Limit(c, b)
  {}

  /** Before the first error, the frame being read from is the newest one. */
  lemma ReadsNewest(c: Codec, s: State, k: nat)
    requires Inv(c, s) && Enabled(c, s, Transfer(k))
    ensures !Broken(s) && |s.writers| > 0 && s.holder == Some(|s.writers| - 1) && Last(s).status.Offering?
    ensures k <= |Last(s).left| && s.taken + Last(s).left == s.sent
  {
    hide Outputs, Received, IsZlibFlush;
  }

  lemma TransferKeepsOutput(c: Codec, s: State, k: nat)
    requires Lawful(c) && OutputOk(c, s) && Enabled(c, s, Transfer(k)) && (s.phase.Heading? ==> s.reader.None?)
    ensures OutputOk(c, Apply(c, s, Transfer(k)))
  {
    var s' := Apply(c, s, Transfer(k));
    assert Outputs(s') == Outputs(s);
    if s.reader.Some? { MoreInput(c, s.reader.value.recv, s'.reader.value.recv); }
    hide IsAsked, Lawful, SetWriter;
  }

  lemma TransferKeepsTaken(c: Codec, s: State, k: nat)
    requires s.taken == Received(s) && Enabled(c, s, Transfer(k)) && (s.phase.Heading? ==> s.reader.None?)
    requires |s.writers| > 0 && s.holder == Some(|s.writers| - 1) && s.taken + Last(s).left == s.sent
    ensures var s' := Apply(c, s, Transfer(k));
            s'.taken == Received(s') && s'.taken + Last(s').left == s'.sent
  {
    var s' := Apply(c, s, Transfer(k));
    var left := Last(s).left;
    hide IsAsked;
    assert s.taken + left[..k] + left[k..] == s.taken + left;
    if s.phase.Heading? {
      assert s.dropped + (s.head + left[..k]) + [] == s.dropped + s.head + [] + left[..k];
    } else {
      assert s.dropped + s.head + (s.reader.value.recv + left[..k])
             == s.dropped + s.head + s.reader.value.recv + left[..k];
    }
  }

  lemma TransferKeepsInv(c: Codec, s: State, k: nat)
    requires Lawful(c) && Inv(c, s) && Enabled(c, s, Transfer(k))
    ensures Inv(c, Apply(c, s, Transfer(k)))
  {
    hide Lawful, OutputOk, Received, Outputs, IsZlibFlush, IsAsked;
    ReadsNewest(c, s, k);
    TransferKeepsOutput(c, s, k);
    TransferKeepsTaken(c, s, k);
  }

  lemma CallKeepsInv(c: Codec, s: State, data: seq<byte>)
    requires Inv(c, s) && Enabled(c, s, Call(data))
    ensures Inv(c, Apply(c, s, Call(data)))
  {
    var s' := Apply(c, s, Call(data));
    assert Outputs(s') == Outputs(s) && Received(s') == Received(s);
    hide Outputs, Received, IsZlibFlush;
    if |s.writers| > 0 { assert WriterOk(Last(s)); }
    if Broken(s) {
      assert s.taken <= s.sent + data;
    } else {
      assert s.taken == s.sent;
    }
  }

  lemma HeaderKeepsStreams(c: Codec, s: State)
    requires OutputOk(c, s) && s.reader.None? && Enabled(c, s, HeaderDone)
    ensures OutputOk(c, Apply(c, s, HeaderDone)) && Received(Apply(c, s, HeaderDone)) == Received(s)
  {
    var s' := Apply(c, s, HeaderDone);
    assert Outputs(s') == s.outs == [];
    if c.header(s.head) == Good {
      assert Received(s') == s.dropped + s.head;
    } else {
      assert Received(s') == s.dropped + s.head;
    }
  }

  lemma HeaderKeepsInv(c: Codec, s: State)
    requires Inv(c, s) && Enabled(c, s, HeaderDone)
    ensures Inv(c, Apply(c, s, HeaderDone))
  {
    HeaderKeepsStreams(c, s);
    hide Received, Outputs, OutputOk, IsZlibFlush;
  }

  /** Reading moves output from the inflater to the result, in order. */
  lemma ReadKeepsOutput(c: Codec, s: State, e: Event)
    requires OutputOk(c, s) && Enabled(c, s, e) && (e.Deliver? || e.Fail?)
    ensures OutputOk(c, Apply(c, s, e)) && Received(Apply(c, s, e)) == Received(s)
  {
    var s' := Apply(c, s, e);
    var r := s.reader.value;
    var out := c.output(r.recv);
    if r.broken {
      assert Outputs(s') == Outputs(s);
    } else {
      assert out[..r.emitted + e.n] == out[..r.emitted] + out[r.emitted..r.emitted + e.n];
      assert Outputs(s') == Outputs(s) + out[r.emitted..r.emitted + e.n];
    }
  }

  lemma DeliverKeepsInv(c: Codec, s: State, n: nat)
    requires Inv(c, s) && Enabled(c, s, Deliver(n))
    ensures Inv(c, Apply(c, s, Deliver(n)))
  {
    hide OutputOk, Received, Outputs, IsZlibFlush, Disorderly, WriterOk;
    ReadKeepsOutput(c, s, Deliver(n));
  }

  lemma FailKeepsInv(c: Codec, s: State, n: nat)
    requires Inv(c, s) && Enabled(c, s, Fail(n))
    ensures Inv(c, Apply(c, s, Fail(n)))
  {
    ReadKeepsOutput(c, s, Fail(n));
    assert s.taken <= s.sent;
    hide OutputOk, Received, Outputs, IsZlibFlush;
  }

  lemma QuietKeepsStreams(c: Codec, s: State, e: Event)
    requires OutputOk(c, s) && Enabled(c, s, e) && (e.Poll? || e.Return? || e.Close?)
    ensures OutputOk(c, Apply(c, s, e)) && Received(Apply(c, s, e)) == Received(s)
  {
    assert Outputs(Apply(c, s, e)) == Outputs(s);
  }

  lemma QuietKeepsInv(c: Codec, s: State, e: Event)
    requires Inv(c, s) && Enabled(c, s, e) && (e.Poll? || e.Return? || e.Close?)
    ensures Inv(c, Apply(c, s, e))
  {
    QuietKeepsStreams(c, s, e);
    hide Received, Outputs, OutputOk, IsZlibFlush;
  }

  lemma InvStep(c: Codec, s: State, e: Event)
    requires Lawful(c) && Inv(c, s) && Enabled(c, s, e)
    ensures Inv(c, Apply(c, s, e))
  {
    hide Inv, Apply, Lawful;
    match e
    case Call(data) => CallKeepsInv(c, s, data);
    case Acquire(i) => WriterStepKeepsInv(c, s, e);
    case Transfer(k) => TransferKeepsInv(c, s, k);
    case HeaderDone => HeaderKeepsInv(c, s);
    case Finish(i) => WriterStepKeepsInv(c, s, e);
    case Signal(i) => WriterStepKeepsInv(c, s, e);
    case Deliver(n) => DeliverKeepsInv(c, s, n);
    case Fail(n) => FailKeepsInv(c, s, n);
    case _ => QuietKeepsInv(c, s, e);
  }

  // ------------------------------------------------------------------------ what every run keeps

  /** Some scheduling leads from s to s'. */
  function Exec(c: Codec, s: State, es: seq<Event>): Option<State>
    decreases |es|
  {
    if es == [] then Some(s)
    else if !Enabled(c, s, es[0]) then None
    else Exec(c, Apply(c, s, es[0]), es[1..])
  }

  ghost predicate Leads(c: Codec, s: State, s': State) { exists es :: Exec(c, s, es) == Some(s') }

  lemma {:induction false} ExecKeepsInv(c: Codec, s: State, es: seq<Event>)
    requires Lawful(c) && Inv(c, s) && Exec(c, s, es).Some?
    ensures Inv(c, Exec(c, s, es).value)
    decreases |es|
  {
    hide Inv, Lawful, Apply, Enabled;
    if es == [] {
    } else {
      InvStep(c, s, es[0]);
      ExecKeepsInv(c, Apply(c, s, es[0]), es[1..]);
    }
  }

  ghost predicate Reachable(c: Codec, s: State) { Leads(c, START, s) }

  lemma ReachableInv(c: Codec, s: State)
    requires Lawful(c) && Reachable(c, s)
    ensures Inv(c, s)
  {
    var es :| Exec(c, START, es) == Some(s);
    InvAtStart(c);
    ExecKeepsInv(c, START, es);
  }

  /** For any sequence of Decode calls under any scheduling, inflater errors included: what readers
      have received is a prefix of the frames in call order, and what the calls have returned so far
      is a prefix of the inflation of what the inflater has received.  Bytes are lost only to a
      header read that failed, and then no output has been returned yet. */
  lemma StreamsStayInOrder(c: Codec, s: State)
    requires Lawful(c) && Reachable(c, s)
    ensures Received(s) <= s.sent
    ensures s.reader.Some? ==> Received(s) == s.dropped + s.reader.value.recv && s.outs <= c.output(s.reader.value.recv)
    ensures s.reader.None? ==> s.outs == []
  {
    ReachableInv(c, s);
    hide *;
    InputInOrder(c, s);
    OutputInOrder(c, s);
  }

  lemma InputInOrder(c: Codec, s: State)
    requires Inv(c, s)
    ensures Received(s) <= s.sent
    ensures s.reader.Some? ==> Received(s) == s.dropped + s.reader.value.recv
  {
    hide GateOk, WriterOk, OutputOk, IsZlibFlush;
    assert s.taken <= s.sent by { hide PhaseOk, Received; }
    hide Orderly, Disorderly;
    assert s.reader.Some? ==> s.head == [];
    if s.reader.Some? {
      assert s.dropped + [] + s.reader.value.recv == s.dropped + s.reader.value.recv;
    }
  }

  lemma OutputInOrder(c: Codec, s: State)
    requires Inv(c, s)
    ensures s.reader.Some? ==> s.outs <= c.output(s.reader.value.recv)
    ensures s.reader.None? ==> s.outs == []
  {
    hide GateOk, WriterOk, PhaseOk, Orderly, Disorderly, Received;
    assert s.outs <= Outputs(s);
  }

  /** Until the inflater's first error, a Decode that has returned has had its whole frame taken and
      its writer finished, so at any time at most the newest writer is still busy. */
  lemma WritesNeverOverlap(c: Codec, s: State)
    requires Lawful(c) && Reachable(c, s) && !Broken(s)
    ensures s.phase.Free? ==> Received(s) == s.sent
    ensures forall i :: 0 <= i < |s.writers| && (s.phase.Free? || i < |s.writers| - 1) ==>
              s.writers[i].status.Signalled? && s.writers[i].left == []
  {
    ReachableInv(c, s);
    hide *;
    OrderlyWriters(c, s);
  }

  lemma OrderlyWriters(c: Codec, s: State)
    requires Inv(c, s) && !Broken(s)
    ensures s.phase.Free? ==> Received(s) == s.sent
    ensures forall i :: 0 <= i < |s.writers| && (s.phase.Free? || i < |s.writers| - 1) ==>
              s.writers[i].status.Signalled? && s.writers[i].left == []
  {
    hide GateOk, PhaseOk, OutputOk, Received;
    forall i | 0 <= i < |s.writers| && (s.phase.Free? || i < |s.writers| - 1)
      ensures s.writers[i].status.Signalled? && s.writers[i].left == []
    {
      assert WriterOk(s.writers[i]);
    }
    if s.phase.Free? {
      assert s.taken + [] == s.taken;
      if |s.writers| > 0 { assert WriterOk(Last(s)); }
    }
  }

  // ------------------------------------------------------------------ where reads come to stand

  /** In a header read, what has been taken and what is left make up the frame; and until an error
      the output taken is output that error-free reads give. */
  predicate PlaceOk(c: Codec, s: State) {
    && (s.phase.Heading? && |s.writers| > 0 ==> s.head + Last(s).left == Last(s).frame)
    && (s.reader.Some? && !Broken(s) ==> s.reader.value.emitted <= Limit(c, s.reader.value.recv))
  }

  lemma TransferKeepsHeading(c: Codec, s: State, k: nat)
    requires |s.writers| > 0 && s.holder == Some(|s.writers| - 1) && Enabled(c, s, Transfer(k)) && s.phase.Heading?
    requires s.head + Last(s).left == Last(s).frame
    ensures var s' := Apply(c, s, Transfer(k)); s'.head + Last(s').left == Last(s').frame
  {
    var left := Last(s).left;
    assert s.head + left[..k] + left[k..] == s.head + left;
    hide IsAsked;
  }

  lemma OthersKeepHeading(c: Codec, s: State, e: Event)
    requires Enabled(c, s, e) && Apply(c, s, e).phase.Heading? && |Apply(c, s, e).writers| > 0
    requires s.head == [] || s.phase.Heading?
    requires s.phase.Heading? && |s.writers| > 0 ==> s.head + Last(s).left == Last(s).frame
    requires !e.Transfer?
    ensures var s' := Apply(c, s, e); s'.head + Last(s').left == Last(s').frame
  {
    if e.Call? { assert [] + e.data == e.data; }
    hide IsZlibFlush, IsChunk, IsTail;
  }

  lemma HeadingStays(c: Codec, s: State, e: Event)
    requires Inv(c, s) && Enabled(c, s, e) && Apply(c, s, e).phase.Heading? && |Apply(c, s, e).writers| > 0
    requires s.phase.Heading? && |s.writers| > 0 ==> s.head + Last(s).left == Last(s).frame
    ensures var s' := Apply(c, s, e); s'.head + Last(s').left == Last(s').frame
  {
    if e.Transfer? {
      TransferLeavesPhase(c, s, e.k);
      hide Inv, Apply, Enabled;
      ReadsNewest(c, s, e.k);
      TransferKeepsHeading(c, s, e.k);
    } else {
      HeadIsOfHeading(c, s);
      hide Inv, Apply, Enabled;
      OthersKeepHeading(c, s, e);
    }
  }

  lemma TransferLeavesPhase(c: Codec, s: State, k: nat)
    requires Enabled(c, s, Transfer(k))
    ensures Apply(c, s, Transfer(k)).phase == s.phase && |Apply(c, s, Transfer(k)).writers| == |s.writers|
  {}

  lemma HeadIsOfHeading(c: Codec, s: State)
    requires Inv(c, s)
    ensures s.head == [] || s.phase.Heading?
  {
    hide OutputOk, Received;
  }

  lemma LimitStays(c: Codec, s: State, e: Event)
    requires Lawful(c) && Enabled(c, s, e) && (s.phase.Heading? ==> s.reader.None?)
    requires s.reader.Some? && !Broken(s) ==> s.reader.value.emitted <= Limit(c, s.reader.value.recv)
    ensures var s' := Apply(c, s, e);
            s'.reader.Some? && !Broken(s') ==> s'.reader.value.emitted <= Limit(c, s'.reader.value.recv)
  {
    if e.Transfer? && s.reader.Some? {
      MoreInput(c, s.reader.value.recv, Apply(c, s, e).reader.value.recv);
    }
    hide IsZlibFlush, IsAsked, LawfulInput;
  }

  lemma PlaceStep(c: Codec, s: State, e: Event)
    requires Lawful(c) && Inv(c, s) && PlaceOk(c, s) && Enabled(c, s, e)
    ensures PlaceOk(c, Apply(c, s, e))
  {
    hide Lawful, Enabled, Apply, Limit;
    LimitStays(c, s, e);
    if Apply(c, s, e).phase.Heading? && |Apply(c, s, e).writers| > 0 { HeadingStays(c, s, e); }
  }

  lemma {:induction false} ExecKeepsPlace(c: Codec, s: State, es: seq<Event>)
    requires Lawful(c) && Inv(c, s) && PlaceOk(c, s) && Exec(c, s, es).Some?
    ensures PlaceOk(c, Exec(c, s, es).value)
    decreases |es|
  {
    hide Inv, Lawful, Apply, Enabled, PlaceOk;
    if es == [] {
    } else {
      InvStep(c, s, es[0]);
      PlaceStep(c, s, es[0]);
      ExecKeepsPlace(c, Apply(c, s, es[0]), es[1..]);
    }
  }

  lemma ReachablePlace(c: Codec, s: State)
    requires Lawful(c) && Reachable(c, s)
    ensures Inv(c, s) && PlaceOk(c, s)
  {
    ReachableInv(c, s);
    var es :| Exec(c, START, es) == Some(s);
    InvAtStart(c);
    ExecKeepsPlace(c, START, es);
  }

  /** With e bytes out and no more input, some read that leaves its buffer short is still to come. */
  predicate ShortReadAhead(c: Codec, a: seq<byte>, e: nat)
    decreases Minus(Limit(c, a), e)
  {
    e < Limit(c, a) && (c.chunk(a, e) < BUFFER || ShortReadAhead(c, a, e + BUFFER))
  }

  /** What the inflater has been given when it asks for the last part of `left`. */
  function BeforeLast(c: Codec, recv: seq<byte>, left: seq<byte>): seq<byte>
    decreases |left|
  {
    var k := c.ask(recv);
    if k == 0 || |left| <= k then recv else BeforeLast(c, recv + left[..k], left[k..])
  }

  /** A drain can end: the stream itself ends, or after the last byte of the frame has been taken,
      which is when the writer can have reported, some read is short. */
  predicate Drainable(c: Codec, recv: seq<byte>, emitted: nat, left: seq<byte>) {
    || c.verdict(recv + left) != Running
    || (if left == [] then ShortReadAhead(c, recv, emitted)
        else ShortReadAhead(c, recv + left, |c.output(BeforeLast(c, recv, left))|))
  }

  /** A blocked read of a drain does not change what the drain comes to. */
  lemma TransferKeepsDrainable(c: Codec, recv: seq<byte>, emitted: nat, left: seq<byte>)
    requires LawfulInput(c) && left != [] && emitted == |c.output(recv)|
    ensures var k := Min(c.ask(recv), |left|);
            0 < k && (Drainable(c, recv + left[..k], emitted, left[k..]) <==> Drainable(c, recv, emitted, left))
  {
    var k := Min(c.ask(recv), |left|);
    assert recv + left[..k] + left[k..] == recv + left;
    if k == |left| { assert left[..k] == left; }
  }

  /** What a header read takes of a frame, and what it leaves. */
  function HeaderTake(c: Codec, head: seq<byte>, left: seq<byte>): (seq<byte>, seq<byte>)
    decreases |left|
  {
    if c.header(head) != NeedMore || left == [] then (head, left)
    else
      var k := Min(PIPE_BUFFER, |left|);
      HeaderTake(c, head + left[..k], left[k..])
  }

  // --------------------------------------------------------------------------- calls that hang

  /** Some continuation lets the call that holds the mutex return. */
  ghost predicate CanReturn(c: Codec, s: State) { exists s' :: Leads(c, s, s') && s'.phase.Free? }

  /** The frame of a waiting call has been taken from the pipe. */
  predicate FrameTaken(s: State)
    requires |s.writers| > 0
  {
    Last(s).met && Last(s).left == []
  }

  lemma StepLeads(c: Codec, s: State, e: Event)
    requires Enabled(c, s, e) && CanReturn(c, Apply(c, s, e))
    ensures CanReturn(c, s)
  {
    hide Enabled, Apply;
    var s' :| Leads(c, Apply(c, s, e), s') && s'.phase.Free?;
    var es :| Exec(c, Apply(c, s, e), es) == Some(s');
    assert ([e] + es)[1..] == es;
    assert Exec(c, s, [e] + es) == Some(s');
    assert Leads(c, s, s');
  }

  lemma FreeReturns(c: Codec, s: State)
    requires s.phase.Free?
    ensures CanReturn(c, s)
  {
    assert Exec(c, s, []) == Some(s);
    assert Leads(c, s, s);
  }

  /** A call that waits on writeDone and whose frame has not all been taken. */
  predicate WaitsInVain(s: State) {
    (s.phase.AwaitNil? || s.phase.AwaitErr?) && |s.writers| > 0 && !FrameTaken(s)
  }

  lemma WaitsInVainStays(c: Codec, s: State, e: Event)
    requires Inv(c, s) && WaitsInVain(s) && Enabled(c, s, e)
    ensures WaitsInVain(Apply(c, s, e))
  {
    hide OutputOk, IsZlibFlush, Received, IsAsked, IsChunk, IsTail;
    assert WriterOk(Last(s));
  }

  /** A drain that will never see a short read with its writer done, nor an error. */
  predicate ReadsInVain(c: Codec, s: State) {
    && (s.phase.Reading? || s.phase.Polling?) && s.reader.Some? && !Broken(s) && |s.writers| > 0
    && (s.phase.Polling? ==> Last(s).left != [])
    && !Drainable(c, s.reader.value.recv, s.reader.value.emitted, Last(s).left)
  }

  lemma ReadsInVainReads(c: Codec, s: State, n: nat)
    requires LawfulReads(c) && Inv(c, s) && ReadsInVain(c, s) && Enabled(c, s, Deliver(n))
    ensures ReadsInVain(c, Apply(c, s, Deliver(n)))
  {
    hide OutputOk, Received, IsZlibFlush, BeforeLast, WriterOk, GateOk, Orderly;
  }

  lemma ReadsInVainTakes(c: Codec, s: State, k: nat)
    requires LawfulInput(c) && Inv(c, s) && ReadsInVain(c, s) && Enabled(c, s, Transfer(k))
    ensures ReadsInVain(c, Apply(c, s, Transfer(k)))
  {
    hide OutputOk, Received, BeforeLast, Drainable, GateOk, Orderly, Disorderly, LawfulInput;
    ReadsNewest(c, s, k);
    assert WriterOk(Last(s)) && IsZlibFlush(Last(s).frame);
    assert Last(s).left != [];
    assert WantsInput(c, s) && IsAsked(c, s, Last(s).left, k);
    TransferKeepsDrainable(c, s.reader.value.recv, s.reader.value.emitted, Last(s).left);
    hide WriterOk, IsZlibFlush, Inv;
  }

  lemma ReadsInVainOtherwise(c: Codec, s: State, e: Event)
    requires |s.writers| > 0 && WriterOk(Last(s)) && ReadsInVain(c, s) && Enabled(c, s, e)
    requires !e.Deliver? && !e.Transfer? && !e.Fail?
    ensures ReadsInVain(c, Apply(c, s, e))
  {
    hide IsZlibFlush, Drainable;
  }

  lemma ReadsInVainNoFailure(c: Codec, s: State, n: nat)
    requires Lawful(c) && ReadsInVain(c, s)
    ensures !Enabled(c, s, Fail(n))
  {
    MoreInput(c, s.reader.value.recv, s.reader.value.recv + Last(s).left);
    hide Lawful, BeforeLast, ShortReadAhead, IsTail;
  }

  lemma ReadsInVainStays(c: Codec, s: State, e: Event)
    requires Lawful(c) && Inv(c, s) && ReadsInVain(c, s) && Enabled(c, s, e)
    ensures ReadsInVain(c, Apply(c, s, e))
  {
    assert |s.writers| > 0 && WriterOk(Last(s));
    hide Inv, ReadsInVain, Apply, Enabled, WriterOk;
    match e
    case Deliver(n) => ReadsInVainReads(c, s, n);
    case Transfer(k) => ReadsInVainTakes(c, s, k);
    case Fail(n) => ReadsInVainNoFailure(c, s, n);
    case _ => ReadsInVainOtherwise(c, s, e);
  }

  /** A header read whose frame holds no whole header, or from which no return follows. */
  predicate HeadsInVain(c: Codec, s: State) {
    && s.phase.Heading? && s.reader.None? && |s.writers| > 0
    && var (h, l) := HeaderTake(c, s.head, Last(s).left);
       match c.header(h)
       case NeedMore => true
       case Bad => l != []
       case Good => if IsZlibFlush(Last(s).frame) then !Drainable(c, h, 0, l) else l != []
  }

  lemma HeadsInVainTakes(c: Codec, s: State, k: nat)
    requires Inv(c, s) && HeadsInVain(c, s) && Enabled(c, s, Transfer(k))
    ensures HeadsInVain(c, Apply(c, s, Transfer(k)))
  {
    ReadsNewest(c, s, k);
    var left := Last(s).left;
    assert IsAsked(c, s, left, k);
    if left == [] {
      assert s.head + left[..k] == s.head && left[k..] == left;
    } else {
      assert HeaderTake(c, s.head, left) == HeaderTake(c, s.head + left[..k], left[k..]);
    }
    hide OutputOk, Received, IsZlibFlush, Drainable, HeaderTake, WriterOk, Orderly, GateOk;
  }

  lemma HeadsInVainStays(c: Codec, s: State, e: Event)
    requires Inv(c, s) && HeadsInVain(c, s) && Enabled(c, s, e)
    ensures Hung(c, Apply(c, s, e))
  {
    if e.Transfer? {
      HeadsInVainTakes(c, s, e.k);
    } else {
      assert WriterOk(Last(s));
      hide OutputOk, Received, IsZlibFlush, Drainable, IsAsked, IsChunk, IsTail;
    }
  }

  /** What keeps a call from ever returning, read off the state. */
  ghost predicate Hung(c: Codec, s: State) { WaitsInVain(s) || ReadsInVain(c, s) || HeadsInVain(c, s) }

  lemma HungStays(c: Codec, s: State, e: Event)
    requires Lawful(c) && Inv(c, s) && Hung(c, s) && Enabled(c, s, e)
    ensures Hung(c, Apply(c, s, e)) && Inv(c, Apply(c, s, e))
  {
    hide Inv, Lawful, Apply, Enabled, WaitsInVain, ReadsInVain, HeadsInVain;
    InvStep(c, s, e);
    if WaitsInVain(s) { WaitsInVainStays(c, s, e); }
    else if ReadsInVain(c, s) { ReadsInVainStays(c, s, e); }
    else { HeadsInVainStays(c, s, e); }
  }

  lemma {:induction false} HungForever(c: Codec, s: State, es: seq<Event>)
    requires Lawful(c) && Inv(c, s) && Hung(c, s) && Exec(c, s, es).Some?
    ensures Hung(c, Exec(c, s, es).value)
    decreases |es|
  {
    hide Inv, Lawful, Apply, Enabled, Hung;
    if es == [] {
    } else {
      HungStays(c, s, es[0]);
      HungForever(c, Apply(c, s, es[0]), es[1..]);
    }
  }

  lemma HungNeverReturns(c: Codec, s: State)
    requires Lawful(c) && Inv(c, s) && Hung(c, s)
    ensures !CanReturn(c, s)
  {
    if CanReturn(c, s) {
      var s' :| Leads(c, s, s') && s'.phase.Free?;
      var es :| Exec(c, s, es) == Some(s');
      HungForever(c, s, es);
      assert false;
    }
  }

  // ------------------------------------------------------------------------- calls that return

  /** An enabled event is a way on. */
  lemma WayOn(c: Codec, s: State, e: Event)
    requires Lawful(c) && Inv(c, s) && PlaceOk(c, s) && Enabled(c, s, e)
    ensures Inv(c, Apply(c, s, e)) && PlaceOk(c, Apply(c, s, e))
    ensures CanReturn(c, Apply(c, s, e)) ==> CanReturn(c, s)
  {
    hide Lawful, Inv, PlaceOk, Enabled, Apply, CanReturn;
    InvStep(c, s, e);
    PlaceStep(c, s, e);
    if CanReturn(c, Apply(c, s, e)) { StepLeads(c, s, e); }
  }

  lemma FinishEnds(c: Codec, s: State, i: nat)
    requires |s.writers| > 0 && FrameTaken(s) && i == |s.writers| - 1
    ensures Last(s).status.Offering? ==>
              (&& Enabled(c, s, Finish(i))
               && Apply(c, s, Finish(i)) == s.(writers := s.writers[i := Last(s).(status := Finished)], holder := None))
    ensures Last(s).status.Finished? ==>
              (&& Enabled(c, s, Signal(i))
               && Apply(c, s, Signal(i)) == s.(writers := s.writers[i := Last(s).(status := Signalled)]))
  {}

  /** Once the frame is taken, its writer can run to its end while the caller stands still. */
  lemma LetWriterEnd(c: Codec, s: State) returns (s': State)
    requires Lawful(c) && Inv(c, s) && PlaceOk(c, s) && |s.writers| > 0 && FrameTaken(s)
    ensures CanReturn(c, s') ==> CanReturn(c, s)
    ensures s'.phase == s.phase && s'.reader == s.reader
    ensures |s'.writers| > 0 && FrameTaken(s') && Last(s').status.Signalled?
  {
    var i := |s.writers| - 1;
    assert WriterOk(Last(s));
    hide Inv, PlaceOk, Lawful, Enabled, Apply, CanReturn;
    s' := s;
    if Last(s').status.Offering? {
      FinishEnds(c, s', i);
      WayOn(c, s', Finish(i));
      s' := Apply(c, s', Finish(i));
    }
    if Last(s').status.Finished? {
      FinishEnds(c, s', i);
      WayOn(c, s', Signal(i));
      s' := Apply(c, s', Signal(i));
    }
  }

  lemma TakenFrameReturns(c: Codec, s: State)
    requires Lawful(c) && Inv(c, s) && PlaceOk(c, s) && |s.writers| > 0 && FrameTaken(s)
    requires s.phase.AwaitNil? || s.phase.AwaitErr? || s.phase.Polling?
    ensures CanReturn(c, s)
  {
    var s1 := LetWriterEnd(c, s);
    var e := if s.phase.Polling? then Poll else Return;
    FreeReturns(c, Apply(c, s1, e));
    StepLeads(c, s1, e);
  }

  lemma FailureReturns(c: Codec, s: State)
    requires Lawful(c) && Inv(c, s) && PlaceOk(c, s) && s.phase.Reading?
    requires || Broken(s)
             || (&& c.verdict(s.reader.value.recv) != Running
                 && s.reader.value.emitted >= Limit(c, s.reader.value.recv))
    ensures CanReturn(c, s)
  {
    var e := Fail(if Broken(s) then 0 else c.tail(s.reader.value.recv));
    FreeReturns(c, Apply(c, s, e));
    StepLeads(c, s, e);
  }

  /** Before the first error the newest writer can always get to the pipe. */
  lemma LetWriterIn(c: Codec, s: State) returns (s': State)
    requires Lawful(c) && Inv(c, s) && PlaceOk(c, s) && !Broken(s) && |s.writers| > 0 && !FrameTaken(s)
    ensures CanReturn(c, s') ==> CanReturn(c, s)
    ensures Inv(c, s') && PlaceOk(c, s') && |s'.writers| == |s.writers| && s'.holder == Some(|s.writers| - 1)
    ensures Last(s') == Last(s).(status := Offering)
    ensures s'.phase == s.phase && s'.reader == s.reader && s'.head == s.head
  {
    var i := |s.writers| - 1;
    WriterAtGate(c, s);
    hide Inv, PlaceOk, Lawful, CanReturn, Enabled;
    if Last(s).status.Offering? {
      s' := s;
    } else {
      s' := Apply(c, s, Acquire(i));
      hide Apply;
      WayOn(c, s, Acquire(i));
    }
  }

  lemma WriterAtGate(c: Codec, s: State)
    requires Inv(c, s) && !Broken(s) && |s.writers| > 0 && !FrameTaken(s)
    ensures if Last(s).status.Offering? then s.holder == Some(|s.writers| - 1)
            else Enabled(c, s, Acquire(|s.writers| - 1))
  {
    assert WriterOk(Last(s));
    hide OutputOk, Received;
  }

  /** A blocked read takes what it asks for, or all that is left of the frame. */
  lemma LetReadTake(c: Codec, s: State) returns (s': State)
    requires Lawful(c) && Inv(c, s) && PlaceOk(c, s) && !Broken(s) && |s.writers| > 0 && WantsInput(c, s)
    requires !FrameTaken(s) && Last(s).left != []
    ensures CanReturn(c, s') ==> CanReturn(c, s)
    ensures Inv(c, s') && PlaceOk(c, s') && |s'.writers| == |s.writers| && s'.phase == s.phase && !Broken(s')
    ensures var k := Min(if s.phase.Heading? then PIPE_BUFFER else c.ask(s.reader.value.recv), |Last(s).left|);
            && Last(s') == Last(s).(status := Offering, met := true, left := Last(s).left[k..])
            && (if s.phase.Heading? then s'.reader == s.reader && s'.head == s.head + Last(s).left[..k]
                else s'.reader == Some(s.reader.value.(recv := s.reader.value.recv + Last(s).left[..k])))
  {
    var k := Min(if s.phase.Heading? then PIPE_BUFFER else c.ask(s.reader.value.recv), |Last(s).left|);
    hide Inv, PlaceOk, Lawful, Limit, CanReturn;
    var s1 := LetWriterIn(c, s);
    assert WantsInput(c, s1) && Last(s1).left == Last(s).left;
    TransferTakes(c, s1, k);
    hide Enabled, WantsInput, Apply;
    s' := Apply(c, s1, Transfer(k));
    WayOn(c, s1, Transfer(k));
  }

  lemma TransferTakes(c: Codec, s: State, k: nat)
    requires |s.writers| > 0 && s.holder == Some(|s.writers| - 1) && Last(s).status.Offering? && Last(s).left != []
    requires WantsInput(c, s) && !Broken(s)
    requires k == Min(if s.phase.Heading? then PIPE_BUFFER else c.ask(s.reader.value.recv), |Last(s).left|)
    ensures Enabled(c, s, Transfer(k))
    ensures var s' := Apply(c, s, Transfer(k));
            && |s'.writers| == |s.writers| && s'.phase == s.phase && !Broken(s')
            && Last(s') == Last(s).(met := true, left := Last(s).left[k..])
            && (if s.phase.Heading? then s'.reader == s.reader && s'.head == s.head + Last(s).left[..k]
                else s'.reader == Some(s.reader.value.(recv := s.reader.value.recv + Last(s).left[..k])))
  {}

  /** One read that returns output, and what is left to show. */
  lemma LetReadDeliver(c: Codec, s: State) returns (s': State)
    requires Lawful(c) && Inv(c, s) && PlaceOk(c, s) && s.phase.Reading? && s.reader.Some? && !Broken(s)
    requires s.reader.value.emitted < Limit(c, s.reader.value.recv)
    ensures CanReturn(c, s') ==> CanReturn(c, s)
    ensures Inv(c, s') && PlaceOk(c, s') && s'.writers == s.writers
    ensures var r := s.reader.value;
            && 1 <= c.chunk(r.recv, r.emitted) <= BUFFER
            && s'.reader == Some(r.(emitted := r.emitted + c.chunk(r.recv, r.emitted)))
            && (if c.chunk(r.recv, r.emitted) < BUFFER then s'.phase.Polling? else s'.phase.Reading?)
  {
    var e := Deliver(c.chunk(s.reader.value.recv, s.reader.value.emitted));
    ChunkIsDelivered(c, s);
    hide Inv, PlaceOk, Lawful, Enabled, Limit, CanReturn, Apply;
    s' := Apply(c, s, e);
    WayOn(c, s, e);
  }

  lemma ChunkIsDelivered(c: Codec, s: State)
    requires LawfulReads(c) && s.phase.Reading? && s.reader.Some? && !Broken(s)
    requires s.reader.value.emitted < Limit(c, s.reader.value.recv)
    ensures var r := s.reader.value;
            var n := c.chunk(r.recv, r.emitted);
            var s' := Apply(c, s, Deliver(n));
            && 1 <= n <= BUFFER && Enabled(c, s, Deliver(n)) && s'.writers == s.writers
            && s'.reader == Some(r.(emitted := r.emitted + n))
            && (if n < BUFFER then s'.phase.Polling? else s'.phase.Reading?)
  {}

  /** A poll while the frame is not all taken finds nothing. */
  lemma LetPoll(c: Codec, s: State) returns (s': State)
    requires Lawful(c) && Inv(c, s) && PlaceOk(c, s) && s.phase.Polling? && |s.writers| > 0 && Last(s).left != []
    ensures CanReturn(c, s') ==> CanReturn(c, s)
    ensures Inv(c, s') && PlaceOk(c, s') && s'.writers == s.writers && s'.reader == s.reader && s'.phase.Reading?
  {
    assert WriterOk(Last(s));
    hide Inv, PlaceOk, Lawful, CanReturn, Apply, Enabled;
    PollFindsNothing(c, s);
    s' := Apply(c, s, Poll);
    WayOn(c, s, Poll);
  }

  lemma PollFindsNothing(c: Codec, s: State)
    requires s.phase.Polling? && |s.writers| > 0 && WriterOk(Last(s)) && Last(s).left != []
    ensures Enabled(c, s, Poll) && Apply(c, s, Poll) == s.(phase := Reading(s.phase.result))
  {}

  /** A drain whose output is all out, with no end in sight, waits for the rest of its frame. */
  lemma DrainTakes(c: Codec, s: State)
    requires Lawful(c) && Inv(c, s) && PlaceOk(c, s) && s.phase.Reading? && !Broken(s) && !ReadsInVain(c, s)
    requires s.reader.value.emitted >= Limit(c, s.reader.value.recv) && c.verdict(s.reader.value.recv) == Running
    ensures WantsInput(c, s) && Last(s).left != []
    ensures var r := s.reader.value;
            var k := Min(c.ask(r.recv), |Last(s).left|);
            0 < k && Drainable(c, r.recv + Last(s).left[..k], r.emitted, Last(s).left[k..])
  {
    var r, left := s.reader.value, Last(s).left;
    assert r.emitted == |c.output(r.recv)|;
    assert left == [] ==> r.recv + left == r.recv;
    hide OutputOk, Inv, BeforeLast;
    TransferKeepsDrainable(c, r.recv, r.emitted, left);
  }

  function Gap(c: Codec, s: State): nat {
    if s.reader.Some? then Minus(Limit(c, s.reader.value.recv), s.reader.value.emitted) else 0
  }

  /** From s the drain can come to s', which is nearer to its end. */
  ghost predicate Closer(c: Codec, s: State, s': State)
    requires |s.writers| > 0
  {
    && Inv(c, s') && PlaceOk(c, s') && (s'.phase.Reading? || s'.phase.Polling?) && !ReadsInVain(c, s')
    && |s'.writers| > 0
    && (CanReturn(c, s') ==> CanReturn(c, s))
    && (|| |Last(s').left| < |Last(s).left|
        || (Last(s').left == Last(s).left && Gap(c, s') < Gap(c, s))
        || (Last(s').left == Last(s).left && Gap(c, s') == Gap(c, s) && s.phase.Polling? && s'.phase.Reading?))
  }

  lemma PollGetsCloser(c: Codec, s: State) returns (s': State)
    requires Lawful(c) && Inv(c, s) && PlaceOk(c, s) && s.phase.Polling? && !ReadsInVain(c, s)
    requires |s.writers| > 0 && s.reader.Some? && !Broken(s) && Last(s).left != []
    ensures Closer(c, s, s')
  {
    hide Lawful, Inv, PlaceOk, CanReturn, Drainable, Limit;
    s' := LetPoll(c, s);
  }

  lemma ReadGetsCloser(c: Codec, s: State) returns (s': State)
    requires Lawful(c) && Inv(c, s) && PlaceOk(c, s) && s.phase.Reading? && !ReadsInVain(c, s)
    requires |s.writers| > 0 && s.reader.Some? && !Broken(s) && s.reader.value.emitted < Limit(c, s.reader.value.recv)
    ensures Closer(c, s, s')
  {
    var r := s.reader.value;
    hide Lawful, Inv, PlaceOk, CanReturn, Drainable, Limit;
    s' := LetReadDeliver(c, s);
    DeliverKeepsDrainable(c, r.recv, r.emitted, Last(s).left);
  }

  lemma TakeGetsCloser(c: Codec, s: State) returns (s': State)
    requires Lawful(c) && Inv(c, s) && PlaceOk(c, s) && s.phase.Reading? && !Broken(s) && !ReadsInVain(c, s)
    requires s.reader.Some? && |s.writers| > 0
    requires s.reader.value.emitted >= Limit(c, s.reader.value.recv) && c.verdict(s.reader.value.recv) == Running
    ensures Closer(c, s, s')
  {
    DrainTakes(c, s);
    hide Lawful, Inv, PlaceOk, CanReturn, Drainable, Limit, WantsInput, ReadsInVain;
    s' := LetReadTake(c, s);
    DrainingOn(c, s');
  }

  /** A drain can go on until its frame is taken and a read is short, if that is ever to be. */
  lemma {:induction false} DrainReturns(c: Codec, s: State)
    requires Lawful(c) && Inv(c, s) && PlaceOk(c, s) && (s.phase.Reading? || s.phase.Polling?) && !ReadsInVain(c, s)
    ensures CanReturn(c, s)
    decreases if |s.writers| > 0 then |Last(s).left| else 0, Gap(c, s), s.phase.Polling?
  {
    DrainFacts(c, s);
    hide Inv, PlaceOk, CanReturn, Lawful, Limit, ReadsInVain, Gap;
    if Broken(s) {
      FailureReturns(c, s);
    } else if s.phase.Polling? && FrameTaken(s) {
      TakenFrameReturns(c, s);
    } else if s.phase.Reading? && s.reader.value.emitted >= Limit(c, s.reader.value.recv)
      && c.verdict(s.reader.value.recv) != Running {
      FailureReturns(c, s);
    } else {
      var s';
      if s.phase.Polling? { s' := PollGetsCloser(c, s); }
      else if s.reader.value.emitted < Limit(c, s.reader.value.recv) { s' := ReadGetsCloser(c, s); }
      else { s' := TakeGetsCloser(c, s); }
      DrainReturns(c, s');
    }
  }

  lemma DrainFacts(c: Codec, s: State)
    requires Inv(c, s) && (s.phase.Reading? || s.phase.Polling?)
    ensures |s.writers| > 0 && s.reader.Some? && (!Broken(s) && !FrameTaken(s) ==> Last(s).left != [])
  {
    assert WriterOk(Last(s));
    hide OutputOk, Received;
  }

  lemma DrainingOn(c: Codec, s: State)
    requires s.reader.Some? && |s.writers| > 0
    requires Drainable(c, s.reader.value.recv, s.reader.value.emitted, Last(s).left)
    ensures !ReadsInVain(c, s)
  {
    hide Drainable;
  }

  lemma DeliverKeepsDrainable(c: Codec, recv: seq<byte>, emitted: nat, left: seq<byte>)
    requires Lawful(c) && emitted < Limit(c, recv) && Drainable(c, recv, emitted, left)
    ensures || (c.chunk(recv, emitted) < BUFFER && left == [])
            || Drainable(c, recv, emitted + c.chunk(recv, emitted), left)
  {
    hide BeforeLast, Limit, LawfulInput;
    if left == [] { assert recv + left == recv; }
  }

  lemma {:induction false} HeadReturns(c: Codec, s: State)
    requires Lawful(c) && Inv(c, s) && PlaceOk(c, s) && s.phase.Heading? && !HeadsInVain(c, s)
    ensures CanReturn(c, s)
    decreases if |s.writers| > 0 then |Last(s).left| else 0
  {
    assert |s.writers| > 0 && WriterOk(Last(s)) && s.reader.None?;
    var left := Last(s).left;
    if c.header(s.head) == NeedMore {
      var k := Min(PIPE_BUFFER, |left|);
      assert left != [] && HeaderTake(c, s.head, left) == HeaderTake(c, s.head + left[..k], left[k..]);
      hide HeaderTake, Drainable, Lawful;
      var s' := LetReadTake(c, s);
      hide Inv, PlaceOk;
      HeadReturns(c, s');
    } else {
      assert s.head != [] && (left == [] ==> Last(s).met);
      HeaderReturns(c, s);
    }
  }

  lemma HeaderReturns(c: Codec, s: State)
    requires Lawful(c) && Inv(c, s) && PlaceOk(c, s) && s.phase.Heading? && s.reader.None? && |s.writers| > 0
    requires c.header(s.head) != NeedMore && (Last(s).left == [] ==> Last(s).met) && !HeadsInVain(c, s)
    ensures CanReturn(c, s)
  {
    HeaderEnds(c, s);
    hide Inv, PlaceOk, Lawful, CanReturn, HeadsInVain, ReadsInVain, Enabled, Apply;
    var s' := Apply(c, s, HeaderDone);
    InvStep(c, s, HeaderDone);
    PlaceStep(c, s, HeaderDone);
    if s'.phase.Reading? { DrainReturns(c, s'); } else { TakenFrameReturns(c, s'); }
    StepLeads(c, s, HeaderDone);
  }

  lemma HeaderEnds(c: Codec, s: State)
    requires s.phase.Heading? && s.reader.None? && |s.writers| > 0 && !HeadsInVain(c, s)
    requires c.header(s.head) != NeedMore && (Last(s).left == [] ==> Last(s).met)
    ensures Enabled(c, s, HeaderDone)
    ensures var s' := Apply(c, s, HeaderDone);
            |s'.writers| > 0 && if s'.phase.Reading? then !ReadsInVain(c, s')
                                else (s'.phase.AwaitNil? || s'.phase.AwaitErr?) && FrameTaken(s')
  {
    assert HeaderTake(c, s.head, Last(s).left) == (s.head, Last(s).left);
    hide Drainable, HeaderTake, IsZlibFlush;
  }

  // ------------------------------------------------------------------- exactly when a call hangs

  lemma CanReturnIffNotHung(c: Codec, s: State)
    requires Lawful(c) && Inv(c, s) && PlaceOk(c, s) && !s.phase.Closed?
    ensures CanReturn(c, s) <==> !Hung(c, s)
  {
    if Hung(c, s) {
      HungNeverReturns(c, s);
    } else if s.phase.Free? {
      FreeReturns(c, s);
    } else if s.phase.Heading? {
      HeadReturns(c, s);
    } else if s.phase.Reading? || s.phase.Polling? {
      DrainReturns(c, s);
    } else {
      assert |s.writers| > 0;
      TakenFrameReturns(c, s);
    }
  }

  /** A Decode that waits for its writer returns in some continuation exactly when its frame has
      already been taken; otherwise it returns in none. */
  lemma WaitingReturnsIffFrameTaken(c: Codec, s: State)
    requires Lawful(c) && Reachable(c, s) && (s.phase.AwaitNil? || s.phase.AwaitErr?)
    ensures |s.writers| > 0 && (CanReturn(c, s) <==> FrameTaken(s))
  {
    ReachablePlace(c, s);
    CanReturnIffNotHung(c, s);
  }

  /** A drain returns in some scheduling exactly when the stream ends, or a read is still to come that
      leaves its buffer short once the whole frame is taken. */
  lemma DrainReturnsIffShortReadAhead(c: Codec, s: State)
    requires Lawful(c) && Reachable(c, s) && (s.phase.Reading? || s.phase.Polling?)
    ensures |s.writers| > 0 && s.reader.Some?
    ensures var r := s.reader.value;
            CanReturn(c, s) <==>
              Broken(s) || (s.phase.Polling? && Last(s).left == []) || Drainable(c, r.recv, r.emitted, Last(s).left)
  {
    ReachablePlace(c, s);
    DrainFacts(c, s);
    hide Inv, PlaceOk, Lawful, Reachable, CanReturn, Drainable, HeaderTake;
    CanReturnIffNotHung(c, s);
    assert !WaitsInVain(s) && !HeadsInVain(c, s);
    hide WaitsInVain, HeadsInVain;
  }

  /** The state in which Decode(data) has just started its writer. */
  function Called(c: Codec, s: State, data: seq<byte>): State
    requires s.phase.Free?
  {
    Apply(c, s, Call(data))
  }

  /** Whether Decode(data), called now, can return at all.  The stream's first frame must complete the
      header in what one read of the pipe takes, and unless the rest is drained, in all it takes.  A
      later frame must end in a flush.  A drain must come to an end. */
  predicate Answerable(c: Codec, s: State, data: seq<byte>) {
    if s.reader.None? then
      var k := Min(PIPE_BUFFER, |data|);
      match c.header(data[..k])
      case NeedMore => false
      case Bad => |data| <= PIPE_BUFFER
      case Good => if IsZlibFlush(data) then Drainable(c, data[..k], 0, data[k..]) else |data| <= PIPE_BUFFER
    else
      IsZlibFlush(data) && (Broken(s) || Drainable(c, s.reader.value.recv, s.reader.value.emitted, data))
  }

  lemma FirstTake(c: Codec, data: seq<byte>)
    requires LawfulInput(c)
    ensures var k := Min(PIPE_BUFFER, |data|);
            var (h, l) := HeaderTake(c, [], data);
            if c.header(data[..k]) == NeedMore then c.header(h) == NeedMore else (h, l) == (data[..k], data[k..])
  {
    var k := Min(PIPE_BUFFER, |data|);
    if data != [] {
      assert [] + data[..k] == data[..k];
      assert HeaderTake(c, [], data) == HeaderTake(c, data[..k], data[k..]);
    }
  }

  lemma CalledIsHungIffNotAnswerable(c: Codec, s: State, data: seq<byte>)
    requires LawfulInput(c) && s.head == [] && s.phase.Free?
    ensures Hung(c, Called(c, s, data)) <==> !Answerable(c, s, data)
  {
    FirstTake(c, data);
    var s' := Called(c, s, data);
    assert Last(s') == Writer(data, data, false, Gate) && s'.reader == s.reader && s'.head == [];
    assert s'.phase == if s.reader.None? then Heading else AfterHeader(data);
    hide LawfulInput, HeaderTake, Drainable, Apply;
    assert |data| <= PIPE_BUFFER <==> data[Min(PIPE_BUFFER, |data|)..] == [];
  }

  /** The guard of every call: whether it can return is settled by the frame and by what the inflater
      has been given, before the call is made. */
  lemma DecodeCanReturnIffAnswerable(c: Codec, s: State, data: seq<byte>)
    requires Lawful(c) && Inv(c, s) && PlaceOk(c, s) && s.phase.Free?
    ensures CanReturn(c, Called(c, s, data)) <==> Answerable(c, s, data)
  {
    assert s.head == [] && !Called(c, s, data).phase.Closed?;
    CalledIsHungIffNotAnswerable(c, s, data);
    hide Inv, PlaceOk, Lawful, Hung, Answerable, CanReturn;
    InvStep(c, s, Call(data));
    PlaceStep(c, s, Call(data));
    CanReturnIffNotHung(c, Called(c, s, data));
  }

  /** After a call on a frame that is not answerable no later Decode ever starts: none can feed the
      pipe and set the first one free, and Close cannot run either. */
  lemma HungDecodeKeepsTheMutex(c: Codec, s: State, data: seq<byte>, s': State, more: seq<byte>)
    requires Lawful(c) && Reachable(c, s) && s.phase.Free? && !Answerable(c, s, data)
    requires Leads(c, Called(c, s, data), s')
    ensures !Enabled(c, s', Call(more)) && !Enabled(c, s', Close)
  {
    ReachablePlace(c, s);
    hide *;
    DecodeCanReturnIffAnswerable(c, s, data);
    NoReturnNoCall(c, Called(c, s, data), s', more);
  }

  lemma NoReturnNoCall(c: Codec, s: State, s': State, more: seq<byte>)
    requires !CanReturn(c, s) && Leads(c, s, s')
    ensures !Enabled(c, s', Call(more)) && !Enabled(c, s', Close)
  {
    assert !s'.phase.Free?;
  }

  /** A first frame longer than one read of the pipe is stuck, flush or error or not, unless drained. */
  lemma LongFirstFrameHangs(c: Codec, s: State, data: seq<byte>)
    requires Lawful(c) && Reachable(c, s) && s.phase.Free? && s.reader.None? && |data| > 4096
    requires c.header(data[..4096]) == Good ==> !IsZlibFlush(data)
    ensures !CanReturn(c, Called(c, s, data))
  {
    ReachablePlace(c, s);
    DecodeCanReturnIffAnswerable(c, s, data);
  }

  /** A message whose last part inflates to exactly one full buffer is stuck. */
  lemma FullReadHangs(c: Codec, s: State, data: seq<byte>)
    requires Lawful(c) && Reachable(c, s) && s.phase.Free? && s.reader.Some? && !Broken(s) && data != []
    requires var recv := s.reader.value.recv;
             var e := |c.output(BeforeLast(c, recv, data))|;
             c.verdict(recv + data) == Running && Limit(c, recv + data) == e + 8192
             && c.chunk(recv + data, e) == 8192
    ensures !CanReturn(c, Called(c, s, data))
  {
    var recv := s.reader.value.recv;
    var e := |c.output(BeforeLast(c, recv, data))|;
    assert !ShortReadAhead(c, recv + data, e + BUFFER);
    assert !Drainable(c, recv, s.reader.value.emitted, data);
    ReachablePlace(c, s);
    hide Lawful, Inv, PlaceOk, CanReturn, Drainable;
    DecodeCanReturnIffAnswerable(c, s, data);
  }

  lemma StartIsReachable(c: Codec)
    ensures Reachable(c, START)
  {
    assert Exec(c, START, []) == Some(START);
  }

  /** Two such first frames: 5000 bytes without a flush mark, and a message that inflates to 8192. */
  lemma FramesThatHang()
    ensures var data := seq(5000, _ => 0); !CanReturn(BlockCodec(0), Called(BlockCodec(0), START, data))
    ensures var data := seq(8190, _ => 0) + [0x00, 0x00, 0xff, 0xff];
            IsZlibFlush(data) && !CanReturn(BlockCodec(8192), Called(BlockCodec(8192), START, data))
  {
    LongFrameHangs();
    FullMessageHangs();
  }

  lemma LongFrameHangs()
    ensures var data := seq(5000, _ => 0); !CanReturn(BlockCodec(0), Called(BlockCodec(0), START, data))
  {
    SomeCodecIsLawful(0);
    StartIsReachable(BlockCodec(0));
    var data := seq(5000, _ => 0);
    assert data[4999] != FLUSH[3];
    assert data[4996..][3] == data[4999];
    LongFirstFrameHangs(BlockCodec(0), START, data);
  }

  lemma FullMessageHangs()
    ensures var data := seq(8190, _ => 0) + [0x00, 0x00, 0xff, 0xff];
            IsZlibFlush(data) && !CanReturn(BlockCodec(8192), Called(BlockCodec(8192), START, data))
  {
    var c, data := BlockCodec(BUFFER), seq(8190, _ => 0) + FLUSH;
    SomeCodecIsLawful(BUFFER);
    StartIsReachable(c);
    ReachablePlace(c, START);
    DecodeCanReturnIffAnswerable(c, START, data);
    var h, l := data[..PIPE_BUFFER], data[PIPE_BUFFER..];
    assert data[8190..] == FLUSH && h + l == data;
    var before := h + l[..PIPE_BUFFER];
    assert BeforeLast(c, h, l) == BeforeLast(c, before, l[PIPE_BUFFER..]) == before;
    assert |c.output(before)| == 0;
    BlockCodecLimit(BUFFER, data);
    assert c.chunk(data, 0) == BUFFER;
    assert !ShortReadAhead(c, data, 0);
  }

  /** The scheduler decides: a drain whose frame is taken and whose last output fits one read can
      still return, and can still get stuck for good. */
  lemma DrainIsARace(c: Codec, s: State)
    requires Lawful(c) && Reachable(c, s) && s.phase.Reading? && !Broken(s) && |s.writers| > 0
    requires FrameTaken(s) && !Last(s).status.Signalled? && s.reader.Some? && c.verdict(s.reader.value.recv) == Running
    requires var r := s.reader.value;
             r.emitted < Limit(c, r.recv) && c.chunk(r.recv, r.emitted) == Limit(c, r.recv) - r.emitted < BUFFER
    ensures CanReturn(c, s)
    ensures exists s' :: Leads(c, s, s') && !CanReturn(c, s')
  {
    ReachablePlace(c, s);
    LastReadIsARace(c, s);
    hide Inv, PlaceOk, CanReturn, Lawful, Reachable, ReadsInVain, Drainable, Enabled, Apply, Limit, FrameTaken,
      Leads, HeadsInVain, WaitsInVain;
    DrainReturnsIffShortReadAhead(c, s);
    var e := Deliver(c.chunk(s.reader.value.recv, s.reader.value.emitted));
    var s1 := Apply(c, s, e);
    var s2 := Apply(c, s1, Poll);
    WayOn(c, s, e);
    WayOn(c, s1, Poll);
    assert Hung(c, s2);
    HungNeverReturns(c, s2);
    LeadsByTwo(c, s, e, Poll);
  }

  lemma LeadsByTwo(c: Codec, s: State, e: Event, f: Event)
    requires Enabled(c, s, e) && Enabled(c, Apply(c, s, e), f)
    ensures Leads(c, s, Apply(c, Apply(c, s, e), f))
  {
    hide Enabled, Apply;
    var es := [e, f];
    assert es[1..] == [f] && es[1..][1..] == [];
    assert Exec(c, Apply(c, s, e), [f]) == Some(Apply(c, Apply(c, s, e), f));
    assert Exec(c, s, es) == Some(Apply(c, Apply(c, s, e), f));
  }

  lemma LastReadIsARace(c: Codec, s: State)
    requires LawfulReads(c) && s.phase.Reading? && s.reader.Some? && !Broken(s) && |s.writers| > 0
    requires FrameTaken(s) && !Last(s).status.Signalled? && c.verdict(s.reader.value.recv) == Running
    requires var r := s.reader.value;
             r.emitted < Limit(c, r.recv) && c.chunk(r.recv, r.emitted) == Limit(c, r.recv) - r.emitted < BUFFER
    ensures Drainable(c, s.reader.value.recv, s.reader.value.emitted, Last(s).left)
    ensures var e := Deliver(c.chunk(s.reader.value.recv, s.reader.value.emitted));
            && Enabled(c, s, e) && Enabled(c, Apply(c, s, e), Poll)
            && ReadsInVain(c, Apply(c, Apply(c, s, e), Poll))
  {
    var r := s.reader.value;
    assert r.recv + Last(s).left == r.recv;
    ChunkIsDelivered(c, s);
    hide LawfulReads;
  }

  // ------------------------------------------------------------------------ frames in their turn

  /** What the frames given so far amount to: no stream, or one that has been given these bytes. */
  datatype Stream = Fresh | Open(given: seq<byte>)

  function After(c: Codec, st: Stream, data: seq<byte>): Stream {
    match st
    case Fresh => if c.header(data) == Good then Open(data) else Fresh
    case Open(given) => Open(given + data)
  }

  function StreamOf(c: Codec, ws: seq<Writer>): Stream {
    if ws == [] then Fresh else After(c, StreamOf(c, ws[..|ws| - 1]), ws[|ws| - 1].frame)
  }

  /** Between calls the inflater has had all of the stream, unless the stream has ended or broken. */
  predicate Tracks(c: Codec, s: State, st: Stream) {
    match st
    case Fresh => s.reader.None?
    case Open(given) =>
      s.reader.Some? && if Broken(s) then c.verdict(given) != Running else s.reader.value.recv == given
  }

  /** And inside a call, what it has had and what is left of the frame. */
  predicate InCall(c: Codec, s: State, st: Stream)
    requires |s.writers| > 0
  {
    match s.phase
    case Heading => st.Fresh? && s.reader.None?
    case AwaitErr => st.Fresh? && s.reader.None? && c.header(Last(s).frame) == Bad
    case _ =>
      var now := After(c, st, Last(s).frame);
      && now.Open? && s.reader.Some?
      && if Broken(s) then c.verdict(now.given) != Running else s.reader.value.recv + Last(s).left == now.given
  }

  predicate InTurn(c: Codec, s: State) {
    if s.phase.Free? || s.phase.Closed? then Tracks(c, s, StreamOf(c, s.writers))
    else |s.writers| > 0 && InCall(c, s, StreamOf(c, s.writers[..|s.writers| - 1]))
  }

  predicate SameFrames(ws: seq<Writer>, ws': seq<Writer>) {
    |ws| == |ws'| && forall i :: 0 <= i < |ws| ==> ws[i].frame == ws'[i].frame
  }

  lemma {:induction false} SameStream(c: Codec, ws: seq<Writer>, ws': seq<Writer>)
    requires SameFrames(ws, ws')
    ensures StreamOf(c, ws) == StreamOf(c, ws')
  {
    if ws == [] {
    } else {
      SameStream(c, ws[..|ws| - 1], ws'[..|ws| - 1]);
    }
  }

  lemma FramesStay(c: Codec, s: State, e: Event)
    requires Enabled(c, s, e) && !e.Call?
    ensures SameFrames(s.writers, Apply(c, s, e).writers)
  {}

  /** The streams before and after the newest frame stay what they are. */
  lemma StreamsStay(c: Codec, s: State, e: Event)
    requires Enabled(c, s, e) && !e.Call?
    ensures var s' := Apply(c, s, e);
            && |s'.writers| == |s.writers| && StreamOf(c, s'.writers) == StreamOf(c, s.writers)
            && (|s.writers| > 0 ==>
                  && Last(s').frame == Last(s).frame
                  && StreamOf(c, s'.writers[..|s.writers| - 1]) == StreamOf(c, s.writers[..|s.writers| - 1]))
  {
    FramesStay(c, s, e);
    var ws, ws' := s.writers, Apply(c, s, e).writers;
    hide Apply, Enabled;
    SameStream(c, ws, ws');
    if |ws| > 0 { SameStream(c, ws[..|ws| - 1], ws'[..|ws| - 1]); }
  }

  lemma CallInTurn(c: Codec, s: State, data: seq<byte>)
    requires Lawful(c) && s.phase.Free? && InTurn(c, s)
    ensures InTurn(c, Called(c, s, data))
  {
    var s' := Called(c, s, data);
    assert s'.writers[..|s'.writers| - 1] == s.writers;
    var st := StreamOf(c, s.writers);
    if st.Open? { MoreInput(c, st.given, st.given + data); }
    hide Lawful, StreamOf, IsZlibFlush;
  }

  lemma HeaderInTurn(c: Codec, s: State, st: Stream)
    requires Lawful(c) && Enabled(c, s, HeaderDone) && InCall(c, s, st) && s.head + Last(s).left == Last(s).frame
    ensures var s' := Apply(c, s, HeaderDone); |s'.writers| > 0 && InCall(c, s', st)
  {
    hide Lawful, IsZlibFlush;
    SameHeader(c, s.head, Last(s).frame);
  }

  lemma SameHeader(c: Codec, a: seq<byte>, b: seq<byte>)
    requires Lawful(c) && a <= b && c.header(a) != NeedMore
    ensures c.header(b) == c.header(a)
  {
    hide LawfulReads;
  }

  lemma WriterStepInCall(c: Codec, s: State, e: Event, st: Stream)
    requires |s.writers| > 0 && InCall(c, s, st) && Enabled(c, s, e) && WriterStep(e)
    ensures |Apply(c, s, e).writers| > 0 && InCall(c, Apply(c, s, e), st)
  {
    hide After;
  }

  lemma ReadInCall(c: Codec, s: State, e: Event, st: Stream)
    requires |s.writers| > 0 && InCall(c, s, st) && Enabled(c, s, e) && (e.Deliver? || e.Poll?)
    requires !Apply(c, s, e).phase.Free?
    ensures |Apply(c, s, e).writers| > 0 && InCall(c, Apply(c, s, e), st)
  {
    hide After, IsChunk;
  }

  lemma TransferInCall(c: Codec, s: State, k: nat, st: Stream)
    requires |s.writers| > 0 && s.holder == Some(|s.writers| - 1) && InCall(c, s, st) && Enabled(c, s, Transfer(k))
    ensures |Apply(c, s, Transfer(k)).writers| > 0 && InCall(c, Apply(c, s, Transfer(k)), st)
  {
    var left := Last(s).left;
    if s.reader.Some? {
      var recv := s.reader.value.recv;
      assert recv + left[..k] + left[k..] == recv + left;
    }
    hide After, IsAsked;
  }

  /** A call that returns has given the inflater all of its frame, unless that has failed. */
  lemma EndOfCall(c: Codec, s: State, e: Event, st: Stream)
    requires Lawful(c) && |s.writers| > 0 && WriterOk(Last(s)) && InCall(c, s, st) && Enabled(c, s, e)
    requires e.Poll? || e.Fail? || e.Return?
    requires Apply(c, s, e).phase.Free?
    ensures Tracks(c, Apply(c, s, e), After(c, st, Last(s).frame))
  {
    if e.Fail? && !Broken(s) {
      var given := After(c, st, Last(s).frame).given;
      MoreInput(c, s.reader.value.recv, given);
    }
    hide Lawful, IsTail;
  }

  lemma BetweenCalls(c: Codec, s: State, e: Event)
    requires (s.phase.Free? || s.phase.Closed?) && Enabled(c, s, e) && !e.Call? && InTurn(c, s)
    ensures InTurn(c, Apply(c, s, e))
  {
    StreamsStay(c, s, e);
    hide StreamOf;
  }

  lemma InsideInTurn(c: Codec, s: State, e: Event)
    requires Lawful(c) && Inv(c, s) && PlaceOk(c, s) && InTurn(c, s) && Enabled(c, s, e)
    requires !s.phase.Free? && !s.phase.Closed? && !e.Call?
    ensures InTurn(c, Apply(c, s, e))
  {
    StreamsStay(c, s, e);
    var st := StreamOf(c, s.writers[..|s.writers| - 1]);
    assert StreamOf(c, s.writers) == After(c, st, Last(s).frame);
    assert WriterOk(Last(s)) && (s.phase.Heading? ==> s.head + Last(s).left == Last(s).frame);
    InsideGoesOn(c, s, e);
    hide Lawful, PlaceOk, StreamOf, InCall, Tracks, WriterOk;
    if Apply(c, s, e).phase.Free? {
      hide Inv, Apply, Enabled;
      EndOfCall(c, s, e, st);
    } else if e.Transfer? {
      ReadsNewest(c, s, e.k);
      hide Inv, Apply, Enabled;
      TransferInCall(c, s, e.k, st);
    } else {
      hide Inv, Apply, Enabled;
      if WriterStep(e) { WriterStepInCall(c, s, e, st); }
      else if e.HeaderDone? { HeaderInTurn(c, s, st); }
      else { ReadInCall(c, s, e, st); }
    }
  }

  lemma InsideGoesOn(c: Codec, s: State, e: Event)
    requires Enabled(c, s, e) && !e.Call? && !s.phase.Free? && !s.phase.Closed?
    ensures !Apply(c, s, e).phase.Closed?
    ensures if Apply(c, s, e).phase.Free? then e.Poll? || e.Fail? || e.Return?
            else e.Transfer? || WriterStep(e) || e.HeaderDone? || e.Deliver? || e.Poll?
    ensures e.HeaderDone? ==> s.phase.Heading?
  {}

  lemma InTurnStep(c: Codec, s: State, e: Event)
    requires Lawful(c) && Inv(c, s) && PlaceOk(c, s) && InTurn(c, s) && Enabled(c, s, e)
    ensures InTurn(c, Apply(c, s, e))
  {
    assert e.Call? ==> s.phase.Free?;
    hide Lawful, Inv, PlaceOk, InTurn, Enabled;
    if e.Call? { CallInTurn(c, s, e.data); }
    else if s.phase.Free? || s.phase.Closed? { BetweenCalls(c, s, e); }
    else { InsideInTurn(c, s, e); }
  }

  lemma {:induction false} ExecInTurn(c: Codec, s: State, es: seq<Event>)
    requires Lawful(c) && Inv(c, s) && PlaceOk(c, s) && InTurn(c, s) && Exec(c, s, es).Some?
    ensures InTurn(c, Exec(c, s, es).value)
    decreases |es|
  {
    hide Inv, Lawful, Apply, Enabled, PlaceOk, InTurn;
    if es == [] {
    } else {
      InvStep(c, s, es[0]);
      PlaceStep(c, s, es[0]);
      InTurnStep(c, s, es[0]);
      ExecInTurn(c, Apply(c, s, es[0]), es[1..]);
    }
  }

  /** Whether a frame is answerable in its turn, told from the frames alone. */
  predicate StreamAnswerable(c: Codec, st: Stream, data: seq<byte>) {
    match st
    case Fresh =>
      var k := Min(PIPE_BUFFER, |data|);
      (match c.header(data[..k])
       case NeedMore => false
       case Bad => |data| <= PIPE_BUFFER
       case Good => if IsZlibFlush(data) then Drainable(c, data[..k], 0, data[k..]) else |data| <= PIPE_BUFFER)
    case Open(given) => IsZlibFlush(data) && Drainable(c, given, 0, data)
  }

  lemma AnswerableInTurn(c: Codec, s: State, st: Stream, data: seq<byte>)
    requires Lawful(c) && Tracks(c, s, st)
    ensures Answerable(c, s, data) <==> StreamAnswerable(c, st, data)
  {
    if st.Open? && Broken(s) { MoreInput(c, st.given, st.given + data); }
    hide Lawful, BeforeLast, ShortReadAhead;
  }

  /** So whether a Decode can return is settled by the frames of the connection up to this one, however
      the goroutines were scheduled until then. */
  lemma FramesDecide(c: Codec, s: State, data: seq<byte>)
    requires Lawful(c) && Reachable(c, s) && s.phase.Free?
    ensures CanReturn(c, Called(c, s, data)) <==> StreamAnswerable(c, StreamOf(c, s.writers), data)
  {
    ReachablePlace(c, s);
    var es :| Exec(c, START, es) == Some(s);
    InvAtStart(c);
    assert InTurn(c, START) && PlaceOk(c, START);
    hide Lawful, Inv, PlaceOk, Reachable, Called, CanReturn, Answerable, StreamAnswerable, StreamOf, Tracks, Exec;
    ExecInTurn(c, START, es);
    DecodeCanReturnIffAnswerable(c, s, data);
    AnswerableInTurn(c, s, StreamOf(c, s.writers), data);
  }

  // ---------------------------------------------------------------------------- no call runs on

  function WriterWork(w: Writer): nat {
    |w.left| + (if w.met then 0 else 1) +
    match w.status case Gate => 3 case Offering => 2 case Finished => 1 case Signalled => 0
  }

  function WritersWork(ws: seq<Writer>): nat {
    if ws == [] then 0 else WriterWork(ws[0]) + WritersWork(ws[1..])
  }

  lemma {:induction false} WritersWorkAfter(ws: seq<Writer>, i: nat, w: Writer)
    requires i < |ws|
    ensures WritersWork(ws[i := w]) + WriterWork(ws[i]) == WritersWork(ws) + WriterWork(w)
    decreases i
  {
    if i == 0 {
      assert ws[0 := w][1..] == ws[1..];
    } else {
      WritersWorkAfter(ws[1..], i - 1, w);
      assert ws[i := w][1..] == ws[1..][i - 1 := w];
    }
  }

  /** The output that this call can still come to. */
  function OutputAhead(c: Codec, s: State): nat {
    if |s.writers| == 0 || Broken(s) then 0
    else if s.phase.Heading? then |c.output(s.head + Last(s).left)|
    else if (s.phase.Reading? || s.phase.Polling?) && s.reader.Some? then
      Minus(|c.output(s.reader.value.recv + Last(s).left)|, s.reader.value.emitted)
    else 0
  }

  /** An upper bound on the steps that are left to a call and its writers. */
  function Work(c: Codec, s: State): nat {
    WritersWork(s.writers) + 2 * OutputAhead(c, s) +
    match s.phase
    case Heading => 3 case Polling(_) => 3 case Reading(_) => 2 case AwaitNil => 2 case AwaitErr => 2
    case Free => 0 case Closed => 0
  }

  predicate Inside(e: Event) { !e.Call? && !e.Close? }

  lemma WriterWorkGoesDown(c: Codec, s: State, e: Event)
    requires Enabled(c, s, e) && WriterStep(e)
    ensures Work(c, Apply(c, s, e)) < Work(c, s)
  {
    var s' := Apply(c, s, e);
    assert s'.writers == s.writers[e.i := s'.writers[e.i]] && e.i < |s.writers|;
    assert s'.writers[e.i].left == s.writers[e.i].left && WriterWork(s'.writers[e.i]) < WriterWork(s.writers[e.i]);
    assert OutputAhead(c, s') == OutputAhead(c, s) && s'.phase == s.phase;
    hide Apply, Enabled, Inv, OutputAhead, WriterWork;
    WritersWorkAfter(s.writers, e.i, s'.writers[e.i]);
  }

  lemma TransferKeepsAhead(c: Codec, s: State, k: nat)
    requires |s.writers| > 0 && s.holder == Some(|s.writers| - 1) && Enabled(c, s, Transfer(k)) && !Broken(s)
    requires s.phase.Heading? ==> s.reader.None?
    ensures OutputAhead(c, Apply(c, s, Transfer(k))) == OutputAhead(c, s)
  {
    var left := Last(s).left;
    var base := if s.phase.Heading? then s.head else s.reader.value.recv;
    assert base + left[..k] + left[k..] == base + left;
    hide IsAsked;
  }

  lemma TransferWorkGoesDown(c: Codec, s: State, k: nat)
    requires LawfulInput(c) && Inv(c, s) && Enabled(c, s, Transfer(k))
    ensures Work(c, Apply(c, s, Transfer(k))) < Work(c, s)
  {
    hide Inv, WritersWork, LawfulInput, OutputAhead, Apply, Enabled, WriterWork;
    ReadsNewest(c, s, k);
    TransferShrinks(c, s, k);
    if s.phase.Heading? { HeadingHasNoReader(c, s); }
    TransferKeepsAhead(c, s, k);
    var s' := Apply(c, s, Transfer(k));
    WritersWorkAfter(s.writers, |s.writers| - 1, Last(s'));
  }

  lemma HeadingHasNoReader(c: Codec, s: State)
    requires Inv(c, s) && s.phase.Heading?
    ensures s.reader.None?
  {}

  lemma TransferShrinks(c: Codec, s: State, k: nat)
    requires LawfulInput(c) && |s.writers| > 0 && s.holder == Some(|s.writers| - 1) && Enabled(c, s, Transfer(k))
    ensures var s' := Apply(c, s, Transfer(k));
            && |s'.writers| == |s.writers| && s'.writers == s.writers[|s.writers| - 1 := Last(s')]
            && s'.phase == s.phase
            && WriterWork(Last(s')) < WriterWork(Last(s))
  {
    assert IsAsked(c, s, Last(s).left, k);
  }

  lemma DeliverShrinksAhead(c: Codec, s: State, n: nat)
    requires Lawful(c) && PhaseOk(s) && Enabled(c, s, Deliver(n))
    ensures OutputAhead(c, Apply(c, s, Deliver(n))) < OutputAhead(c, s)
  {
    var recv := s.reader.value.recv;
    assert 1 <= n && |s.writers| > 0 && s.reader.value.emitted + n <= |c.output(recv)|;
    MoreInput(c, recv, recv + Last(s).left);
    hide IsZlibFlush, Limit, Lawful, PhaseOk;
  }

  lemma OthersKeepAhead(c: Codec, s: State, e: Event)
    requires PhaseOk(s) && Enabled(c, s, e) && (e.Poll? || e.HeaderDone?)
    ensures OutputAhead(c, Apply(c, s, e)) <= OutputAhead(c, s)
  {
    hide IsZlibFlush;
  }

  lemma ReadWorkGoesDown(c: Codec, s: State, e: Event)
    requires Lawful(c) && PhaseOk(s) && Enabled(c, s, e) && Inside(e) && !WriterStep(e) && !e.Transfer?
    ensures Work(c, Apply(c, s, e)) < Work(c, s)
  {
    if e.Deliver? {
      DeliverShrinksAhead(c, s, e.n);
    } else if e.Poll? || e.HeaderDone? {
      OthersKeepAhead(c, s, e);
    } else {
      NoneIsAhead(c, s, e);
    }
    hide WritersWork, IsZlibFlush, OutputAhead, Lawful, IsChunk, IsTail, PhaseOk;
  }

  lemma NoneIsAhead(c: Codec, s: State, e: Event)
    requires Enabled(c, s, e) && (e.Fail? || e.Return?)
    ensures OutputAhead(c, Apply(c, s, e)) == 0
  {}

  /** Nothing goes on for ever between two calls: the steps of a call and its writers are bounded. */
  lemma {:induction false} DecodingIsBounded(c: Codec, s: State, es: seq<Event>)
    requires Lawful(c) && Inv(c, s) && Exec(c, s, es).Some? && forall i :: 0 <= i < |es| ==> Inside(es[i])
    ensures |es| <= Work(c, s)
    decreases |es|
  {
    if es == [] {
    } else {
      WorkGoesDown(c, s, es[0]);
      InvStep(c, s, es[0]);
      hide Inv, Lawful, Work;
      DecodingIsBounded(c, Apply(c, s, es[0]), es[1..]);
    }
  }

  lemma WorkGoesDown(c: Codec, s: State, e: Event)
    requires Lawful(c) && Inv(c, s) && Enabled(c, s, e) && Inside(e)
    ensures Work(c, Apply(c, s, e)) < Work(c, s)
  {
    assert PhaseOk(s);
    hide Inv, Enabled, Apply, Work;
    if WriterStep(e) { WriterWorkGoesDown(c, s, e); }
    else if e.Transfer? { TransferWorkGoesDown(c, s, e.k); }
    else { ReadWorkGoesDown(c, s, e); }
  }
}
