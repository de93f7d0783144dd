/** The two WebSocket pumps of proxy/internals/handlers/ws.go, frame by frame. */
module WsRelay {
  import opened Common

  datatype Opcode = Continuation | Text | Binary | Close | Ping | Pong | Reserved(n: nat)

  type Key = k: seq<byte> | |k| == 4 witness [0, 0, 0, 0]

  datatype Frame = Frame(fin: bool, rsv: nat, opcode: Opcode, mask: Option<Key>, payload: seq<byte>)

  // ------------------------------------------------------------------------------- masking

  /** Section 5.3 of RFC 6455. */
  function Masked(payload: seq<byte>, key: Key): (r: seq<byte>)
    ensures |r| == |payload|
  {
    seq(|payload|, i requires 0 <= i < |payload| => payload[i] ^ key[i % 4])
  }

  lemma MaskingTwice(payload: seq<byte>, key: Key)
    ensures Masked(Masked(payload, key), key) == payload
  {
    forall i | 0 <= i < |payload| ensures Masked(Masked(payload, key), key)[i] == payload[i] {
      XorTwice(payload[i], key[i % 4]);
    }
  }

  lemma XorTwice(a: byte, b: byte)
    ensures (a ^ b) ^ b == a
  {}

  /** ws.Cipher: masks a buffer in place. */
  method Cipher(payload: array<byte>, key: Key)
    modifies payload
    ensures payload[..] == Masked(old(payload[..]), key)
  {
    var i := 0;
    while i < payload.Length
      invariant 0 <= i <= payload.Length
      invariant forall j :: 0 <= j < i ==> payload[j] == old(payload[j]) ^ key[j % 4]
      invariant forall j :: i <= j < payload.Length ==> payload[j] == old(payload[j])
    {
      payload[i] := payload[i] ^ key[i % 4];
      i := i + 1;
    }
  }

  /** What a receiver of the frame takes its payload to be. */
  function Plain(f: Frame): seq<byte> {
    if f.mask.Some? then Masked(f.payload, f.mask.value) else f.payload
  }

  // --------------------------------------------------------------------------------- relays

  /** The hooks on the n-th frame of a direction; None stands for an error. */
  type Hook = (nat, seq<byte>) -> Option<seq<byte>>

  function Hooked(hook: Hook, n: nat, payload: seq<byte>): seq<byte> {
    match hook(n, payload) case Some(p) => p case None => payload
  }

  /** wsutil.WriteClientMessage: one final frame, masked with a fresh key. */
  function ClientFrame(opcode: Opcode, payload: seq<byte>, key: Key): Frame {
    Frame(true, 0, opcode, Some(key), Masked(payload, key))
  }

  /** wsutil.WriteServerMessage: one final frame, not masked. */
  function ServerFrame(opcode: Opcode, payload: seq<byte>): Frame { Frame(true, 0, opcode, None, payload) }

  /** What Decode says about the n-th frame: an error, nothing yet, or inflated bytes. */
  datatype Inspection = Undecodable | Silent | Inflated(bytes: seq<byte>)

  /** What a pump writes for the n-th frame it reads. */
  type Copier = (Frame, nat) -> Frame

  /** bot -> Discord: unmask, tamper, mask again. */
  function ForDiscord(hook: Hook, keys: nat -> Key): Copier {
    (f: Frame, n: nat) => ClientFrame(f.opcode, Hooked(hook, n, Plain(f)), keys(n))
  }

  function Forwarded(hook: Hook, compressed: bool, f: Frame, n: nat): seq<byte> {
    if compressed && f.opcode.Binary? then f.payload else Hooked(hook, n, f.payload)
  }

  /** Discord -> bot: the payload is taken as it came, without unmasking. */
  function ForTheBot(hook: Hook, compressed: bool): Copier {
    (f: Frame, n: nat) => ServerFrame(f.opcode, Forwarded(hook, compressed, f, n))
  }

  /** What is written while frames n, n + 1, ... are read; the pump returns after a Close. */
  function Relay(copier: Copier, frames: seq<Frame>, n: nat): seq<Frame> {
    if frames == [] then []
    else [copier(frames[0], n)] + if frames[0].opcode.Close? then [] else Relay(copier, frames[1..], n + 1)
  }

  function ToDiscord(hook: Hook, keys: nat -> Key, frames: seq<Frame>, n: nat): seq<Frame> {
    Relay(ForDiscord(hook, keys), frames, n)
  }

  function ToBot(hook: Hook, compressed: bool, frames: seq<Frame>, n: nat): seq<Frame> {
    Relay(ForTheBot(hook, compressed), frames, n)
  }

  /** The frames up to and including the first Close. */
  function UpToClose(frames: seq<Frame>): seq<Frame> {
    if frames == [] then []
    else [frames[0]] + if frames[0].opcode.Close? then [] else UpToClose(frames[1..])
  }

  lemma {:induction false} RelayStopsAtClose(copier: Copier, frames: seq<Frame>, n: nat)
    ensures |Relay(copier, frames, n)| == |UpToClose(frames)| <= |frames|
    decreases |frames|
  {
    if frames == [] {
    } else {
      RelayStopsAtClose(copier, frames[1..], n + 1);
    }
  }

  lemma {:induction false} RelayIsFrameByFrame(copier: Copier, frames: seq<Frame>, n: nat, k: nat)
    requires k < |UpToClose(frames)|
    ensures k < |frames| && k < |Relay(copier, frames, n)|
    ensures Relay(copier, frames, n)[k] == copier(frames[k], n + k)
    decreases k
  {
    RelayStopsAtClose(copier, frames, n);
    if k == 0 {
    } else {
      RelayIsFrameByFrame(copier, frames[1..], n + 1, k - 1);
      assert Relay(copier, frames, n)[k] == Relay(copier, frames[1..], n + 1)[k - 1];
    }
  }

  /** One turn of a pump's loop. */
  lemma RelayTurns(copier: Copier, frames: seq<Frame>, n: nat, written: seq<Frame>)
    requires n < |frames|
    requires Relay(copier, frames, 0) == written + Relay(copier, frames[n..], n)
    ensures Relay(copier, frames, 0) == written + [copier(frames[n], n)]
              + if frames[n].opcode.Close? then [] else Relay(copier, frames[n + 1..], n + 1)
  {
    assert frames[n..][0] == frames[n] && frames[n..][1..] == frames[n + 1..];
  }

  /** What a frame says, byte by byte. */
  lemma PlainByteByByte(f: Frame)
    ensures |Plain(f)| == |f.payload|
    ensures forall i :: 0 <= i < |f.payload| ==>
              Plain(f)[i] == if f.mask.Some? then f.payload[i] ^ f.mask.value[i % 4] else f.payload[i]
  {}

  lemma RelayEndsAtClose(frames: seq<Frame>, n: nat)
    requires n == |UpToClose(frames)|
    ensures n <= |frames| && (n < |frames| ==> n > 0 && frames[n - 1].opcode.Close?)
    ensures forall k :: 0 <= k < n - 1 ==> !frames[k].opcode.Close?
  {
    if frames == [] {
    } else if frames[0].opcode.Close? {
    } else {
      RelayEndsAtClose(frames[1..], n - 1);
      assert forall k :: 0 < k < |frames| ==> frames[k] == frames[1..][k - 1];
    }
  }

  /** What a frame copied for Discord looks like on the wire: final, no extension bits, masked with
      the fresh key (section 5.1 of RFC 6455). */
  lemma MaskedCopy(hook: Hook, keys: nat -> Key, f: Frame, n: nat)
    ensures var out := ForDiscord(hook, keys)(f, n);
            var tampered := match hook(n, Plain(f)) case Some(p) => p case None => Plain(f);
            && out.fin && out.rsv == 0 && out.opcode == f.opcode && out.mask == Some(keys(n))
            && Plain(out) == tampered && |out.payload| == |tampered|
            && forall i :: 0 <= i < |tampered| ==> out.payload[i] == tampered[i] ^ keys(n)[i % 4]
  {
    MaskingTwice(Hooked(hook, n, Plain(f)), keys(n));
  }

  /** Whatever the keys, Discord's unmasked view of frame k is the bot's, rewritten by the tamperer,
      or unchanged where the tamperer failed; and it is a frame that a client may send. */
  lemma DiscordSeesTheBotsFrames(hook: Hook, keys: nat -> Key, frames: seq<Frame>, n: nat)
    ensures |ToDiscord(hook, keys, frames, n)| == |UpToClose(frames)| <= |frames|
    ensures forall k :: 0 <= k < |UpToClose(frames)| ==>
              var out := ToDiscord(hook, keys, frames, n)[k];
              var plain := Plain(frames[k]);
              var tampered := match hook(n + k, plain) case Some(p) => p case None => plain;
              && out.fin && out.rsv == 0 && out.opcode == frames[k].opcode && out.mask == Some(keys(n + k))
              && Plain(out) == tampered && |out.payload| == |tampered|
              && forall i :: 0 <= i < |tampered| ==> out.payload[i] == tampered[i] ^ keys(n + k)[i % 4]
  {
    RelayStopsAtClose(ForDiscord(hook, keys), frames, n);
    forall k | 0 <= k < |UpToClose(frames)|
      ensures var out := ToDiscord(hook, keys, frames, n)[k];
              var plain := Plain(frames[k]);
              var tampered := match hook(n + k, plain) case Some(p) => p case None => plain;
              && out.fin && out.rsv == 0 && out.opcode == frames[k].opcode && out.mask == Some(keys(n + k))
              && Plain(out) == tampered && |out.payload| == |tampered|
              && forall i :: 0 <= i < |tampered| ==> out.payload[i] == tampered[i] ^ keys(n + k)[i % 4]
    {
      RelayIsFrameByFrame(ForDiscord(hook, keys), frames, n, k);
      hide ForDiscord, Plain, Relay;
      MaskedCopy(hook, keys, frames[k], n + k);
    }
  }

  /** The bot sees Discord's payloads as rewritten by the tamperer, except that on a compressed
      stream binary payloads arrive as they were sent, whatever tamperer or decoder say.  The frames
      are final and not masked, as a server's must be. */
  lemma BotSeesDiscordsFrames(hook: Hook, compressed: bool, frames: seq<Frame>, n: nat)
    ensures |ToBot(hook, compressed, frames, n)| == |UpToClose(frames)| <= |frames|
    ensures forall k :: 0 <= k < |UpToClose(frames)| ==>
              var out, f := ToBot(hook, compressed, frames, n)[k], frames[k];
              && out.fin && out.rsv == 0 && out.opcode == f.opcode && out.mask.None?
              && out.payload == if compressed && f.opcode.Binary? then f.payload
                                else match hook(n + k, f.payload) case Some(p) => p case None => f.payload
  {
    RelayStopsAtClose(ForTheBot(hook, compressed), frames, n);
    forall k | 0 <= k < |UpToClose(frames)|
      ensures var out, f := ToBot(hook, compressed, frames, n)[k], frames[k];
              && out.fin && out.rsv == 0 && out.opcode == f.opcode && out.mask.None?
              && out.payload == if compressed && f.opcode.Binary? then f.payload
                                else match hook(n + k, f.payload) case Some(p) => p case None => f.payload
    {
      RelayIsFrameByFrame(ForTheBot(hook, compressed), frames, n, k);
    }
  }

  predicate PassesThrough(hook: Hook, n: nat, payload: seq<byte>) { Hooked(hook, n, payload) == payload }

  lemma {:induction false} SameCopiesSameRelay(a: Copier, b: Copier, frames: seq<Frame>, n: nat)
    requires forall f, k: nat :: a(f, k) == b(f, k)
    ensures Relay(a, frames, n) == Relay(b, frames, n)
    decreases |frames|
  {
    if frames == [] {
    } else {
      SameCopiesSameRelay(a, b, frames[1..], n + 1);
    }
  }

  /** Logging and Nop return the payload that they are given, so both write the same frames. */
  lemma PassingTamperersRelayAlike(a: Hook, b: Hook, keys: nat -> Key, compressed: bool, frames: seq<Frame>, n: nat)
    requires forall k, p :: PassesThrough(a, k, p) && PassesThrough(b, k, p)
    ensures ToDiscord(a, keys, frames, n) == ToDiscord(b, keys, frames, n)
    ensures ToBot(a, compressed, frames, n) == ToBot(b, compressed, frames, n)
  {
    forall f, k: nat
      ensures ForDiscord(a, keys)(f, k) == ForDiscord(b, keys)(f, k)
      ensures ForTheBot(a, compressed)(f, k) == ForTheBot(b, compressed)(f, k)
    {
      assert PassesThrough(a, k, Plain(f)) && PassesThrough(b, k, Plain(f));
      assert PassesThrough(a, k, f.payload) && PassesThrough(b, k, f.payload);
    }
    hide ForDiscord, ForTheBot;
    SameCopiesSameRelay(ForDiscord(a, keys), ForDiscord(b, keys), frames, n);
    SameCopiesSameRelay(ForTheBot(a, compressed), ForTheBot(b, compressed), frames, n);
  }

  lemma XorKeepsIff(a: byte, b: byte)
    ensures a ^ b == a <==> b == 0
  {}

  lemma {:induction false} MaskChangesNothingIff(payload: seq<byte>, key: Key)
    ensures Masked(payload, key) == payload <==> forall i :: 0 <= i < Min(4, |payload|) ==> key[i] == 0
  {
    if Masked(payload, key) == payload {
      forall i | 0 <= i < Min(4, |payload|) ensures key[i] == 0 {
        assert Masked(payload, key)[i] == payload[i] ^ key[i];
        XorKeepsIff(payload[i], key[i]);
      }
    }
    if forall i :: 0 <= i < Min(4, |payload|) ==> key[i] == 0 {
      forall i | 0 <= i < |payload| ensures Masked(payload, key)[i] == payload[i] {
        assert 0 <= i % 4 < Min(4, |payload|);
        XorKeepsIff(payload[i], key[i % 4]);
      }
    }
  }

  /** A server must not mask.  If one does, its frame reaches the bot with the payload that it meant
      exactly when those bytes of the key that meet the payload are zero. */
  lemma ServerMaskSurvivesIff(hook: Hook, compressed: bool, f: Frame, n: nat)
    requires PassesThrough(hook, n, f.payload) && f.mask.Some?
    ensures Plain(ToBot(hook, compressed, [f], n)[0]) == Plain(f) <==>
            forall i :: 0 <= i < Min(4, |f.payload|) ==> f.mask.value[i] == 0
  {
    MaskChangesNothingIff(f.payload, f.mask.value);
    assert ToBot(hook, compressed, [f], n)[0] == ServerFrame(f.opcode, f.payload);
  }

  // ----------------------------------------------------------------------------- reassembly

  datatype Message = Message(opcode: Opcode, payload: seq<byte>)

  predicate IsControl(o: Opcode) { o.Close? || o.Ping? || o.Pong? }

  function Before(m: Message, rest: Option<seq<Message>>): Option<seq<Message>> {
    match rest case Some(ms) => Some([m] + ms) case None => None
  }

  /** Section 5.4 of RFC 6455: the messages that a receiver makes of a complete stream of frames, or
      None where it must fail the connection.  `open` is the message being assembled. */
  function Reassemble(frames: seq<Frame>, open: Option<Message>): Option<seq<Message>> {
    if frames == [] then if open.None? then Some([]) else None
    else
      var f, rest := frames[0], frames[1..];
      if f.rsv != 0 then None
      else if IsControl(f.opcode) then
        if f.fin then Before(Message(f.opcode, Plain(f)), Reassemble(rest, open)) else None
      else if f.opcode.Continuation? then
        if open.None? then None
        else
          var m := open.value.(payload := open.value.payload + Plain(f));
          if f.fin then Before(m, Reassemble(rest, None)) else Reassemble(rest, Some(m))
      else if f.opcode.Reserved? || open.Some? then None
      else
        var m := Message(f.opcode, Plain(f));
        if f.fin then Before(m, Reassemble(rest, None)) else Reassemble(rest, Some(m))
  }

  predicate Unfragmented(frames: seq<Frame>) { forall k :: 0 <= k < |frames| ==> frames[k].fin }

  /** A pump whose tamperer changes nothing: FIN and RSV are its own, the rest is what it read. */
  predicate Repeats(copier: Copier, frames: seq<Frame>, n: nat) {
    forall k :: 0 <= k < |frames| ==>
      var g := copier(frames[k], n + k);
      g.fin && g.rsv == 0 && g.opcode == frames[k].opcode && Plain(g) == Plain(frames[k])
  }

  lemma RepeatsAhead(copier: Copier, frames: seq<Frame>, n: nat)
    requires frames != [] && Repeats(copier, frames, n)
    ensures Repeats(copier, frames[1..], n + 1)
    ensures var g := Relay(copier, frames, n)[0];
            g.fin && g.rsv == 0 && g.opcode == frames[0].opcode && Plain(g) == Plain(frames[0])
  {
    forall k | 0 <= k < |frames[1..]|
      ensures var g := copier(frames[1..][k], n + 1 + k);
              g.fin && g.rsv == 0 && g.opcode == frames[1..][k].opcode && Plain(g) == Plain(frames[1..][k])
    {
      assert frames[1..][k] == frames[k + 1] && n + 1 + k == n + (k + 1);
    }
    assert copier(frames[0], n + 0) == Relay(copier, frames, n)[0];
  }

  /** Inside a fragmented message the copies start a new message, and a continuation then fails. */
  lemma {:induction false} CopiesOfFragmentsFail(copier: Copier, frames: seq<Frame>, n: nat, open: Message)
    requires UpToClose(frames) == frames && Reassemble(frames, Some(open)).Some? && Repeats(copier, frames, n)
    ensures Reassemble(Relay(copier, frames, n), None).None?
    decreases |frames|
  {
    var f, rest := frames[0], frames[1..];
    var out := Relay(copier, frames, n);
    RepeatsAhead(copier, frames, n);
    CloseIsLast(frames);
    if !f.opcode.Close? {
      assert out[1..] == Relay(copier, rest, n + 1);
      if IsControl(f.opcode) {
        CopiesOfFragmentsFail(copier, rest, n + 1, open);
      }
    }
  }

  lemma CloseIsLast(frames: seq<Frame>)
    requires frames != [] && UpToClose(frames) == frames
    ensures if frames[0].opcode.Close? then frames[1..] == [] else UpToClose(frames[1..]) == frames[1..]
  {
    assert UpToClose(frames)[1..] == if frames[0].opcode.Close? then [] else UpToClose(frames[1..]);
  }

  /** FIN is not passed on.  So with a tamperer that changes nothing, a stream that its receiver could
      reassemble can still be, into the same messages, exactly when no message was fragmented. */
  lemma {:induction false} ReassemblyIffUnfragmented(copier: Copier, frames: seq<Frame>, n: nat)
    requires UpToClose(frames) == frames && Reassemble(frames, None).Some? && Repeats(copier, frames, n)
    ensures Reassemble(Relay(copier, frames, n), None) == Reassemble(frames, None) <==> Unfragmented(frames)
    decreases |frames|
  {
    if frames == [] {
    } else {
      var f, rest := frames[0], frames[1..];
      var out := Relay(copier, frames, n);
      RepeatsAhead(copier, frames, n);
      CloseIsLast(frames);
      UnfragmentedAhead(frames);
      assert out[1..] == if f.opcode.Close? then [] else Relay(copier, rest, n + 1);
      hide Relay, Repeats, UpToClose, Unfragmented;
      if f.fin {
        WholeMessageFirst(frames, out);
        hide Reassemble;
        if !f.opcode.Close? { ReassemblyIffUnfragmented(copier, rest, n + 1); }
      } else {
        FragmentFirst(frames, out);
        hide Reassemble;
        CopiesOfFragmentsFail(copier, rest, n + 1, Message(f.opcode, Plain(f)));
      }
    }
  }

  lemma WholeMessageFirst(frames: seq<Frame>, out: seq<Frame>)
    requires frames != [] && out != [] && Reassemble(frames, None).Some?
    requires frames[0].fin && out[0].fin && out[0].rsv == 0
    requires out[0].opcode == frames[0].opcode && Plain(out[0]) == Plain(frames[0])
    ensures Reassemble(frames[1..], None).Some?
    ensures Reassemble(out, None) == Reassemble(frames, None)
            <==> Reassemble(out[1..], None) == Reassemble(frames[1..], None)
  {
    BeforeIsInjective(Message(frames[0].opcode, Plain(frames[0])), Reassemble(out[1..], None),
      Reassemble(frames[1..], None));
  }

  lemma FragmentFirst(frames: seq<Frame>, out: seq<Frame>)
    requires frames != [] && out != [] && Reassemble(frames, None).Some?
    requires !frames[0].fin && out[0].fin && out[0].rsv == 0 && out[0].opcode == frames[0].opcode
    ensures !frames[0].opcode.Close?
    ensures Reassemble(frames[1..], Some(Message(frames[0].opcode, Plain(frames[0])))).Some?
    ensures Reassemble(out[1..], None).None? ==> Reassemble(out, None).None?
  {}

  lemma UnfragmentedAhead(frames: seq<Frame>)
    requires frames != []
    ensures Unfragmented(frames) <==> frames[0].fin && Unfragmented(frames[1..])
  {
    assert frames == [frames[0]] + frames[1..];
  }

  /** Both pumps repeat what they read when the tamperer changes nothing, Discord's as long as it
      does not mask. */
  lemma PumpsReassembleIffUnfragmented(hook: Hook, keys: nat -> Key, compressed: bool, frames: seq<Frame>)
    requires UpToClose(frames) == frames && Reassemble(frames, None).Some?
    requires forall k, p :: PassesThrough(hook, k, p)
    ensures Reassemble(ToDiscord(hook, keys, frames, 0), None) == Reassemble(frames, None) <==> Unfragmented(frames)
    ensures (forall k :: 0 <= k < |frames| ==> frames[k].mask.None?) ==>
              (Reassemble(ToBot(hook, compressed, frames, 0), None) == Reassemble(frames, None) <==>
               Unfragmented(frames))
  {
    forall k | 0 <= k < |frames|
      ensures var g := ForDiscord(hook, keys)(frames[k], 0 + k);
              g.fin && g.rsv == 0 && g.opcode == frames[k].opcode && Plain(g) == Plain(frames[k])
    {
      DiscordsCopy(hook, keys, frames[k], k);
    }
    assert Repeats(ForDiscord(hook, keys), frames, 0);
    ReassemblyIffUnfragmented(ForDiscord(hook, keys), frames, 0);
    if forall k :: 0 <= k < |frames| ==> frames[k].mask.None? {
      forall k | 0 <= k < |frames|
        ensures var g := ForTheBot(hook, compressed)(frames[k], 0 + k);
                g.fin && g.rsv == 0 && g.opcode == frames[k].opcode && Plain(g) == Plain(frames[k])
      {
        BotsCopy(hook, compressed, frames[k], k);
      }
      assert Repeats(ForTheBot(hook, compressed), frames, 0);
      ReassemblyIffUnfragmented(ForTheBot(hook, compressed), frames, 0);
    }
  }

  lemma DiscordsCopy(hook: Hook, keys: nat -> Key, f: Frame, n: nat)
    requires PassesThrough(hook, n, Plain(f))
    ensures var g := ForDiscord(hook, keys)(f, n);
            g.fin && g.rsv == 0 && g.opcode == f.opcode && Plain(g) == Plain(f)
  {
    MaskingTwice(Plain(f), keys(n));
  }

  lemma BotsCopy(hook: Hook, compressed: bool, f: Frame, n: nat)
    requires PassesThrough(hook, n, f.payload) && f.mask.None?
    ensures var g := ForTheBot(hook, compressed)(f, n);
            g.fin && g.rsv == 0 && g.opcode == f.opcode && Plain(g) == Plain(f)
  {}

  lemma BeforeIsInjective(m: Message, a: Option<seq<Message>>, b: Option<seq<Message>>)
    ensures Before(m, a) == Before(m, b) <==> a == b
  {
    if a.Some? && b.Some? && Before(m, a) == Before(m, b) {
      assert Before(m, a).value[1..] == a.value && Before(m, b).value[1..] == b.value;
    }
  }

  // ------------------------------------------------------------------------------ the loops

  /** The first goroutine: read, unmask a copy, tamper, write masked; it returns after a Close. */
  method PumpToDiscord(hook: Hook, keys: nat -> Key, frames: seq<Frame>) returns (written: seq<Frame>)
    ensures written == ToDiscord(hook, keys, frames, 0)
    ensures |written| <= |frames|
    ensures |written| < |frames| ==> written != [] && frames[|written| - 1].opcode.Close?
    ensures forall k :: 0 <= k < |written| - 1 ==> !frames[k].opcode.Close?
    ensures forall k :: 0 <= k < |written| ==>
              var plain := Plain(frames[k]);
              var tampered := match hook(k, plain) case Some(p) => p case None => plain;
              && written[k].fin && written[k].rsv == 0 && written[k].opcode == frames[k].opcode
              && written[k].mask == Some(keys(k)) && |written[k].payload| == |tampered|
              && forall i :: 0 <= i < |tampered| ==> written[k].payload[i] == tampered[i] ^ keys(k)[i % 4]
  {
    DiscordSeesTheBotsFrames(hook, keys, frames, 0);
    RelayEndsAtClose(frames, |UpToClose(frames)|);
    written := PumpClientFrames(hook, keys, frames);
  }

  method PumpClientFrames(hook: Hook, keys: nat -> Key, frames: seq<Frame>) returns (written: seq<Frame>)
    ensures written == ToDiscord(hook, keys, frames, 0)
  {
    written := [];
    var n := 0;
    while n < |frames|
      invariant n <= |frames|
      invariant ToDiscord(hook, keys, frames, 0) == written + ToDiscord(hook, keys, frames[n..], n)
    {
      var frame := frames[n];
      RelayTurns(ForDiscord(hook, keys), frames, n, written);
      var payload := frame.payload;
      if frame.mask.Some? {
        var copy := new byte[|payload|](i requires 0 <= i < |payload| => payload[i]);
        assert copy[..] == payload;
        Cipher(copy, frame.mask.value);
        payload := copy[..];
      }
      var tampered := hook(n, payload);
      var final := if tampered.Some? then tampered.value else payload;
      written := written + [ClientFrame(frame.opcode, final, keys(n))];
      if frame.opcode.Close? {
        return;
      }
      n := n + 1;
    }
  }

  /** What the tamperer is shown of the k-th frame. */
  function Shown(compressed: bool, decode: nat -> Inspection, f: Frame, k: nat): seq<byte> {
    if compressed && f.opcode.Binary? && decode(k).Inflated? then decode(k).bytes else f.payload
  }

  /** What the second goroutine does with one frame: on a compressed stream the tamperer is shown
      what Decode returned, and the original payload is kept. */
  method Inspect(hook: Hook, compressed: bool, decode: nat -> Inspection, frame: Frame, n: nat)
    returns (outbound: seq<byte>, shown: seq<byte>)
    ensures outbound == Forwarded(hook, compressed, frame, n)
    ensures shown == Shown(compressed, decode, frame, n)
  {
    outbound, shown := frame.payload, frame.payload;
    if compressed && frame.opcode.Binary? {
      var inspected := decode(n);
      if inspected.Inflated? {
        shown := inspected.bytes;
      }
    } else {
      var tampered := hook(n, frame.payload);
      if tampered.Some? {
        outbound := tampered.value;
      }
    }
  }

  /** The second goroutine; `seen` lists what the tamperer was shown: of a compressed frame what
      Decode returned, if it returned anything. */
  method PumpToBot(hook: Hook, compressed: bool, decode: nat -> Inspection, frames: seq<Frame>)
    returns (written: seq<Frame>, seen: seq<seq<byte>>)
    ensures written == ToBot(hook, compressed, frames, 0) && |seen| == |written| <= |frames|
    ensures |written| < |frames| ==> written != [] && frames[|written| - 1].opcode.Close?
    ensures forall k :: 0 <= k < |written| - 1 ==> !frames[k].opcode.Close?
    ensures forall k :: 0 <= k < |seen| ==>
              seen[k] == if compressed && frames[k].opcode.Binary? && decode(k).Inflated? then decode(k).bytes
                         else frames[k].payload
    ensures forall k :: 0 <= k < |written| ==>
              && written[k].fin && written[k].rsv == 0 && written[k].opcode == frames[k].opcode
              && written[k].mask.None?
              && written[k].payload ==
                   if compressed && frames[k].opcode.Binary? then frames[k].payload
                   else match hook(k, frames[k].payload) case Some(p) => p case None => frames[k].payload
  {
    BotSeesDiscordsFrames(hook, compressed, frames, 0);
    RelayEndsAtClose(frames, |UpToClose(frames)|);
    hide ToBot;
    written, seen := PumpServerFrames(hook, compressed, decode, frames);
  }

  method PumpServerFrames(hook: Hook, compressed: bool, decode: nat -> Inspection, frames: seq<Frame>)
    returns (written: seq<Frame>, seen: seq<seq<byte>>)
    ensures written == ToBot(hook, compressed, frames, 0) && |seen| == |written| <= |frames|
    ensures forall k :: 0 <= k < |seen| ==> seen[k] == Shown(compressed, decode, frames[k], k)
  {
    written, seen := [], [];
    var n := 0;
    while n < |frames|
      invariant n <= |frames| && |seen| == |written| == n
      invariant ToBot(hook, compressed, frames, 0) == written + ToBot(hook, compressed, frames[n..], n)
      invariant forall k :: 0 <= k < |seen| ==> seen[k] == Shown(compressed, decode, frames[k], k)
    {
      RelayTurns(ForTheBot(hook, compressed), frames, n, written);
      var outbound, shown := Inspect(hook, compressed, decode, frames[n], n);
      seen := seen + [shown];
      written := written + [ServerFrame(frames[n].opcode, outbound)];
      if frames[n].opcode.Close? {
        return;
      }
      n := n + 1;
    }
  }
}
