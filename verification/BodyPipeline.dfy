/** The response path of proxy/internals/httpio: DecodeBody shows a readable body to the tamperer
    without spending it, Encode re-frames the response, and the response is written to the client. */
module BodyPipeline {
  import opened Common
  import opened Hosts
  import opened HttpMessages

  const BINARY_TYPES: seq<string> :=
    ["image/", "video/", "audio/", "application/octet-stream", "application/zip", "font/"]

  predicate Contains(s: string, t: string) { t <= s || (s != [] && Contains(s[1..], t)) }

  predicate IsBinary(contentType: string) {
    exists i :: 0 <= i < |BINARY_TYPES| && Contains(LowerCase(contentType), BINARY_TYPES[i])
  }

  function Get(h: Header, key: string): string { if key in h then h[key] else "" }

  function Itoa(n: nat): string {
    (if n < 10 then [] else Itoa(n / 10)) + [(n % 10 + '0' as int) as char]
  }

  lemma NotInFront(s: string, a: string, t: string, b: string)
    requires s == a + t + b && !(t <= s)
    ensures a != [] && s[1..] == a[1..] + t + b
  {
    assert a == [] ==> s == t + b;
  }

  lemma {:induction false} ContainsIff(s: string, t: string)
    ensures Contains(s, t) <==> exists a, b :: s == a + t + b
  {
    if t <= s {
      assert s == [] + t + s[|t|..];
    } else if s == [] {
    } else {
      ContainsIff(s[1..], t);
      if a, b :| s[1..] == a + t + b { assert s == ([s[0]] + a) + t + b; }
      if a, b :| s == a + t + b { NotInFront(s, a, t, b); }
    }
  }

  /** The types whose bodies are left alone, wherever in the header they stand and in whatever case. */
  lemma BinaryTypesAre(contentType: string)
    ensures IsBinary(contentType) <==>
              exists t, a, b ::
                t in {"image/", "video/", "audio/", "application/octet-stream", "application/zip", "font/"}
                && LowerCase(contentType) == a + t + b
  {
    var s := LowerCase(contentType);
    var ts := {"image/", "video/", "audio/", "application/octet-stream", "application/zip", "font/"};
    assert forall i :: 0 <= i < |BINARY_TYPES| ==> BINARY_TYPES[i] in ts;
    assert forall t :: t in ts ==> t in BINARY_TYPES;
    hide LowerCase, Contains;
    forall t ensures Contains(s, t) <==> exists a, b :: s == a + t + b { ContainsIff(s, t); }
  }

  /** The value of a string of decimal digits. */
  function Atoi(s: string): int {
    if s == [] then 0 else 10 * Atoi(s[..|s| - 1]) + (s[|s| - 1] as int - '0' as int)
  }

  lemma ItoaUnfolds(n: nat) returns (digit: char)
    ensures '0' <= digit <= '9' && n == 10 * (n / 10) + (digit as int - '0' as int)
    ensures Itoa(n) == (if n < 10 then "" else Itoa(n / 10)) + [digit]
  {
    digit := (n % 10 + '0' as int) as char;
  }

  lemma AtoiAppends(s: string, c: char)
    ensures Atoi(s + [c]) == 10 * Atoi(s) + (c as int - '0' as int)
  {
    assert (s + [c])[..|s|] == s;
  }

  /** A decimal numeral without leading zeros, of this value. */
  predicate IsNumeral(s: string, n: nat) {
    && Atoi(s) == n && s != [] && (n > 0 ==> s[0] != '0')
    && forall i :: 0 <= i < |s| ==> '0' <= s[i] <= '9'
  }

  lemma NumeralGrows(s: string, m: nat, digit: char)
    requires '0' <= digit <= '9' && IsNumeral(s, m) && m > 0
    ensures IsNumeral(s + [digit], 10 * m + (digit as int - '0' as int))
  {
    AtoiAppends(s, digit);
    hide Atoi;
  }

  lemma OneDigit(digit: char)
    requires '0' <= digit <= '9'
    ensures IsNumeral([digit], digit as int - '0' as int)
  {
    AtoiAppends("", digit);
    assert Atoi("") == 0 && "" + [digit] == [digit];
    hide Atoi;
  }

  /** What Encode writes as a length is the decimal numeral of it. */
  lemma {:induction false} ItoaIsDecimal(n: nat)
    ensures IsNumeral(Itoa(n), n)
  {
    var digit := ItoaUnfolds(n);
    hide Itoa, IsNumeral;
    if n < 10 {
      OneDigit(digit);
      assert "" + [digit] == [digit];
    } else {
      ItoaIsDecimal(n / 10);
      NumeralGrows(Itoa(n / 10), n / 10, digit);
    }
  }

  /** A response as net/http holds it; `verb` is the method of the request it answers. */
  datatype Resp = Resp(
    verb: string,
    status: nat,
    header: Header,
    contentLength: int,
    transferEncoding: seq<string>,
    body: Body)

  predicate StatusAllowsBody(status: nat) { status >= 200 && status != 204 && status != 304 }

  /** Whether a response can have a body at all: section 6.3 of RFC 9112.  The framing in the head of
      an answer to HEAD announces a body that does not follow. */
  predicate AllowsBody(verb: string, status: nat) { verb != "HEAD" && StatusAllowsBody(status) }

  /** http.ReadResponse on a parsed head; the body stays on the connection. */
  function Received(verb: string, head: Head): Resp
    requires head.ResponseHead?
  {
    Resp(verb, head.status, head.header,
         match head.framing case Length(n) => n case Bodiless => 0 case _ => -1,
         if head.framing.Chunked? then ["chunked"] else [],
         if !AllowsBody(verb, head.status) || AtEnd(head.framing) then NoBody else Live(head.framing))
  }

  /** The decompressors: the named Content-Encoding applied to a whole body, or None on an error. */
  type Inflate = (string, seq<byte>) -> Option<seq<byte>>

  datatype Decoded = Nothing | Readable(bytes: seq<byte>) | Unreadable

  function DecodedView(inflate: Inflate, encoding: string, full: seq<byte>): Decoded {
    if full == [] then Nothing
    else if encoding in {"gzip", "deflate", "br"} then
      match inflate(encoding, full) case Some(b) => Readable(b) case None => Unreadable
    else Readable(full)
  }

  /** DecodeBody: the new response, the view, and the connection afterwards. */
  function Decode(inflate: Inflate, r: Resp, src: seq<Item>): (Resp, Decoded, seq<Item>) {
    if r.body.Nil? || IsBinary(Get(r.header, "Content-Type")) then (r, Nothing, src)
    else
      var read := Drain(src, r.body);
      if !read.ok then (r, Unreadable, read.rest)
      else (r.(body := Buffered(read.bytes)), DecodedView(inflate, Get(r.header, "Content-Encoding"), read.bytes),
        read.rest)
  }

  function Reframed(r: Resp, full: seq<byte>): Resp {
    var h := (r.header - {"Transfer-Encoding"})["Content-Length" := Itoa(|full|)];
    r.(header := if full == [] then h - {"Content-Type"} else h,
       contentLength := |full|, transferEncoding := [], body := Buffered(full))
  }

  /** Encode: the new response, whether the body could be read, and the connection afterwards. */
  function Encode(r: Resp, src: seq<Item>): (Resp, bool, seq<Item>) {
    if r.body.Nil? || IsBinary(Get(r.header, "Content-Type")) then (r, true, src)
    else
      var read := Drain(src, r.body);
      if read.ok then (Reframed(r, read.bytes), true, read.rest) else (r, false, read.rest)
  }

  /** Response.Write decides the framing from the fields, not from the header map. */
  function OutFraming(r: Resp): Framing {
    if r.verb != "HEAD" && !StatusAllowsBody(r.status) then Bodiless
    else if r.transferEncoding == ["chunked"] then Chunked
    else if r.contentLength > 0 || (r.contentLength == 0 && StatusAllowsBody(r.status)) then Length(r.contentLength)
    else if r.verb == "HEAD" then Bodiless
    else UntilClose
  }

  /** Response.Write: what goes out, whether it is complete, and the upstream connection afterwards. */
  function Write(r: Resp, src: seq<Item>): (seq<Item>, bool, seq<Item>) {
    var f := OutFraming(r);
    var head := [HeadItem(ResponseHead(r.status, r.header, f))];
    if !AllowsBody(r.verb, r.status) then (head, true, src) else
      var read := Drain(src, r.body);
      var ok := read.ok && Fits(f, read.bytes);
      (head + (if ok then BodyItems(f, read.bytes) else Octets(read.bytes)), ok, read.rest)
  }

  /** The whole path for a tamperer that passes responses through. */
  function Forward(inflate: Inflate, r: Resp, src: seq<Item>): (seq<Item>, bool, seq<Item>) {
    var (r1, _, src1) := Decode(inflate, r, src);
    var (r2, ok, src2) := Encode(r1, src1);
    if ok then Write(r2, src2) else ([], false, src2)
  }

  /** The header of a response re-framed with `n` bytes, against the one it had. */
  ghost predicate IsReframed(out: Header, h: Header, n: nat) {
    && Get(out, "Content-Length") == Itoa(n) && "Transfer-Encoding" !in out
    && (if n == 0 then "Content-Type" !in out else Get(out, "Content-Type") == Get(h, "Content-Type"))
    && forall k :: k !in {"Content-Length", "Transfer-Encoding", "Content-Type"} ==>
         (k in out <==> k in h) && (k in h ==> out[k] == h[k])
  }

  /** A response body that arrives whole leaves whole, byte for byte and in the same encoding; for
      a type that is not binary it has an exact Content-Length and no Transfer-Encoding.  What the
      client reads back is the body, and the upstream stands at the end of it. */
  lemma ForwardsTheUpstreamsBytes(inflate: Inflate, r: Resp, src: seq<Item>, after: seq<Item>)
    requires AllowsBody(r.verb, r.status) && r.body.Live? && !IsBinary(Get(r.header, "Content-Type"))
    requires Drain(src, r.body).ok
    ensures var full := Drain(src, r.body).bytes;
            var out := Reframed(r, full);
            && Forward(inflate, r, src) ==
               ([HeadItem(ResponseHead(r.status, out.header, Length(|full|)))] + Octets(full), true,
                 Drain(src, r.body).rest)
            && Get(out.header, "Content-Encoding") == Get(r.header, "Content-Encoding")
            && IsReframed(out.header, r.header, |full|)
            && ReadBody(Octets(full) + after, Length(|full|)) == Read(full, true, after)
  {
    var full := Drain(src, r.body).bytes;
    ReadBackWhole(Length(|full|), full, after);
    assert BodyItems(Length(|full|), full) == Octets(full);
    assert Octets(full) + [] == Octets(full);
  }

  /** An answer to HEAD, and one with status 1xx, 204 or 304, is a head alone, and nothing behind it is
      taken off the upstream; any other with a length has its body there. */
  lemma HeadsAlone(inflate: Inflate, verb: string, head: Head, src: seq<Item>)
    requires head.ResponseHead?
    ensures verb == "HEAD" || head.status < 200 || head.status == 204 || head.status == 304 ==>
              var (items, ok, rest) := Forward(inflate, Received(verb, head), src);
              && ok && rest == src && |items| == 1 && items[0].HeadItem? && items[0].head.ResponseHead?
              && items[0].head.status == head.status && (verb != "HEAD" ==> items[0].head.framing == Bodiless)
    ensures verb != "HEAD" && head.status >= 200 && head.status != 204 && head.status != 304 ==>
              forall n: nat :: head.framing == Length(n) && n > 0 ==> Received(verb, head).body == Live(Length(n))
  {
    hide IsBinary, Itoa, Get;
  }

  /** A server that sends `full`: what DecodeBody makes of the response and what it shows of it. */
  lemma ViewOfABody(inflate: Inflate, verb: string, head: Head, full: seq<byte>, more: seq<Item>)
    requires head.ResponseHead? && AllowsBody(verb, head.status) && !IsBinary(Get(head.header, "Content-Type"))
    requires !AtEnd(head.framing) && Fits(head.framing, full) && (head.framing.UntilClose? ==> more == [])
    ensures var encoding := Get(head.header, "Content-Encoding");
            Decode(inflate, Received(verb, head), BodyItems(head.framing, full) + more) ==
              (Received(verb, head).(body := Buffered(full)),
               if full == [] then Nothing
               else if encoding == "gzip" || encoding == "deflate" || encoding == "br" then
                 match inflate(encoding, full) case Some(plain) => Readable(plain) case None => Unreadable
               else Readable(full),
               more)
  {
    ReadBackWhole(head.framing, full, more);
    hide IsBinary, Get, ReadBody, BodyItems;
  }

  /** A binary body keeps the framing that the upstream gave it, and its bytes.  The client finds its
      end in what it is sent, whatever follows, exactly when that framing does not rest on a close. */
  lemma ForwardsBinaryBodies(inflate: Inflate, verb: string, head: Head, src: seq<Item>)
    requires head.ResponseHead? && AllowsBody(verb, head.status) && IsBinary(Get(head.header, "Content-Type"))
    requires !AtEnd(head.framing) && ReadBody(src, head.framing).ok
    ensures var full := ReadBody(src, head.framing).bytes;
            && Forward(inflate, Received(verb, head), src) ==
               ([HeadItem(head)] + BodyItems(head.framing, full), true, ReadBody(src, head.framing).rest)
            && ((forall after ::
                   ReadBody(BodyItems(head.framing, full) + after, head.framing) == Read(full, true, after))
                <==> !head.framing.UntilClose?)
  {
    ReadFits(src, head.framing);
    EndIsFoundIff(head.framing, ReadBody(src, head.framing).bytes);
  }

  lemma EndIsFoundIff(framing: Framing, full: seq<byte>)
    requires Fits(framing, full)
    ensures (forall after :: ReadBody(BodyItems(framing, full) + after, framing) == Read(full, true, after))
            <==> !framing.UntilClose?
  {
    if framing.UntilClose? {
      OctetsAppend(full, 0);
      ReadBackWhole(UntilClose, full + [0], []);
      assert BodyItems(UntilClose, full + [0]) + [] == BodyItems(UntilClose, full) + [Octet(0)];
    } else {
      forall after ensures ReadBody(BodyItems(framing, full) + after, framing) == Read(full, true, after) {
        ReadBackWhole(framing, full, after);
      }
    }
  }

  lemma {:induction false} OctetsAppend(bytes: seq<byte>, b: byte)
    ensures Octets(bytes + [b]) == Octets(bytes) + [Octet(b)]
  {
    if bytes == [] {
      assert bytes + [b] == [b];
    } else {
      assert (bytes + [b])[1..] == bytes[1..] + [b];
      OctetsAppend(bytes[1..], b);
    }
  }

  lemma {:induction false} ReadFits(src: seq<Item>, framing: Framing)
    requires ReadBody(src, framing).ok
    ensures Fits(framing, ReadBody(src, framing).bytes)
    decreases |src|
  {
    if !AtEnd(framing) && src != [] && src[0].Octet? { ReadFits(src[1..], Next(framing)); }
  }

  /** If the upstream's body breaks off, DecodeBody has swallowed what there was of it; Encode still
      sees the failure and nothing at all is written, so the client gets no short body.  Of a binary
      type both keep away, and the write hands over the head and all that arrived. */
  lemma BrokenBodyIsForwardedIffBinary(inflate: Inflate, verb: string, head: Head, src: seq<Item>)
    requires head.ResponseHead? && Received(verb, head).body.Live? && !ReadBody(src, head.framing).ok
    ensures var read := ReadBody(src, head.framing);
            Forward(inflate, Received(verb, head), src) ==
              if IsBinary(Get(head.header, "Content-Type")) then
                ([HeadItem(head)] + Octets(read.bytes), false, read.rest)
              else ([], false, read.rest)
    ensures !IsBinary(Get(head.header, "Content-Type")) ==>
              Decode(inflate, Received(verb, head), src).2 == ReadBody(src, head.framing).rest
  {
    FailureIsSticky(src, head.framing);
    assert OutFraming(Received(verb, head)) == head.framing;
    hide IsBinary, ReadBody, Octets;
  }

  const PNG := ResponseHead(200, map["Content-Type" := "image/png"], Length(3))

  /** Such as this one: two bytes of an image that was to have three. */
  lemma ShortImageIsForwarded(inflate: Inflate)
    ensures Forward(inflate, Received("GET", PNG), [Octet(1), Octet(2)])
            == ([HeadItem(PNG)] + [Octet(1), Octet(2)], false, [])
  {
    TwoOfThree();
    ImagesAreBinary();
    assert Get(PNG.header, "Content-Type") == "image/png" && Received("GET", PNG).body == Live(Length(3));
    hide *;
    BrokenBodyIsForwardedIffBinary(inflate, "GET", PNG, [Octet(1), Octet(2)]);
  }

  lemma TwoOfThree()
    ensures ReadBody([Octet(1), Octet(2)], Length(3)) == Read([1, 2], false, [])
    ensures Octets([1, 2]) == [Octet(1), Octet(2)]
  {
    var src := [Octet(1), Octet(2)];
    assert src[1..] == [Octet(2)] && src[1..][1..] == [];
    assert ReadBody([], Length(1)) == Read([], false, []);
    assert ReadBody([Octet(2)], Length(2)) == Read([2], false, []);
    assert [1, 2][1..] == [2] && Octets([2]) == [Octet(2)];
  }

  lemma ImagesAreBinary()
    ensures IsBinary("image/png")
  {
    LowerCaseStays("image/png");
    assert BINARY_TYPES[0] == "image/" <= "image/png";
    assert Contains("image/png", BINARY_TYPES[0]);
    hide LowerCase, Contains;
  }

  /** An answer to HEAD announces the length that the upstream announced exactly when Encode leaves it
      alone, or that length is 0 and the status is one that announces it. */
  lemma HeadAnswerKeepsItsLengthIff(inflate: Inflate, head: Head, n: nat, src: seq<Item>)
    requires head.ResponseHead? && head.framing == Length(n)
    ensures var (items, ok, rest) := Forward(inflate, Received("HEAD", head), src);
            && ok && rest == src && |items| == 1 && items[0].HeadItem? && items[0].head.ResponseHead?
            && (items[0].head.framing == Length(n) <==>
                if n > 0 then IsBinary(Get(head.header, "Content-Type")) else StatusAllowsBody(head.status))
  {
    assert !AllowsBody("HEAD", head.status);
    hide IsBinary, Itoa, Get;
  }

  // ------------------------------------------------------------------------------- in place

  class Response {
    const verb: string
    const status: nat
    var header: Header
    var contentLength: int
    var transferEncoding: seq<string>
    var body: Body
    const source: Source

    ghost function Snapshot(): Resp
      reads this
    {
      Resp(verb, status, header, contentLength, transferEncoding, body)
    }

    constructor (r: Resp, source: Source)
      ensures Snapshot() == r && this.source == source
    {
      verb, status, header, contentLength := r.verb, r.status, r.header, r.contentLength;
      transferEncoding, body, this.source := r.transferEncoding, r.body, source;
    }

    /** io.ReadAll(resp.Body); at its end a body has nothing more to give. */
    method ReadAll() returns (bytes: seq<byte>, ok: bool)
      modifies source
      ensures Read(bytes, ok, source.rest) == Drain(old(source.rest), body)
    {
      match body
      case Live(framing) => bytes, ok := source.ReadAll(framing);
      case Buffered(b) => bytes, ok := b, true;
      case _ => bytes, ok := [], true;
    }

    method DecodeBody(inflate: Inflate) returns (view: Decoded)
      modifies this`body, source
      ensures (Snapshot(), view, source.rest) == Decode(inflate, old(Snapshot()), old(source.rest))
      ensures var read := Drain(old(source.rest), old(body));
              var encoding := Get(header, "Content-Encoding");
              if old(body).Nil? || IsBinary(Get(header, "Content-Type")) then
                view == Nothing && body == old(body) && source.rest == old(source.rest)
              else if !read.ok then view == Unreadable && source.rest == read.rest
              else
                && body == Buffered(read.bytes) && source.rest == read.rest
                && view == if read.bytes == [] then Nothing
                           else if encoding != "gzip" && encoding != "deflate" && encoding != "br" then
                             Readable(read.bytes)
                           else match inflate(encoding, read.bytes)
                             case Some(plain) => Readable(plain)
                             case None => Unreadable
    {
      if body.Nil? || IsBinary(Get(header, "Content-Type")) {
        return Nothing;
      }
      var fullBody, ok := ReadAll();
      if !ok {
        return Unreadable;
      }
      body := Buffered(fullBody);
      if fullBody == [] {
        return Nothing;
      }
      var encoding := Get(header, "Content-Encoding");
      if encoding !in {"gzip", "deflate", "br"} {
        return Readable(fullBody);
      }
      match inflate(encoding, fullBody)
      case Some(decompressed) => view := Readable(decompressed);
      case None => view := Unreadable;
    }

    method Reframe() returns (ok: bool)
      modifies this, source
      ensures (Snapshot(), ok, source.rest) == Encode(old(Snapshot()), old(source.rest))
    {
      if body.Nil? || IsBinary(Get(header, "Content-Type")) {
        return true;
      }
      var fullBody;
      fullBody, ok := ReadAll();
      if !ok {
        return;
      }
      header := header - {"Transfer-Encoding"};
      transferEncoding := [];
      body := Buffered(fullBody);
      contentLength := |fullBody|;
      header := header["Content-Length" := Itoa(|fullBody|)];
      if fullBody == [] {
        header := header - {"Content-Type"};
      }
    }
  }
}
