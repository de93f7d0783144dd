/** The default tamperer of proxy/internals/tamper/logging.go, against the pass-through Nop. */
module LoggingTamper {
  import opened Common
  import opened HttpMessages
  import opened BodyPipeline
  import opened Utf8

  const PREVIEW_LIMIT: nat := 8192

  /** A request as net/http holds it. */
  datatype Req = Req(
    verb: string,
    host: string,
    target: string,
    header: Header,
    contentLength: int,
    transferEncoding: seq<string>,
    body: Body)

  /** http.ReadRequest on a parsed head; a request without a body gets NoBody, never a nil body. */
  function ReceivedRequest(head: Head): Req
    requires head.RequestHead?
  {
    Req(head.verb, head.host, head.target, head.header,
        match head.framing case Length(n) => n case Chunked => -1 case _ => 0,
        if head.framing.Chunked? then ["chunked"] else [],
        if AtEnd(head.framing) || head.framing.UntilClose? then NoBody else Live(head.framing))
  }

  predicate UsuallyLacksBody(verb: string) {
    verb in {"GET", "HEAD", "DELETE", "OPTIONS", "PROPFIND", "SEARCH"}
  }

  /** Request.Write: a body of unknown length is chunked, and a ContentLength of 0 beside a non-nil
      body means unknown.  For a method that usually has no body it looks for a first byte. */
  function RequestFraming(r: Req, bytes: seq<byte>): Framing {
    if r.body.Nil? || r.body.NoBody? then
      if r.verb in {"POST", "PUT", "PATCH"} then Length(0) else Bodiless
    else if r.transferEncoding == ["chunked"] then Chunked
    else if r.contentLength > 0 then Length(r.contentLength)
    else if UsuallyLacksBody(r.verb) && bytes == [] then Bodiless
    else Chunked
  }

  /** What Request.Write writes to its buffer, whether it is complete, and the client's connection
      afterwards. */
  function WriteRequest(r: Req, src: seq<Item>): (seq<Item>, bool, seq<Item>) {
    var read := Drain(src, r.body);
    var f := RequestFraming(r, read.bytes);
    var ok := read.ok && Fits(f, read.bytes);
    ([HeadItem(RequestHead(r.verb, r.host, r.target, r.header, f))]
       + (if ok then BodyItems(f, read.bytes) else Octets(read.bytes)), ok, read.rest)
  }

  /** What of it has left the buffer when Request.Write returns.  The head is flushed before a body
      that comes off a connection; a body in memory does not have it flushed.  When the write fails,
      the last part stays in the buffer: `spill` items of a body, or of the message, are out. */
  function Flushed(r: Req, items: seq<Item>, ok: bool, spill: nat): seq<Item> {
    if ok || items == [] then items
    else if r.body.Live? then items[..1 + Min(spill, |items| - 1)]
    else if |items| == 1 then []
    else items[..Min(spill, |items|)]
  }

  /** readAndRewindBody: the request left behind, and the client's connection afterwards. */
  function Rewound(r: Req, src: seq<Item>): (Req, seq<Item>) {
    if r.body.Nil? then (r, src)
    else
      var read := Drain(src, r.body);
      (r.(body := Buffered(if read.ok then read.bytes else [])), read.rest)
  }

  /** What Request.Write makes of a received request under Nop and under Logging. */
  function SentByNop(head: Head, src: seq<Item>): (seq<Item>, bool, seq<Item>)
    requires head.RequestHead?
  {
    WriteRequest(ReceivedRequest(head), src)
  }

  function SentByLogging(head: Head, src: seq<Item>): (seq<Item>, bool, seq<Item>)
    requires head.RequestHead?
  {
    var (r, src') := Rewound(ReceivedRequest(head), src);
    WriteRequest(r, src')
  }

  /** Rewinding an empty body turns NoBody into a reader of no bytes, which is sent chunked. */
  predicate GainsChunkedFraming(head: Head)
    requires head.RequestHead?
  {
    (AtEnd(head.framing) || head.framing.UntilClose?) && !UsuallyLacksBody(head.verb)
  }

  /** When the body can be read, Logging sends the same items as Nop exactly unless the request has
      no body and its method is not one that usually lacks one. */
  lemma LoggingSendsTheSameIff(head: Head, src: seq<Item>)
    requires head.RequestHead? && Drain(src, ReceivedRequest(head).body).ok
    ensures SentByLogging(head, src) == SentByNop(head, src) <==> !GainsChunkedFraming(head)
    ensures GainsChunkedFraming(head) <==>
              && (head.framing.Bodiless? || head.framing == Length(0) || head.framing.UntilClose?)
              && head.verb !in {"GET", "HEAD", "DELETE", "OPTIONS", "PROPFIND", "SEARCH"}
  {
    var r := ReceivedRequest(head);
    if r.body.Live? { ReadFits(src, head.framing); }
    assert SentByLogging(head, src).0[0] == SentByNop(head, src).0[0] <==>
           RequestFraming(Rewound(r, src).0, Drain(src, r.body).bytes) == RequestFraming(r, Drain(src, r.body).bytes);
  }

  /** Under Nop a request goes out framed as it came in; one without a body says so with a length of 0
      exactly when its method is POST, PUT or PATCH. */
  lemma NopKeepsTheFraming(head: Head, src: seq<Item>)
    requires head.RequestHead? && Drain(src, ReceivedRequest(head).body).ok
    ensures var items := SentByNop(head, src).0;
            && items != [] && items[0].HeadItem? && items[0].head.RequestHead?
            && items[0].head.framing ==
                 if head.framing.Chunked? || (head.framing.Length? && head.framing.n > 0) then head.framing
                 else if head.verb == "POST" || head.verb == "PUT" || head.verb == "PATCH" then Length(0)
                 else Bodiless
  {}

  predicate SameRequestLine(a: Head, b: Head)
    requires a.RequestHead? && b.RequestHead?
  {
    a.verb == b.verb && a.host == b.host && a.target == b.target && a.header == b.header
  }

  /** Even then the message that the upstream recovers is the same: method, target, headers, body. */
  lemma LoggingSendsTheSameMessage(head: Head, src: seq<Item>, after: seq<Item>)
    requires head.RequestHead? && Drain(src, ReceivedRequest(head).body).ok
    ensures var (logged, ok, rest) := SentByLogging(head, src);
            var (plain, ok', rest') := SentByNop(head, src);
            && ok && ok' && rest == rest' && logged != [] && plain != []
            && logged[0].HeadItem? && plain[0].HeadItem? && logged[0].head.RequestHead? && plain[0].head.RequestHead?
            && SameRequestLine(logged[0].head, plain[0].head)
            && ReadBody(logged[1..] + after, logged[0].head.framing).bytes
               == Drain(src, ReceivedRequest(head).body).bytes
            && ReadBody(plain[1..] + after, plain[0].head.framing).bytes == Drain(src, ReceivedRequest(head).body).bytes
  {
    var r := ReceivedRequest(head);
    var full := Drain(src, r.body).bytes;
    if r.body.Live? { ReadFits(src, head.framing); }
    var f, g := RequestFraming(Rewound(r, src).0, full), RequestFraming(r, full);
    assert SentByLogging(head, src).0[1..] == BodyItems(f, full);
    assert SentByNop(head, src).0[1..] == BodyItems(g, full);
    ReadBackWhole(f, full, after);
    ReadBackWhole(g, full, after);
  }

  /** A body that breaks off makes the write fail under Nop.  Logging sends the request as a complete
      one, with an empty body, exactly when it is chunked. */
  lemma BrokenBodyIsSentIffChunked(head: Head, src: seq<Item>)
    requires head.RequestHead? && !Drain(src, ReceivedRequest(head).body).ok
    ensures !SentByNop(head, src).1
    ensures SentByLogging(head, src).1 <==> head.framing.Chunked?
    ensures SentByLogging(head, src).1 ==> SentByLogging(head, src).0 == [HeadItem(head), LastChunk]
    ensures SentByLogging(head, src).2 == SentByNop(head, src).2
  {}

  // --------------------------------------------------------------------------------- in place

  datatype Record = HttpRequest(bodyLen: nat, body: Option<seq<byte>>) | Frame(len: nat, payload: Option<seq<byte>>)

  const EMPTY: seq<byte> := [0x3C, 0x65, 0x6D, 0x70, 0x74, 0x79, 0x3E]
  const READ_ERROR: seq<byte> := [0x3C, 0x72, 0x65, 0x61, 0x64, 0x2D, 0x65, 0x72, 0x72, 0x6F, 0x72, 0x3E]
  const TRUNCATED: seq<byte> :=
    [0x2E, 0x2E, 0x2E, 0x20, 0x5B, 0x74, 0x72, 0x75, 0x6E, 0x63, 0x61, 0x74, 0x65, 0x64, 0x5D]

  /** The text and length that are logged of a request's body. */
  function LoggedText(body: Body, src: seq<Item>): (seq<byte>, nat) {
    var read := Drain(src, body);
    if body.Nil? || (read.ok && read.bytes == []) then (EMPTY, 0)
    else if read.ok then (read.bytes, |read.bytes|)
    else (READ_ERROR, 0)
  }

  /** For a request with this body on the connection, and for one whose body breaks off: the texts are
      "<empty>" and "<read-error>". */
  lemma LoggedTextIs(head: Head, src: seq<Item>)
    requires head.RequestHead?
    ensures var body := ReceivedRequest(head).body;
            LoggedText(body, src) ==
              if !Drain(src, body).ok then
                ([0x3C, 0x72, 0x65, 0x61, 0x64, 0x2D, 0x65, 0x72, 0x72, 0x6F, 0x72, 0x3E], 0)
              else if Drain(src, body).bytes == [] then ([0x3C, 0x65, 0x6D, 0x70, 0x74, 0x79, 0x3E], 0)
              else (Drain(src, body).bytes, |Drain(src, body).bytes|)
  {}

  /** A text as it may be logged: whole when it is short, else a prefix within the limit and a mark. */
  predicate IsPreview(s: seq<byte>, p: seq<byte>) {
    if |s| <= PREVIEW_LIMIT then p == s
    else exists end :: 0 <= end <= PREVIEW_LIMIT && p == s[..end] + TRUNCATED
                       && (Valid(s) ==> Valid(s[..end]) && PREVIEW_LIMIT <= end + 3)
  }

  method Preview(s: seq<byte>) returns (p: seq<byte>)
    ensures IsPreview(s, p)
    ensures |s| <= 8192 ==> p == s
    ensures |s| > 8192 ==>
              && 15 <= |p| <= 8192 + 15
              && p[|p| - 15..]
                 == [0x2E, 0x2E, 0x2E, 0x20, 0x5B, 0x74, 0x72, 0x75, 0x6E, 0x63, 0x61, 0x74, 0x65, 0x64, 0x5D]
  {
    if |s| <= PREVIEW_LIMIT {
      return s;
    }
    var end := CutPoint(s, PREVIEW_LIMIT);
    p := s[..end] + TRUNCATED;
  }

  class Request {
    const head: Head
    var body: Body
    const source: Source

    constructor (head: Head, source: Source)
      requires head.RequestHead?
      ensures this.head == head && this.source == source && body == ReceivedRequest(head).body
    {
      this.head, this.source, body := head, source, ReceivedRequest(head).body;
    }

    ghost function Snapshot(): Req
      reads this
      requires head.RequestHead?
    {
      ReceivedRequest(head).(body := body)
    }
  }

  class Logging {
    const logBodies: bool
    var records: seq<Record>

    constructor (logBodies: bool)
      ensures this.logBodies == logBodies && records == []
    {
      this.logBodies, records := logBodies, [];
    }

    /** Drains the body, and puts back what was read, or an empty body if it broke off. */
    static method ReadAndRewindBody(req: Request) returns (text: seq<byte>, len: nat)
      requires req.head.RequestHead?
      modifies req`body, req.source
      ensures (req.Snapshot(), req.source.rest) == Rewound(old(req.Snapshot()), old(req.source.rest))
      ensures (text, len) == LoggedText(old(req.body), old(req.source.rest))
    {
      if req.body.Nil? {
        return EMPTY, 0;
      }
      var b, ok;
      match req.body {
        case Live(framing) => b, ok := req.source.ReadAll(framing);
        case Buffered(bytes) => b, ok := bytes, true;
        case _ => b, ok := [], true;
      }
      if !ok {
        req.body := Buffered([]);
        return READ_ERROR, 0;
      }
      req.body := Buffered(b);
      if b == [] {
        return EMPTY, 0;
      }
      return b, |b|;
    }

    method OnRequest(req: Request)
      requires req.head.RequestHead?
      modifies this`records, req`body, req.source
      ensures (req.Snapshot(), req.source.rest) == Rewound(old(req.Snapshot()), old(req.source.rest))
      ensures |records| == |old(records)| + 1 && old(records) <= records && records[|old(records)|].HttpRequest?
      ensures var (text, len) := LoggedText(old(req.body), old(req.source.rest));
              var record := records[|old(records)|];
              && record.bodyLen == len
              && (if logBodies then record.body.Some? && IsPreview(text, record.body.value) else record.body == None)
    {
      var text, len := ReadAndRewindBody(req);
      var shown := None;
      if logBodies {
        var p := Preview(text);
        shown := Some(p);
      }
      records := records + [HttpRequest(len, shown)];
    }

    /** WSIncoming and WSOutgoing: the payload comes back as it is. */
    method OnFrame(payload: seq<byte>) returns (out: seq<byte>)
      modifies this`records
      ensures out == payload
      ensures |records| == |old(records)| + 1 && old(records) <= records && records[|old(records)|].Frame?
      ensures records[|old(records)|].len == |payload|
      ensures if logBodies then records[|old(records)|].payload.Some?
              && IsPreview(payload, records[|old(records)|].payload.value)
              else records[|old(records)|].payload == None
    {
      var shown := None;
      if logBodies {
        var p := Preview(payload);
        shown := Some(p);
      }
      records := records + [Frame(|payload|, shown)];
      out := payload;
    }
  }
}
