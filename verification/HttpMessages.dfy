/** HTTP/1.1 messages as they stand on a connection, and reading their bodies.

    A connection is a sequence of items: a parsed head, one octet of a body, or the last chunk that
    ends a chunked body.  Chunk sizes and header syntax are left out. */
module HttpMessages {
  import opened Common

  /** How the end of a body is found: section 6.3 of RFC 9112. */
  datatype Framing = Bodiless | Length(n: nat) | Chunked | UntilClose

  type Header = map<string, string>

  datatype Head =
    | RequestHead(verb: string, host: string, target: string, header: Header, framing: Framing)
    | ResponseHead(status: nat, header: Header, framing: Framing)

  datatype Item = HeadItem(head: Head) | Octet(b: byte) | LastChunk

  /** A message body before it has been read: none at all, net/http's NoBody, bytes still on the
      connection, or bytes in memory. */
  datatype Body = Nil | NoBody | Live(framing: Framing) | Buffered(bytes: seq<byte>)

  /** The outcome of reading a body to its end: the bytes got, whether the end was reached, and the
      connection afterwards. */
  datatype Read = Read(bytes: seq<byte>, ok: bool, rest: seq<Item>)

  function Octets(bytes: seq<byte>): seq<Item> {
    if bytes == [] then [] else [Octet(bytes[0])] + Octets(bytes[1..])
  }

  function BodyItems(framing: Framing, bytes: seq<byte>): seq<Item> {
    Octets(bytes) + if framing.Chunked? then [LastChunk] else []
  }

  /** No further octet belongs to the body. */
  predicate AtEnd(framing: Framing) { framing.Bodiless? || framing == Length(0) }

  /** What is left of a framing once an octet has been read. */
  function Next(framing: Framing): Framing
    requires !AtEnd(framing)
  {
    if framing.Length? then Length(framing.n - 1) else framing
  }

  function ReadBody(src: seq<Item>, framing: Framing): (r: Read)
    ensures |r.rest| <= |src|
  {
    if AtEnd(framing) then Read([], true, src)
    else if src == [] then Read([], framing.UntilClose?, src)
    else match src[0]
      case Octet(b) =>
        var r := ReadBody(src[1..], Next(framing));
        Read([b] + r.bytes, r.ok, r.rest)
      case LastChunk => if framing.Chunked? then Read([], true, src[1..]) else Read([], false, src)
      case HeadItem(_) => Read([], false, src)
  }

  /** A body fits its framing. */
  predicate Fits(framing: Framing, bytes: seq<byte>) {
    match framing
    case Bodiless => bytes == []
    case Length(n) => |bytes| == n
    case _ => true
  }

  /** What is written under a framing is read back whole, and nothing behind it is touched. */
  lemma {:induction false} ReadBackWhole(framing: Framing, bytes: seq<byte>, rest: seq<Item>)
    requires Fits(framing, bytes) && (framing.UntilClose? ==> rest == [])
    ensures ReadBody(BodyItems(framing, bytes) + rest, framing) == Read(bytes, true, rest)
    decreases |bytes|
  {
    var src := BodyItems(framing, bytes) + rest;
    if bytes == [] {
      if framing.Chunked? {
        assert src[0] == LastChunk && src[1..] == rest;
      } else {
        assert src == rest;
      }
    } else {
      ReadBackWhole(Next(framing), bytes[1..], rest);
      assert src == [Octet(bytes[0])] + (BodyItems(Next(framing), bytes[1..]) + rest);
      assert src[1..] == BodyItems(Next(framing), bytes[1..]) + rest;
      assert [bytes[0]] + bytes[1..] == bytes;
    }
  }

  lemma BodyAhead(framing: Framing, b: byte, bytes: seq<byte>)
    requires !AtEnd(framing)
    ensures Octets([b] + bytes) == [Octet(b)] + Octets(bytes)
    ensures BodyItems(framing, [b] + bytes) == [Octet(b)] + BodyItems(Next(framing), bytes)
  {
    assert ([b] + bytes)[1..] == bytes;
  }

  /** And what is read is what stands there: the body items of what was read, or without an end of
      the body the octets so far. */
  lemma {:induction false} ReadSplits(src: seq<Item>, framing: Framing)
    ensures var r := ReadBody(src, framing);
            && src == (if r.ok then BodyItems(framing, r.bytes) else Octets(r.bytes)) + r.rest
            && (r.ok ==> Fits(framing, r.bytes) && (framing.UntilClose? ==> r.rest == []))
    decreases |src|
  {
    if AtEnd(framing) || src == [] || !src[0].Octet? {
      NothingRead(src, framing);
    } else {
      ReadSplits(src[1..], Next(framing));
      var r, r' := ReadBody(src, framing), ReadBody(src[1..], Next(framing));
      assert r == Read([src[0].b] + r'.bytes, r'.ok, r'.rest);
      BodyAhead(framing, src[0].b, r'.bytes);
      hide ReadBody, BodyItems, Octets;
      ConsAppend(src, src[0], if r.ok then BodyItems(Next(framing), r'.bytes) else Octets(r'.bytes), r.rest);
    }
  }

  lemma NothingRead(src: seq<Item>, framing: Framing)
    requires AtEnd(framing) || src == [] || !src[0].Octet?
    ensures var r := ReadBody(src, framing);
            && src == (if r.ok then BodyItems(framing, r.bytes) else Octets(r.bytes)) + r.rest
            && (r.ok ==> Fits(framing, r.bytes) && (framing.UntilClose? ==> r.rest == []))
  {
    if src == [] {
    } else {
      assert src == [src[0]] + src[1..];
    }
  }

  lemma ConsAppend(src: seq<Item>, a: Item, x: seq<Item>, rest: seq<Item>)
    requires src != [] && src[0] == a && src[1..] == x + rest
    ensures src == ([a] + x) + rest
  {}

  /** A body under this framing stands there in full. */
  ghost predicate HasBody(src: seq<Item>, framing: Framing) {
    exists bytes, rest ::
      Fits(framing, bytes) && (framing.UntilClose? ==> rest == []) && src == BodyItems(framing, bytes) + rest
  }

  lemma ReadSucceedsIff(src: seq<Item>, framing: Framing)
    ensures ReadBody(src, framing).ok <==> HasBody(src, framing)
  {
    ReadSplits(src, framing);
    hide ReadBody, BodyItems;
    if HasBody(src, framing) {
      var bytes, rest :| Fits(framing, bytes) && (framing.UntilClose? ==> rest == [])
                         && src == BodyItems(framing, bytes) + rest;
      ReadBackWhole(framing, bytes, rest);
    }
  }

  /** A read that failed fails again, and yields nothing more. */
  lemma {:induction false} FailureIsSticky(src: seq<Item>, framing: Framing)
    requires !ReadBody(src, framing).ok
    ensures ReadBody(ReadBody(src, framing).rest, framing) == Read([], false, ReadBody(src, framing).rest)
    decreases |src|
  {
    if src != [] && src[0].Octet? {
      FailureIsSticky(src[1..], Next(framing));
    }
  }

  /** The successive states of a body that is read: io.ReadAll on whatever it is. */
  function Drain(src: seq<Item>, body: Body): Read {
    match body
    case Live(framing) => ReadBody(src, framing)
    case Buffered(bytes) => Read(bytes, true, src)
    case _ => Read([], true, src)
  }

  /** A connection's reader, with io.ReadAll as its loop over the octets that belong to the body. */
  class Source {
    var rest: seq<Item>

    constructor (items: seq<Item>)
      ensures rest == items
    {
      rest := items;
    }

    method ReadAll(framing: Framing) returns (bytes: seq<byte>, ok: bool)
      modifies this
      ensures Read(bytes, ok, rest) == ReadBody(old(rest), framing)
    {
      bytes := [];
      var left := framing;
      while !AtEnd(left) && rest != [] && rest[0].Octet?
        invariant ReadBody(old(rest), framing) == Prepend(bytes, ReadBody(rest, left))
        decreases |rest|
      {
        PrependTwice(bytes, rest[0].b, ReadBody(rest[1..], Next(left)));
        bytes := bytes + [rest[0].b];
        left := Next(left);
        rest := rest[1..];
      }
      if AtEnd(left) {
        ok := true;
      } else if rest == [] {
        ok := left.UntilClose?;
      } else if rest[0].LastChunk? && left.Chunked? {
        ok := true;
        rest := rest[1..];
      } else {
        ok := false;
      }
      assert bytes + [] == bytes;
    }
  }

  function Prepend(bytes: seq<byte>, r: Read): Read { r.(bytes := bytes + r.bytes) }

  lemma PrependTwice(bytes: seq<byte>, b: byte, r: Read)
    ensures Prepend(bytes, Prepend([b], r)) == Prepend(bytes + [b], r)
  {
    assert bytes + ([b] + r.bytes) == bytes + [b] + r.bytes;
  }
}
