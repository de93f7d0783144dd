/** What happens to the bytes already buffered when one stage of the proxy hands a connection to the
    next: proxy/internals/mitm.go, and the handoffs of handlers/https.go and handlers/ws.go. */
module Handoff {
  import opened Common
  import Hosts

  const SIZE: nat := 4096
  const TLS_HANDSHAKE: byte := 0x16

  /** How much the k-th read of a connection finds ready; nobody controls it. */
  type Pace = nat -> nat

  /** A read blocks until it has at least one byte, or the peer has closed. */
  function ReadSize(max: nat, rest: nat, ready: nat): nat { Min(max, Min(rest, if ready == 0 then 1 else ready)) }

  /** `rest` is what the peer has still to deliver before it closes. */
  class Conn {
    const pace: Pace
    var rest: seq<byte>
    var served: nat

    constructor (rest: seq<byte>, pace: Pace)
      ensures this.rest == rest && this.pace == pace && served == 0
    {
      this.rest, this.pace, served := rest, pace, 0;
    }

    method Read(max: nat) returns (p: seq<byte>)
      requires max > 0
      modifies this
      ensures p + rest == old(rest) && |p| == ReadSize(max, |old(rest)|, pace(old(served)))
      ensures p == [] <==> old(rest) == []
      ensures served == old(served) + 1
    {
      var n := ReadSize(max, |rest|, pace(served));
      p, rest, served := rest[..n], rest[n..], served + 1;
    }
  }

  // --------------------------------------------------------------------------- bufio.Reader

  /** One step of a parser: it looks at so many buffered bytes, a line for instance, or all that the
      buffer can hold of a long one, and takes so many of them. */
  datatype Piece = Piece(look: nat, take: nat)

  function Taken(pieces: seq<Piece>): nat { if pieces == [] then 0 else pieces[0].take + Taken(pieces[1..]) }

  /** The parser looks at nothing beyond the message that it takes. */
  predicate InMessage(pieces: seq<Piece>) {
    pieces == [] ||
    (pieces[0].take <= pieces[0].look <= SIZE && pieces[0].look <= Taken(pieces) && InMessage(pieces[1..]))
  }

  /** The reads that fill the buffer, each its free part, until the parser has had its pieces. */
  function Reads(buf: nat, rest: nat, pieces: seq<Piece>, pace: Pace, k: nat): seq<nat>
    decreases rest, |pieces|
  {
    if pieces == [] || (pieces[0].look > buf && (rest == 0 || buf >= SIZE)) then []
    else if pieces[0].look <= buf then
      Reads(if pieces[0].take <= buf then buf - pieces[0].take else 0, rest, pieces[1..], pace, k)
    else
      var n := ReadSize(SIZE - buf, rest, pace(k));
      [n] + Reads(buf + n, rest - n, pieces, pace, k + 1)
  }

  /** Bytes left in the buffer after that. */
  function Left(buf: nat, rest: nat, pieces: seq<Piece>, pace: Pace, k: nat): nat
    decreases rest, |pieces|
  {
    if pieces == [] then buf
    else if pieces[0].look > buf && (rest == 0 || buf >= SIZE) then 0
    else if pieces[0].look <= buf then
      Left(if pieces[0].take <= buf then buf - pieces[0].take else 0, rest, pieces[1..], pace, k)
    else
      var n := ReadSize(SIZE - buf, rest, pace(k));
      Left(buf + n, rest - n, pieces, pace, k + 1)
  }

  class BufReader {
    const conn: Conn
    var buf: seq<byte>

    constructor (conn: Conn)
      ensures this.conn == conn && buf == []
    {
      this.conn, buf := conn, [];
    }

    ghost function Stream(): seq<byte>
      reads this, conn
    {
      buf + conn.rest
    }

    /** One read of the connection into the free part of the buffer. */
    method Fill()
      requires |buf| < SIZE
      modifies this, conn
      ensures Stream() == old(Stream()) && |buf| <= SIZE
      ensures |buf| == old(|buf|) + ReadSize(SIZE - old(|buf|), old(|conn.rest|), conn.pace(old(conn.served)))
      ensures |buf| == old(|buf|) <==> old(conn.rest) == []
      ensures conn.served == old(conn.served) + 1
    {
      var p := conn.Read(SIZE - |buf|);
      buf := buf + p;
    }

    method Peek(n: nat) returns (p: Option<seq<byte>>)
      requires n <= SIZE && |buf| <= SIZE
      modifies this, conn
      ensures Stream() == old(Stream()) && |buf| <= SIZE
      ensures p == if n <= |old(Stream())| then Some(old(Stream())[..n]) else None
    {
      var open := true;
      while |buf| < n && open
        invariant |buf| <= SIZE && Stream() == old(Stream())
        invariant !open ==> conn.rest == []
        decreases |conn.rest|, open
      {
        open := conn.rest != [];
        Fill();
      }
      assert n <= |buf| ==> Stream()[..n] == buf[..n];
      p := if |buf| < n then None else Some(buf[..n]);
    }

    /** Read: from the buffer if it holds anything; a large read of an empty buffer bypasses it. */
    method Read(max: nat) returns (p: seq<byte>)
      requires max > 0 && |buf| <= SIZE
      modifies this, conn
      ensures p + Stream() == old(Stream()) && |p| <= max && |buf| <= SIZE
      ensures p == [] <==> old(Stream()) == []
    {
      if buf == [] && max >= SIZE {
        p := conn.Read(max);
        return;
      }
      if buf == [] {
        Fill();
      }
      var n := Min(max, |buf|);
      p, buf := buf[..n], buf[n..];
    }

    method Take(n: nat) returns (p: seq<byte>)
      requires n <= |buf|
      modifies this`buf
      ensures p + buf == old(buf) && |p| == n
      ensures p + Stream() == old(Stream())
    {
      p, buf := buf[..n], buf[n..];
    }

    /** One piece: the buffer is filled as often as it takes. */
    method TakePiece(piece: Piece, ghost pieces: seq<Piece>) returns (p: seq<byte>)
      requires pieces != [] && pieces[0] == piece && InMessage(pieces) && Taken(pieces) <= |Stream()| && |buf| <= SIZE
      modifies this, conn
      ensures p + Stream() == old(Stream()) && |p| == piece.take && |buf| <= SIZE
      ensures Left(|buf|, |conn.rest|, pieces[1..], conn.pace, conn.served)
           == Left(old(|buf|), old(|conn.rest|), pieces, conn.pace, old(conn.served))
    {
      while |buf| < piece.look
        invariant Stream() == old(Stream()) && |buf| <= SIZE
        invariant Left(|buf|, |conn.rest|, pieces, conn.pace, conn.served)
               == Left(old(|buf|), old(|conn.rest|), pieces, conn.pace, old(conn.served))
        decreases |conn.rest|
      {
        Fill();
      }
      p := Take(piece.take);
    }

    /** How a parser takes a message off the reader. */
    method ReadPieces(pieces: seq<Piece>) returns (p: seq<byte>)
      requires InMessage(pieces) && Taken(pieces) <= |Stream()| && |buf| <= SIZE
      modifies this, conn
      ensures p + Stream() == old(Stream()) && |p| == Taken(pieces) && |buf| <= SIZE
      ensures |buf| == Left(old(|buf|), old(|conn.rest|), pieces, conn.pace, old(conn.served))
    {
      p := [];
      var left := pieces;
      while left != []
        invariant InMessage(left) && |buf| <= SIZE
        invariant p + Stream() == old(Stream()) && |p| + Taken(left) == Taken(pieces)
        invariant Left(|buf|, |conn.rest|, left, conn.pace, conn.served)
               == Left(old(|buf|), old(|conn.rest|), pieces, conn.pace, old(conn.served))
      {
        ghost var before := Stream();
        var q := TakePiece(left[0], left);
        assert (p + q) + Stream() == p + before;
        p, left := p + q, left[1..];
      }
    }
  }

  // ------------------------------------------------------------------------------- mitm.go

  /** What http.ReadRequest makes of a stream: a request, and the pieces in which it was read. */
  datatype Parsed = Parsed(connect: bool, host: string, pieces: seq<Piece>)
  type Parser = seq<byte> -> Option<Parsed>

  ghost predicate StaysInStream(parse: Parser) {
    forall s :: parse(s).Some? ==> InMessage(parse(s).value.pieces) && Taken(parse(s).value.pieces) <= |s|
  }

  /** Where handleHTTPConn sends a connection, and how many bytes that takes off its stream. */
  datatype Route = Empty | Malformed | Refused | Tls(hostname: string, skip: nat)

  function RouteOf(stream: seq<byte>, parse: Parser): Route {
    if stream == [] then Empty
    else if stream[0] == TLS_HANDSHAKE then Tls("discord.com", 0)
    else match parse(stream)
      case None => Malformed
      case Some(r) => if r.connect then Tls(r.host, Taken(r.pieces)) else Refused
  }

  /** handleHTTPConn.  The TLS stage reads through bufferedConn, that is through `next`: what it sees
      is the client's stream after the CONNECT, all of it, however much of it had been buffered. */
  method HandleHTTPConn(client: Conn, parse: Parser) returns (route: Route, next: BufReader)
    requires StaysInStream(parse)
    modifies client
    ensures route == RouteOf(old(client.rest), parse)
    ensures route.Empty? <==> old(client.rest) == []
    ensures old(client.rest) != [] && old(client.rest)[0] == 0x16 ==> route == Tls("discord.com", 0)
    ensures old(client.rest) != [] && old(client.rest)[0] != 0x16 ==>
              match parse(old(client.rest))
              case None => route == Malformed
              case Some(r) => route == if r.connect then Tls(r.host, Taken(r.pieces)) else Refused
    ensures fresh(next) && next.conn == client && |next.buf| <= 4096
    ensures route.Tls? ==> route.skip <= |old(client.rest)| && next.Stream() == old(client.rest)[route.skip..]
  {
    next := new BufReader(client);
    var peek := next.Peek(1);
    if peek.None? {
      return Empty, next;
    }
    ghost var stream := next.Stream();
    assert stream[0] == peek.value[0] && stream[0..] == stream;
    if peek.value[0] == TLS_HANDSHAKE {
      return Tls("discord.com", 0), next;
    }
    var req := Parse(next, parse);
    if req.None? {
      return Malformed, next;
    }
    route := if req.value.connect then Tls(req.value.host, Taken(req.value.pieces)) else Refused;
  }

  method Parse(br: BufReader, parse: Parser) returns (req: Option<Parsed>)
    requires StaysInStream(parse) && |br.buf| <= SIZE
    modifies br, br.conn
    ensures req == parse(old(br.Stream())) && |br.buf| <= SIZE
    ensures req.Some? ==> br.Stream() == old(br.Stream())[Taken(req.value.pieces)..]
    ensures req.Some? ==> |br.buf| == Left(old(|br.buf|), old(|br.conn.rest|), req.value.pieces, br.conn.pace,
            old(br.conn.served))
  {
    req := parse(br.buf + br.conn.rest);
    if req.Some? {
      var message := br.ReadPieces(req.value.pieces);
    }
  }

  /** A client that sends a CONNECT, and whatever comes behind it: that, and no more, is what the TLS
      stage reads. */
  method TunnelIsReadWhole(connect: seq<byte>, t: seq<byte>, host: string, pace: Pace, parse: Parser, sizes: nat -> nat)
    returns (route: Route, got: seq<byte>)
    requires StaysInStream(parse) && connect != [] && connect[0] != 0x16
    requires parse(connect + t).Some? && parse(connect + t).value.connect && parse(connect + t).value.host == host
    requires Taken(parse(connect + t).value.pieces) == |connect|
    ensures route == Tls(host, |connect|) && got == t
  {
    var client := new Conn(connect + t, pace);
    var next;
    route, next := HandleHTTPConn(client, parse);
    assert (connect + t)[|connect|..] == t;
    got := DrainBuffered(next, sizes);
  }

  /** The name that Handshake asks a certificate for. */
  function NameFor(sni: string, hostname: string): string { if sni == "" then hostname else sni }

  /** A client that sends SNI and one that does not get certificates for the same server, from two
      entries of the cache: a CONNECT target keeps its port in the key. */
  lemma SniAndConnectTargetAgree(host: string, port: string)
    requires host != "" && ':' !in host + port && '[' !in host + port && ']' !in host + port
    ensures Hosts.ServerName(NameFor(host, host + ":" + port)) == host
            == Hosts.ServerName(NameFor("", host + ":" + port))
    ensures NameFor(host, host + ":" + port) != NameFor("", host + ":" + port)
  {
    assert forall c :: c in host || c in port ==> c in host + port;
    Hosts.PortIsStripped(host, port);
    assert |host + ":" + port| > |host|;
  }

  // ------------------------------------------------------------------ later stages' reading

  /** TLS over a bufferedConn, in reads of whatever size: nothing lost, repeated or out of order. */
  method DrainBuffered(br: BufReader, sizes: nat -> nat) returns (got: seq<byte>)
    requires |br.buf| <= SIZE
    modifies br, br.conn
    ensures got == old(br.Stream())
  {
    got := [];
    var k, open := 0, true;
    while open
      invariant |br.buf| <= SIZE && got + br.Stream() == old(br.Stream())
      invariant !open ==> br.Stream() == []
      decreases |br.Stream()|, open
    {
      var p := br.Read(sizes(k) + 1);
      got, k, open := got + p, k + 1, p != [];
    }
  }

  /** io.MultiReader(br, conn): the second is read once the first has ended. */
  class MultiReader {
    const br: BufReader
    var onFirst: bool

    constructor (br: BufReader)
      ensures this.br == br && onFirst
    {
      this.br, onFirst := br, true;
    }

    ghost predicate Valid() reads this, br, br.conn { |br.buf| <= SIZE && (!onFirst ==> br.Stream() == []) }

    method Read(max: nat) returns (p: seq<byte>)
      requires max > 0 && Valid()
      modifies this, br, br.conn
      ensures Valid() && p + br.Stream() == old(br.Stream()) && (p == [] <==> old(br.Stream()) == [])
    {
      p := [];
      if onFirst {
        p := br.Read(max);
        onFirst := p != [];
      }
      if !onFirst {
        p := br.conn.Read(max);
      }
    }

    /** The frames of a WebSocket pump are read from here. */
    method Drain(sizes: nat -> nat) returns (got: seq<byte>)
      requires Valid()
      modifies this, br, br.conn
      ensures got == old(br.Stream())
    {
      got := [];
      var k, open := 0, true;
      while open
        invariant Valid() && got + br.Stream() == old(br.Stream())
        invariant !open ==> br.Stream() == []
        decreases |br.Stream()|, open
      {
        var p := Read(sizes(k) + 1);
        got, k, open := got + p, k + 1, p != [];
      }
    }
  }

  /** A connection that is written to; it fails after `room` more bytes. */
  class Sink {
    var got: seq<byte>
    var room: nat

    constructor (room: nat)
      ensures got == [] && this.room == room
    {
      got, this.room := [], room;
    }

    method Write(p: seq<byte>) returns (n: nat)
      modifies this
      ensures n == Min(|p|, old(room)) && room == old(room) - n && got == old(got) + p[..n]
    {
      n := Min(|p|, room);
      got, room := got + p[..n], room - n;
    }
  }

  /** io.Copy(dst, br), which is br.WriteTo(dst).  `turns` is when the other direction ends and
      closes both connections.  Whatever stops it, every byte is either at the destination, in order,
      or still to be read; when the copy ends by itself on a working connection all are there. */
  method Copy(br: BufReader, dst: Sink, turns: nat) returns (complete: bool)
    requires |br.buf| <= SIZE
    modifies br, br.conn, dst
    ensures dst.got + br.Stream() == old(dst.got + br.Stream())
    ensures complete ==> br.Stream() == []
    ensures !complete ==> dst.room == 0 || br.conn.served >= old(br.conn.served) + turns
    ensures old(dst.room) == dst.room + |dst.got| - |old(dst.got)|
  {
    var t := 0;
    while t < turns
      invariant t <= turns && br.conn.served == old(br.conn.served) + t && |br.buf| <= SIZE
      invariant dst.got + br.Stream() == old(dst.got + br.Stream())
      invariant old(dst.room) == dst.room + |dst.got| - |old(dst.got)|
    {
      var n := dst.Write(br.buf);
      var short := n < |br.buf|;
      br.buf := br.buf[n..];
      if short {
        return false;
      }
      br.Fill();
      if br.buf == [] {
        return true;
      }
      t := t + 1;
    }
    complete := false;
  }

  // ------------------------------------------------------------------------- nested CONNECT

  /** The nested handshake is given the connection under the reader, so it does not see `dropped`. */
  method NestedConnect(br: BufReader, parse: Parser)
    returns (req: Option<Parsed>, next: Conn, ghost dropped: seq<byte>)
    requires StaysInStream(parse) && |br.buf| <= SIZE
    modifies br, br.conn
    ensures req == parse(old(br.Stream())) && next == br.conn
    ensures req.Some? ==> dropped + next.rest == old(br.Stream())[Taken(req.value.pieces)..]
    ensures req.Some? ==>
              |dropped| == Left(old(|br.buf|), old(|br.conn.rest|), req.value.pieces, br.conn.pace, old(br.conn.served))
  {
    req := Parse(br, parse);
    next, dropped := br.conn, br.buf;
  }

  function Total(ns: seq<nat>): nat { if ns == [] then 0 else ns[0] + Total(ns[1..]) }

  /** What is dropped is what those reads brought in behind the request. */
  lemma {:induction false} DroppedIsWhatCameBehind(buf: nat, rest: nat, pieces: seq<Piece>, pace: Pace, k: nat)
    requires InMessage(pieces) && Taken(pieces) <= buf + rest && buf <= SIZE
    ensures Left(buf, rest, pieces, pace, k) == buf + Total(Reads(buf, rest, pieces, pace, k)) - Taken(pieces)
    ensures Total(Reads(buf, rest, pieces, pace, k)) <= rest
    decreases rest, |pieces|
  {
    if pieces == [] {
    } else {
      if pieces[0].look <= buf {
        DroppedIsWhatCameBehind(buf - pieces[0].take, rest, pieces[1..], pace, k);
      } else {
        var n := ReadSize(SIZE - buf, rest, pace(k));
        DroppedIsWhatCameBehind(buf + n, rest - n, pieces, pace, k + 1);
        assert Reads(buf, rest, pieces, pace, k)[1..] == Reads(buf + n, rest - n, pieces, pace, k + 1);
      }
    }
  }

  lemma {:induction false} NoReadPastTheEnd(buf: nat, rest: nat, pieces: seq<Piece>, pace: Pace, k: nat)
    requires InMessage(pieces) && Taken(pieces) <= buf
    ensures Reads(buf, rest, pieces, pace, k) == []
    decreases |pieces|
  {
    if pieces == [] {
    } else {
      NoReadPastTheEnd(buf - pieces[0].take, rest, pieces[1..], pace, k);
    }
  }

  /** One of the reads that brought the request in ended with its last byte. */
  ghost predicate EndsAtARead(buf: nat, rest: nat, pieces: seq<Piece>, pace: Pace, k: nat) {
    exists j: nat :: j <= |Reads(buf, rest, pieces, pace, k)|
                     && buf + Total(Reads(buf, rest, pieces, pace, k)[..j]) == Taken(pieces)
  }

  lemma {:induction false} ThatReadIsTheLast(buf: nat, rest: nat, pieces: seq<Piece>, pace: Pace, k: nat, j: nat)
    requires InMessage(pieces) && Taken(pieces) <= buf + rest && buf <= SIZE && j <= |Reads(buf, rest, pieces, pace, k)|
    requires buf + Total(Reads(buf, rest, pieces, pace, k)[..j]) == Taken(pieces)
    ensures j == |Reads(buf, rest, pieces, pace, k)|
    decreases rest, |pieces|
  {
    var all := Reads(buf, rest, pieces, pace, k);
    if j == 0 {
      NoReadPastTheEnd(buf, rest, pieces, pace, k);
    } else if pieces[0].look <= buf {
      ThatReadIsTheLast(buf - pieces[0].take, rest, pieces[1..], pace, k, j);
    } else {
      var n := ReadSize(SIZE - buf, rest, pace(k));
      assert all[1..] == Reads(buf + n, rest - n, pieces, pace, k + 1) && all[..j][1..] == all[1..][..j - 1];
      ThatReadIsTheLast(buf + n, rest - n, pieces, pace, k + 1, j - 1);
    }
  }

  /** A nested CONNECT loses nothing exactly when one of the reads that brought it in ended with its
      last byte: what came behind it in the same read is dropped. */
  lemma NestedConnectIsLosslessIff(buf: nat, rest: nat, pieces: seq<Piece>, pace: Pace, k: nat)
    requires InMessage(pieces) && Taken(pieces) <= buf + rest && buf <= SIZE
    ensures Left(buf, rest, pieces, pace, k) == 0 <==> EndsAtARead(buf, rest, pieces, pace, k)
  {
    var all := Reads(buf, rest, pieces, pace, k);
    DroppedIsWhatCameBehind(buf, rest, pieces, pace, k);
    assert all[..|all|] == all;
    hide Left, Reads, Total, Taken, InMessage;
    if EndsAtARead(buf, rest, pieces, pace, k) {
      var j: nat :| j <= |all| && buf + Total(all[..j]) == Taken(pieces);
      ThatReadIsTheLast(buf, rest, pieces, pace, k, j);
    }
  }

  /** A client that waits for the 200 before it sends anything more is safe at every pace ... */
  lemma WaitingClientLosesNothing(buf: nat, rest: nat, pieces: seq<Piece>, pace: Pace, k: nat)
    requires InMessage(pieces) && Taken(pieces) == buf + rest && buf <= SIZE
    ensures Left(buf, rest, pieces, pace, k) == 0
  {
    DroppedIsWhatCameBehind(buf, rest, pieces, pace, k);
  }

  /** ... and one that does not loses all that arrives with the CONNECT. */
  lemma {:induction false} EagerClientLoses(rest: nat, pieces: seq<Piece>, pace: Pace, k: nat)
    requires InMessage(pieces) && 0 < Taken(pieces) < rest <= 4096 && rest <= pace(k)
    ensures Left(0, rest, pieces, pace, k) == rest - Taken(pieces) > 0
    decreases |pieces|
  {
    if pieces[0].look == 0 {
      EagerClientLoses(rest, pieces[1..], pace, k);
    } else {
      DroppedIsWhatCameBehind(rest, 0, pieces, pace, k + 1);
      NoReadPastTheEnd(rest, 0, pieces, pace, k + 1);
    }
  }
}
