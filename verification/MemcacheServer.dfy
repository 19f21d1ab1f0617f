/** A connection's receive buffer and the loop that frames requests out of it. */
module MemcacheServer {
  import opened Common
  import opened Memcache

  /** A peer that sends `stream` and closes; `sizes` is how much of it each receive gets. */
  class Connection {
    const stream: string
    const sizes: seq<nat>
    var pos: nat
    var calls: nat

    ghost predicate Valid()
      reads this
    {
      pos <= |stream|
    }

    ghost function Rest(): string
      requires Valid()
      reads this
    {
      stream[pos..]
    }

    constructor (stream: string, sizes: seq<nat>)
      ensures Valid() && Rest() == stream
    {
      this.stream, this.sizes, pos, calls := stream, sizes, 0, 0;
    }

    /** At least one byte and at most `avail`, unless the peer has closed. */
    method Recv(avail: nat) returns (bytes: string)
      requires Valid() && 0 < avail
      modifies this
      ensures Valid() && old(Rest()) == bytes + Rest()
      ensures |bytes| <= avail && (bytes == [] ==> old(Rest()) == [])
    {
      var n := if calls < |sizes| && 0 < sizes[calls] then sizes[calls] else avail;
      n := if n < avail then n else avail;
      n := if n < |stream| - pos then n else |stream| - pos;
      bytes := stream[pos..pos + n];
      pos, calls := pos + n, calls + 1;
    }
  }

  lemma Regroup<T>(a: seq<T>, b: seq<T>, c: seq<T>)
    ensures a + (b + c) == (a + b) + c
  {
  }

  class RecvBuffer {
    var data: array<char>
    var used: nat
    var parsed: nat

    ghost predicate Valid()
      reads this
    {
      parsed <= used <= data.Length
    }

    /** What has been received and not parsed. */
    ghost function Pending(): string
      requires Valid()
      reads this, data
    {
      data[parsed..used]
    }

    constructor ()
      ensures Valid() && fresh(data) && Pending() == []
    {
      data := new char[4096];
      used, parsed := 0, 0;
    }

    /** Where the first line end is in what is pending. */
    method FindLine() returns (r: Option<nat>)
      requires Valid()
      ensures r == FindCrlf(Pending())
    {
      ghost var p := Pending();
      var i := parsed;
      while i + 1 < used
        invariant parsed <= i && (parsed < used ==> i < used)
        invariant forall j: nat :: CrlfAt(p, j) ==> j >= i - parsed
      {
        if data[i] == '\r' && data[i + 1] == '\n' {
          assert CrlfAt(p, i - parsed);
          return Some(i - parsed);
        }
        i := i + 1;
      }
      r := None;
    }

    /** Move what is pending to the front. */
    method Compact()
      requires Valid()
      modifies this, data
      ensures Valid() && data == old(data) && parsed == 0 && Pending() == old(Pending())
    {
      if parsed > 0 {
        var remaining := used - parsed;
        var i := 0;
        while i < remaining
          modifies data
          invariant 0 <= i <= remaining
          invariant forall k :: 0 <= k < i ==> data[k] == old(data[parsed + k])
          invariant forall k :: i <= k < data.Length ==> data[k] == old(data[k])
        {
          data[i] := data[parsed + i];
          i := i + 1;
        }
        used, parsed := remaining, 0;
      }
    }

    /** Make room for `n` more bytes. */
    method EnsureSpace(n: nat)
      requires Valid()
      modifies this
      ensures Valid() && used == old(used) && parsed == old(parsed) && used + n <= data.Length
      ensures Pending() == old(Pending()) && (data == old(data) || fresh(data))
    {
      if used + n > data.Length {
        var size := if data.Length * 2 < used + n then used + n else data.Length * 2;
        var bigger := new char[size];
        var i := 0;
        while i < used
          modifies bigger
          invariant 0 <= i <= used && forall k :: 0 <= k < i ==> bigger[k] == data[k]
        {
          bigger[i] := data[i];
          i := i + 1;
        }
        data := bigger;
      }
    }

    method Append(bytes: string)
      requires Valid() && used + |bytes| <= data.Length
      modifies this, data
      ensures Valid() && data == old(data) && Pending() == old(Pending()) + bytes
    {
      var i := 0;
      while i < |bytes|
        modifies data
        invariant 0 <= i <= |bytes|
        invariant forall k :: 0 <= k < used ==> data[k] == old(data[k])
        invariant forall k :: 0 <= k < i ==> data[used + k] == bytes[k]
      {
        data[used + i] := bytes[i];
        i := i + 1;
      }
      used := used + |bytes|;
    }

    /** Receive into the free part of the buffer; false once the peer has closed. */
    method Receive(conn: Connection) returns (open: bool)
      requires Valid() && conn.Valid() && used < data.Length
      modifies this, data, conn
      ensures Valid() && conn.Valid() && data == old(data)
      ensures old(Pending()) + old(conn.Rest()) == Pending() + conn.Rest()
      ensures open ==> |conn.Rest()| < |old(conn.Rest())|
      ensures !open ==> old(conn.Rest()) == [] && Pending() == old(Pending())
    {
      ghost var pending := Pending();
      var bytes := conn.Recv(data.Length - used);
      Append(bytes);
      Regroup(pending, bytes, conn.Rest());
      open := bytes != [];
    }

    /** Make room for `n` bytes at least and receive. */
    method More(conn: Connection, n: nat) returns (open: bool)
      requires Valid() && conn.Valid() && 0 < n
      modifies this, data, conn
      ensures Valid() && conn.Valid() && (data == old(data) || fresh(data))
      ensures Pending() + conn.Rest() == old(Pending()) + old(conn.Rest())
      ensures open ==> |conn.Rest()| < |old(conn.Rest())|
      ensures !open ==> conn.Rest() == [] && Pending() == old(Pending())
    {
      Compact();
      EnsureSpace(n);
      open := Receive(conn);
    }

    /** Take `n` pending bytes and the line end after them. */
    method Take(n: nat) returns (bytes: string)
      requires Valid() && parsed + n + 2 <= used
      modifies this
      ensures Valid() && data == old(data)
      ensures bytes == old(Pending())[..n] && Pending() == old(Pending())[n + 2..]
    {
      bytes := data[parsed..parsed + n];
      assert bytes == Pending()[..n];
      parsed := parsed + n + 2;
    }

    /** The next line without its end, or None if the peer closes first. */
    method ReadLine(conn: Connection) returns (line: Option<string>)
      requires Valid() && conn.Valid()
      modifies this, data, conn
      ensures Valid() && conn.Valid() && (data == old(data) || fresh(data))
      ensures var s := old(Pending()) + old(conn.Rest());
              match FindCrlf(s)
              case None => line.None?
              case Some(i) => line == Some(s[..i]) && Pending() + conn.Rest() == s[i + 2..]
    {
      ghost var s := Pending() + conn.Rest();
      var crlf := FindLine();
      while crlf.None?
        invariant Valid() && conn.Valid() && (data == old(data) || fresh(data))
        invariant s == Pending() + conn.Rest()
        invariant crlf == FindCrlf(Pending())
        decreases |conn.Rest()|
      {
        var open := More(conn, 1024);
        if !open {
          assert s == Pending();
          return None;
        }
        crlf := FindLine();
      }
      CrlfStays(Pending(), conn.Rest());
      var bytes := Take(crlf.value);
      line := Some(bytes);
    }

    /** The next `nbytes` and the line end after them, or None if the peer closes first. */
    method ReadBlock(conn: Connection, nbytes: nat) returns (block: Option<string>)
      requires Valid() && conn.Valid()
      modifies this, data, conn
      ensures Valid() && conn.Valid() && (data == old(data) || fresh(data))
      ensures var s := old(Pending()) + old(conn.Rest());
              if |s| < nbytes + 2 then block.None?
              else block == Some(s[..nbytes]) && Pending() + conn.Rest() == s[nbytes + 2..]
    {
      ghost var s := Pending() + conn.Rest();
      var need := nbytes + 2;
      while used - parsed < need
        invariant Valid() && conn.Valid() && (data == old(data) || fresh(data))
        invariant s == Pending() + conn.Rest()
        decreases |conn.Rest()|
      {
        var open := More(conn, need - (used - parsed) + 1);
        if !open {
          assert s == Pending();
          return None;
        }
      }
      assert s[..nbytes] == Pending()[..nbytes] && s[need..] == Pending()[need..] + conn.Rest();
      var bytes := Take(nbytes);
      block := Some(bytes);
    }
  }

  /** One round of the loop: a line, and the data block it calls for. */
  method NextRequest(head: seq<string> -> Head, buf: RecvBuffer, conn: Connection) returns (open: bool,
      req: Option<Request>)
    requires buf.Valid() && conn.Valid()
    modifies buf, buf.data, conn
    ensures buf.Valid() && conn.Valid() && (buf.data == old(buf.data) || fresh(buf.data))
    ensures match First(head, old(buf.Pending()) + old(conn.Rest()))
            case End => !open
            case Next(r, rest) => open && req == r && buf.Pending() + conn.Rest() == rest
  {
    var line := buf.ReadLine(conn);
    if line.None? {
      return false, None;
    }
    var tokens := Tokenize(line.value);
    match head(tokens)
    case Blank =>
      return true, None;
    case Quit =>
      return false, None;
    case Whole(r) =>
      return true, Some(r);
    case Block(cmd, key, flags, exptime, nbytes, noreply) =>
      var block := buf.ReadBlock(conn, nbytes);
      if block.None? {
        return false, None;
      }
      return true, Some(Store(cmd, key, flags, exptime, noreply, block.value));
  }

  /** Serving what comes first and then the rest is serving the whole. */
  lemma Onward(head: seq<string> -> Head, total: seq<Request>, reqs: seq<Request>, s: string)
    requires First(head, s).Next? && total == reqs + Requests(head, s)
    ensures total == reqs + Asked(First(head, s)) + Requests(head, First(head, s).rest)
  {
  }

  function Asked(f: Framed): seq<Request> {
    if f.Next? && f.req.Some? then [f.req.value] else []
  }

  method Serve(head: seq<string> -> Head, stream: string, sizes: seq<nat>) returns (reqs: seq<Request>)
    ensures reqs == Requests(head, stream)
  {
    var conn := new Connection(stream, sizes);
    var buf := new RecvBuffer();
    ghost var total, s := Requests(head, stream), stream;
    var open := true;
    reqs := [];
    while open
      invariant buf.Valid() && conn.Valid() && fresh(conn) && fresh(buf) && fresh(buf.data)
      invariant open ==> s == buf.Pending() + conn.Rest() && total == reqs + Requests(head, s)
      invariant !open ==> total == reqs
      decreases open, |s|
    {
      var req;
      open, req := NextRequest(head, buf, conn);
      if open {
        Onward(head, total, reqs, s);
        reqs := reqs + if req.Some? then [req.value] else [];
        s := First(head, s).rest;
      }
    }
  }

  /** Whatever sizes the receives have, the requests served are those of the stream. */
  method ServeConnection(stream: string, sizes: seq<nat>) returns (reqs: seq<Request>)
    ensures reqs == Requests(HeadOf, stream)
  {
    reqs := Serve(HeadOf, stream, sizes);
  }
}
