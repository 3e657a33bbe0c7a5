/** The part of a TCP stream the handshakes use: bytes still to come, and bytes written. */
module TcpStream {
  import opened Bytes

  class TcpStream {
    /** Everything the peer sends before closing that has not been read yet. */
    var unread: seq<byte>
    var written: seq<byte>

    constructor (incoming: seq<byte>)
      ensures unread == incoming && written == []
    {
      unread, written := incoming, [];
    }

    method WriteAll(data: seq<byte>)
      modifies this`written
      ensures written == old(written) + data
    {
      written := written + data;
    }

    /** Reads whatever has arrived: some nonempty prefix that fits, or nothing once the peer has closed. */
    method Read(buf: array<byte>, from: nat) returns (n: nat)
      requires from < buf.Length
      modifies this`unread, buf
      ensures n <= |old(unread)| && n <= buf.Length - from
      ensures n == 0 <==> old(unread) == []
      ensures buf[..from + n] == old(buf[..from]) + old(unread)[..n]
      ensures unread == old(unread)[n..]
    {
      if unread == [] {
        return 0;
      }
      n :| 1 <= n <= |unread| && n <= buf.Length - from;
      forall i | 0 <= i < n {
        buf[from + i] := unread[i];
      }
      unread := unread[n..];
    }

    /** Reads exactly `n` bytes, or fails when the peer closes first. */
    method ReadExact(n: nat) returns (r: Option<seq<byte>>)
      modifies this`unread
      ensures r.Some? <==> n <= |old(unread)|
      ensures r.Some? ==> r.value == old(unread)[..n] && unread == old(unread)[n..]
    {
      if n > |unread| {
        unread := [];
        return None;
      }
      r := Some(unread[..n]);
      unread := unread[n..];
    }
  }
}
