/**
 * The length-prefixed frame codec of the chat relay: a frame is a 4-byte
 * big-endian unsigned length (`struct.pack('>I', n)`) followed by exactly
 * that many payload bytes.  The incoming side of a connection is a stream
 * that delivers the peer's bytes in chunks, as successive `recv` calls do.
 */
module Frames {
  import opened Wrappers

  type Byte = b: int | 0 <= b < 256
  type Bytes = seq<Byte>

  /** Identity of a client connection (the socket object in the server). */
  type ConnId = nat

  /** `'>I'` packs lengths strictly below 2^32; larger ones make `struct.pack` raise. */
  const LengthLimit: nat := 0x1_0000_0000

  /** `struct.pack('>I', n)`: most significant byte first. */
  function Pack(n: nat): (b: Bytes)
    requires n < LengthLimit
    ensures |b| == 4
  {
    [n / 0x100_0000, n / 0x1_0000 % 0x100, n / 0x100 % 0x100, n % 0x100]
  }

  /** `struct.unpack('>I', b)[0]` on a 4-byte string. */
  function Unpack(b: Bytes): (n: nat)
    requires |b| == 4
    ensures n < LengthLimit
  {
    b[0] as int * 0x100_0000 + b[1] as int * 0x1_0000 + b[2] as int * 0x100 + b[3] as int
  }

  /** Reading back a packed length yields the length. */
  lemma UnpackPack(n: nat)
    requires n < LengthLimit
    ensures Unpack(Pack(n)) == n
  {
    var q1, r0 := n / 0x100, n % 0x100;
    var q2, r1 := q1 / 0x100, q1 % 0x100;
    var q3, r2 := q2 / 0x100, q2 % 0x100;
    assert n == q1 * 0x100 + r0;
    assert q1 == q2 * 0x100 + r1;
    assert q2 == q3 * 0x100 + r2;
    assert n / 0x1_0000 == q2;
    assert n / 0x100_0000 == q3;
  }

  /** Every 4-byte string is the packing of the length it denotes. */
  lemma PackUnpack(b: Bytes)
    requires |b| == 4
    ensures Pack(Unpack(b)) == b
  {
    var n := Unpack(b);
    var q1: int := b[0] as int * 0x1_0000 + b[1] as int * 0x100 + b[2] as int;
    var q2: int := b[0] as int * 0x100 + b[1] as int;
    assert n == q1 * 0x100 + b[3];
    assert q1 == q2 * 0x100 + b[2];
    assert n / 0x100 == q1 && n % 0x100 == b[3];
    assert q1 / 0x100 == q2 && q1 % 0x100 == b[2];
    assert q2 / 0x100 == b[0] && q2 % 0x100 == b[1];
    assert n / 0x1_0000 == q2;
    assert n / 0x100_0000 == b[0];
  }

  /** The bytes `send_message` writes for one payload: length prefix, then the payload. */
  function EncodeFrame(data: Bytes): (frame: Bytes)
    requires |data| < LengthLimit
    ensures |frame| == 4 + |data| && frame[4..] == data
    ensures Unpack(frame[..4]) == |data|
  {
    UnpackPack(|data|);
    assert (Pack(|data|) + data)[..4] == Pack(|data|);
    Pack(|data|) + data
  }

  /**
   * What `recvall(conn, n)` returns when `p` is everything the peer will
   * still send, paired with what stays unread: exactly `n` bytes, or `None`
   * once the stream ends short, in which case everything has been consumed.
   */
  function ReadExactly(p: Bytes, n: nat): (r: (Option<Bytes>, Bytes))
    ensures r.0.Some? <==> n <= |p|
    ensures r.0.Some? ==> p == r.0.value + r.1 && |r.0.value| == n
    ensures r.0.None? ==> r.1 == []
  {
    if |p| < n then (None, []) else (Some(p[..n]), p[n..])
  }

  /**
   * What `recv_msg(conn)` returns on the unread bytes `p`, with the bytes
   * left unread: `None` when the stream ends inside the prefix or the payload.
   */
  function ReadFrame(p: Bytes): (r: (Option<Bytes>, Bytes))
    ensures r.0.Some? ==> |r.0.value| < LengthLimit && p == EncodeFrame(r.0.value) + r.1
    ensures r.0.None? ==> r.1 == []
  {
    var (prefix, rest) := ReadExactly(p, 4);
    if prefix.None? then (None, rest)
    else
      var (payload, rest') := ReadExactly(rest, Unpack(prefix.value));
      PackUnpack(prefix.value);
      (payload, rest')
  }

  /** `recv_msg` applied to an encoded frame returns its payload and leaves what follows unread. */
  lemma ReadFrameEncode(data: Bytes, rest: Bytes)
    requires |data| < LengthLimit
    ensures ReadFrame(EncodeFrame(data) + rest) == (Some(data), rest)
  {
    var p := EncodeFrame(data) + rest;
    UnpackPack(|data|);
    assert p[..4] == Pack(|data|);
    assert p[4..] == data + rest;
    assert (data + rest)[..|data|] == data;
    assert (data + rest)[|data|..] == rest;
  }

  /** All bytes of a sequence of chunks, in order. */
  function Flatten(chunks: seq<Bytes>): (p: Bytes)
  {
    if chunks == [] then [] else chunks[0] + Flatten(chunks[1..])
  }

  /**
   * The receiving side of a client socket.  `chunks` are the pieces in
   * which the peer's bytes arrive; an empty sequence is end of stream.
   */
  class Stream {
    const id: ConnId
    var chunks: seq<Bytes>
    var closed: bool

    /** A delivered chunk is never empty: `recv` returns b'' only at end of stream. */
    ghost predicate Valid()
      reads this
    {
      forall i :: 0 <= i < |chunks| ==> chunks[i] != []
    }

    /** Everything the peer will still deliver. */
    function Pending(): Bytes
      reads this
    {
      Flatten(chunks)
    }

    constructor (id: ConnId, chunks: seq<Bytes>)
      requires forall i :: 0 <= i < |chunks| ==> chunks[i] != []
      ensures Valid() && this.id == id && this.chunks == chunks && !closed
    {
      this.id := id;
      this.chunks := chunks;
      this.closed := false;
    }

    /** `conn.recv(bufsize)`: at most `bufsize` bytes, b'' only at end of stream. */
    method Recv(bufsize: nat) returns (packet: Bytes)
      requires Valid() && bufsize > 0
      modifies this
      ensures Valid() && closed == old(closed)
      ensures |packet| <= bufsize
      ensures packet == [] <==> old(Pending()) == []
      ensures old(Pending()) == packet + Pending()
    {
      if chunks == [] {
        packet := [];
      } else if |chunks[0]| <= bufsize {
        packet := chunks[0];
        chunks := chunks[1..];
      } else {
        packet := chunks[0][..bufsize];
        var tail := chunks[0][bufsize..];
        assert chunks[0] == packet + tail;
        chunks := [tail] + chunks[1..];
        assert Flatten(chunks) == tail + Flatten(chunks[1..]);
      }
    }

    /** `conn.close()`: only the closed mark is modelled. */
    method Close()
      modifies this
      ensures closed && chunks == old(chunks)
    {
      closed := true;
    }
  }

  /**
   * `recvall(conn, n)`: reads until the buffer holds exactly `n` bytes,
   * never asking for more than is missing; `None` at end of stream.
   */
  method RecvAll(conn: Stream, n: nat) returns (r: Option<Bytes>)
    requires conn.Valid()
    modifies conn
    ensures conn.Valid() && conn.closed == old(conn.closed)
    ensures (r, conn.Pending()) == ReadExactly(old(conn.Pending()), n)
  {
    var data: Bytes := [];
    while |data| < n
      invariant conn.Valid() && conn.closed == old(conn.closed)
      invariant |data| <= n
      invariant old(conn.Pending()) == data + conn.Pending()
      decreases n - |data|
    {
      var packet := conn.Recv(n - |data|);
      if packet == [] {
        return None;
      }
      data := data + packet;
    }
    assert old(conn.Pending())[..n] == data;
    return Some(data);
  }

  /** `recv_msg(conn)`: one frame's payload, or `None` when the stream ends first. */
  method RecvMsg(conn: Stream) returns (r: Option<Bytes>)
    requires conn.Valid()
    modifies conn
    ensures conn.Valid() && conn.closed == old(conn.closed)
    ensures (r, conn.Pending()) == ReadFrame(old(conn.Pending()))
  {
    var rawLength := RecvAll(conn, 4);
    if rawLength.None? {
      return None;
    }
    var length := Unpack(rawLength.value);
    r := RecvAll(conn, length);
  }
}
