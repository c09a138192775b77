/** Length-framed payloads over a byte stream that arrives in arbitrary pieces. */
module TcpFraming {
  import opened Prelude
  import Codec

  const U32: int := 0x1_0000_0000

  /** The most one read returns. */
  const READ_SIZE: int := 1024

  /** Up to here the 32-bit truncation in `recv_chunk` cannot matter. */
  const MAX_FRAME: int := U32 - READ_SIZE

  // ---------------------------------------------------------------------
  // The stream
  // ---------------------------------------------------------------------

  lemma FourBytes()
    ensures Codec.Pow256(4) == U32
  {
  }

  /** What `write_chunk` writes: the length cut to 32 bits, then the bytes. */
  function Frame(data: Payload): seq<byte> {
    Codec.BigEndian(|data| % U32, 4) + data
  }

  function FrameAll(ps: seq<Payload>): seq<byte> {
    if ps == [] then [] else Frame(ps[0]) + FrameAll(ps[1..])
  }

  function Announced(s: seq<byte>): (r: nat)
    requires 4 <= |s|
    ensures r < U32
  {
    FourBytes();
    Codec.FromBigEndian(s[..4])
  }

  /** `s` begins with a complete frame. */
  predicate Whole(s: seq<byte>) {
    4 <= |s| && 4 + Announced(s) <= |s|
  }

  /** The payloads of the complete frames at the front of `s`. */
  function Parse(s: seq<byte>): seq<Payload> {
    if Whole(s) then [s[4..4 + Announced(s)]] + Parse(s[4 + Announced(s)..]) else []
  }

  lemma FrameFirst(p: Payload, s: seq<byte>)
    requires |p| < U32
    ensures var t := Frame(p) + s;
      Whole(t) && Announced(t) == |p| && t[4..4 + |p|] == p && t[4 + |p|..] == s
  {
    var t := Frame(p) + s;
    assert t[..4] == Codec.BigEndian(|p|, 4);
    FourBytes();
    Codec.ReadBack(|p|, 4);
  }

  lemma ParseFirst(p: Payload, s: seq<byte>)
    requires |p| < U32
    ensures Parse(Frame(p) + s) == [p] + Parse(s)
  {
    FrameFirst(p, s);
  }

  lemma ParseStep(p: Payload, tail: seq<byte>, s: seq<byte>)
    requires |p| < U32
    ensures Parse(Frame(p) + tail + s) == [p] + Parse(tail + s)
  {
    Regroup(Frame(p), tail, s);
    ParseFirst(p, tail + s);
  }

  lemma {:induction false} ParseAll(ps: seq<Payload>, s: seq<byte>)
    requires forall i :: 0 <= i < |ps| ==> |ps[i]| < U32
    ensures Parse(FrameAll(ps) + s) == ps + Parse(s)
  {
    if ps == [] {
      NothingBefore(s);
    } else {
      var head, tail := ps[0], ps[1..];
      ParseAll(tail, s);
      ParseStep(head, FrameAll(tail), s);
      Regroup([head], tail, Parse(s));
      assert ps == [head] + tail;
    }
  }

  lemma FrameAllCons(p: Payload, ps: seq<Payload>)
    ensures FrameAll([p] + ps) == Frame(p) + FrameAll(ps)
  {
    assert ([p] + ps)[1..] == ps;
  }

  lemma {:induction false} FrameAllSnoc(ps: seq<Payload>, p: Payload)
    ensures FrameAll(ps + [p]) == FrameAll(ps) + Frame(p)
  {
    if ps == [] {
      FrameAllCons(p, []);
      assert [p] + [] == [] + [p] && Frame(p) + [] == [] + Frame(p);
    } else {
      var head, tail := ps[0], ps[1..];
      assert ps == [head] + tail;
      FrameAllSnoc(tail, p);
      Regroup([head], tail, [p]);
      FrameAllCons(head, tail + [p]);
      Regroup(Frame(head), FrameAll(tail), Frame(p));
    }
  }

  /** `got` are the payloads of `ps` whose frames end within the first `k` bytes. */
  predicate CutAt(ps: seq<Payload>, got: seq<Payload>, k: nat) {
    var n := |got|;
    && n <= |ps| && got == ps[..n] && |FrameAll(ps[..n])| <= k
    && (n < |ps| ==> k < |FrameAll(ps[..n + 1])|)
  }

  lemma CutCons(ps: seq<Payload>, got: seq<Payload>, k: nat)
    requires ps != [] && CutAt(ps[1..], got, k)
    ensures CutAt(ps, [ps[0]] + got, k + |Frame(ps[0])|)
  {
    var n := |got|;
    CutLengths(ps, n);
    if n + 1 < |ps| {
      CutLengths(ps, n + 1);
    }
  }

  /** A stream cut anywhere parses to the payloads that lie before the cut, whole. */
  lemma {:induction false} ParseCut(ps: seq<Payload>, k: nat)
    requires forall i :: 0 <= i < |ps| ==> |ps[i]| < U32
    requires k <= |FrameAll(ps)|
    ensures CutAt(ps, Parse(FrameAll(ps)[..k]), k)
  {
    if ps == [] {
      assert FrameAll(ps)[..k] == [];
    } else {
      var h, rest := |Frame(ps[0])|, FrameAll(ps[1..]);
      if k < h {
        CutFrame(ps[0], rest, k);
        CutLengths(ps, 0);
      } else {
        ParseCut(ps[1..], k - h);
        CutBeyond(ps[0], rest, k);
        CutCons(ps, Parse(rest[..k - h]), k - h);
      }
    }
  }

  lemma CutBeyond(p: Payload, tail: seq<byte>, k: nat)
    requires |p| < U32 && |Frame(p)| <= k <= |Frame(p)| + |tail|
    ensures Parse((Frame(p) + tail)[..k]) == [p] + Parse(tail[..k - |Frame(p)|])
  {
    TakePast(Frame(p), tail, k);
    ParseFirst(p, tail[..k - |Frame(p)|]);
  }

  lemma CutFrame(p: Payload, rest: seq<byte>, k: nat)
    requires |p| < U32 && k < |Frame(p)|
    ensures !Whole((Frame(p) + rest)[..k])
  {
    var s := (Frame(p) + rest)[..k];
    FrameFirst(p, rest);
    if 4 <= k {
      assert s[..4] == (Frame(p) + rest)[..4];
    }
  }

  lemma CutLengths(ps: seq<Payload>, n: nat)
    requires n < |ps|
    ensures ps[..n + 1] == [ps[0]] + ps[1..][..n]
    ensures |FrameAll(ps[..n + 1])| == |Frame(ps[0])| + |FrameAll(ps[1..][..n])|
  {
    assert ps[..n + 1][1..] == ps[1..][..n];
  }

  // ---------------------------------------------------------------------
  // Truncation
  // ---------------------------------------------------------------------

  /** `len <= buffer.len() as u32` */
  predicate Enough(len: nat, buffered: nat) {
    len <= buffered % U32
  }

  lemma Truncated(len: nat, n: nat)
    ensures Enough(len, n) ==> len <= n
    ensures len <= MAX_FRAME && n < len + READ_SIZE ==> (Enough(len, n) <==> len <= n)
  {
  }

  /**
   A read never finds more than `len - 1` bytes buffered, so at most
   `len - 1 + READ_SIZE` are there afterwards. Over that range the truncated
   comparison is the intended one exactly for frames up to `MAX_FRAME`.
   */
  lemma TruncationHarmlessIff(len: nat)
    requires len < U32
    ensures (forall n: nat :: n < len + READ_SIZE ==> (Enough(len, n) <==> len <= n)) <==> len <= MAX_FRAME
  {
    if MAX_FRAME < len {
      assert !Enough(len, U32);
    }
  }

  // ---------------------------------------------------------------------
  // The reader
  // ---------------------------------------------------------------------

  /** What a read on the socket comes to; `Pending` also stands for a call dropped while waiting. */
  datatype Read = Data(bytes: seq<byte>) | Pending | Eof

  function Arriving(script: seq<Read>): seq<byte> {
    if script == [] then [] else (if script[0].Data? then script[0].bytes else []) + Arriving(script[1..])
  }

  predicate Reads(script: seq<Read>) {
    forall i :: 0 <= i < |script| && script[i].Data? ==> 0 < |script[i].bytes| <= READ_SIZE
  }

  /** The next read; a socket with nothing more to say stays silent. */
  function Next(script: seq<Read>): Read {
    if script == [] then Pending else script[0]
  }

  function Rest(script: seq<Read>): seq<Read> {
    if script == [] then [] else script[1..]
  }

  class Socket {
    var script: seq<Read>
    ghost var taken: seq<byte>
    /** Everything that will ever arrive. */
    ghost const stream: seq<byte>

    ghost predicate Valid()
      reads this
    {
      Reads(script) && taken + Arriving(script) == stream
    }

    constructor (script: seq<Read>)
      requires Reads(script)
      ensures Valid() && this.script == script && taken == [] && stream == Arriving(script)
    {
      this.script, taken, stream := script, [], Arriving(script);
    }

    method Read() returns (r: Read)
      requires Valid()
      modifies this
      ensures Valid() && script == Rest(old(script)) && r == Next(old(script))
      ensures r.Data? ==> 0 < |r.bytes| <= READ_SIZE && taken == old(taken) + r.bytes
      ensures !r.Data? ==> taken == old(taken)
    {
      if script == [] {
        return Pending;
      }
      r := script[0];
      if r.Data? {
        Regroup(taken, r.bytes, Arriving(script[1..]));
        taken := taken + r.bytes;
      }
      script := script[1..];
    }
  }

  datatype Received = Chunk(data: Payload) | Closed | Waiting

  /** The result of a call, and what it leaves behind. */
  datatype Outcome = Outcome(r: Received, length: Option<nat>, buffer: seq<byte>, script: seq<Read>)

  function Ended(x: Read, length: Option<nat>, buffer: seq<byte>, script: seq<Read>): Outcome {
    Outcome(if x.Eof? then Closed else Waiting, length, buffer, script)
  }

  /** The second loop of a call, once the length is known. */
  function BodyOf(len: nat, buffer: seq<byte>, script: seq<Read>): Outcome
    decreases |script|
  {
    if Enough(len, |buffer|) then Outcome(Chunk(buffer[..len]), None, buffer[len..], script)
    else
      match Next(script)
      case Data(bytes) => BodyOf(len, buffer + bytes, Rest(script))
      case x => Ended(x, Some(len), buffer, Rest(script))
  }

  /** A whole call. */
  function ChunkOf(length: Option<nat>, buffer: seq<byte>, script: seq<Read>): Outcome
    decreases |script|
  {
    if length.Some? then BodyOf(length.value, buffer, script)
    else if 4 <= |buffer| then BodyOf(Announced(buffer), buffer[4..], script)
    else
      match Next(script)
      case Data(bytes) => ChunkOf(None, buffer + bytes, Rest(script))
      case x => Ended(x, None, buffer, Rest(script))
  }

  /**
   The call took the first `n` reads. It goes on while they bring data; end of file
   closes it, and otherwise it waits.
   */
  predicate StopsAt(o: Outcome, script: seq<Read>, n: nat) {
    && n <= |script| && o.script == script[n..]
    && (forall i :: 0 <= i < n - 1 ==> script[i].Data?)
    && match o.r
       case Chunk(_) => 0 < n ==> script[n - 1].Data?
       case Closed => 0 < n && script[n - 1].Eof?
       case Waiting => if 0 < n && !script[n - 1].Data? then script[n - 1].Pending? else n == |script|
  }

  lemma StopsLater(o: Outcome, script: seq<Read>, n: nat)
    requires script != [] && script[0].Data? && StopsAt(o, script[1..], n)
    ensures StopsAt(o, script, n + 1)
  {
    assert script[1..][n..] == script[n + 1..];
    assert forall i :: 0 <= i < n ==> script[1..][i] == script[i + 1];
  }

  lemma {:induction false} BodyStops(len: nat, buffer: seq<byte>, script: seq<Read>) returns (n: nat)
    ensures StopsAt(BodyOf(len, buffer, script), script, n)
    decreases |script|
  {
    n := 0;
    if !Enough(len, |buffer|) && script != [] {
      if script[0].Data? {
        n := BodyStops(len, buffer + script[0].bytes, script[1..]);
        StopsLater(BodyOf(len, buffer, script), script, n);
      }
      n := n + 1;
    }
  }

  /** So a call reports a closed connection exactly when it has read the end of the stream. */
  lemma {:induction false} ChunkStops(length: Option<nat>, buffer: seq<byte>, script: seq<Read>) returns (n: nat)
    ensures StopsAt(ChunkOf(length, buffer, script), script, n)
    decreases |script|
  {
    n := 0;
    if length.Some? {
      n := BodyStops(length.value, buffer, script);
    } else if 4 <= |buffer| {
      n := BodyStops(Announced(buffer), buffer[4..], script);
    } else if script != [] {
      if script[0].Data? {
        n := ChunkStops(None, buffer + script[0].bytes, script[1..]);
        StopsLater(ChunkOf(length, buffer, script), script, n);
      }
      n := n + 1;
    }
  }

  class FrameReader {
    var length: Option<nat>
    var buffer: seq<byte>
    /** Returned so far. */
    ghost var delivered: seq<Payload>

    /** No frame seen so far was over `MAX_FRAME`. */
    ghost predicate Tame()
      reads this
    {
      (forall i :: 0 <= i < |delivered| ==> |delivered[i]| <= MAX_FRAME) && (length.Some? ==> length.value <= MAX_FRAME)
    }

    /** The bytes read and not yet returned. */
    ghost function Unparsed(): seq<byte>
      reads this
    {
      (if length.Some? then Codec.BigEndian(length.value, 4) else []) + buffer
    }

    /** All that was read was returned, or is still here. */
    ghost predicate Accounted(socket: Socket)
      reads this, socket
    {
      && socket.Valid()
      && (length.Some? ==> length.value < U32)
      && (forall i :: 0 <= i < |delivered| ==> |delivered[i]| < U32)
      && socket.taken == FrameAll(delivered) + Unparsed()
    }

    /** Between calls no complete frame is held back, unless a frame was too long. */
    ghost predicate Valid(socket: Socket)
      reads this, socket
    {
      Accounted(socket) && (Tame() ==> |buffer| < if length.Some? then length.value else READ_SIZE)
    }

    constructor (socket: Socket)
      requires socket.Valid() && socket.taken == []
      ensures Valid(socket) && delivered == []
    {
      length, buffer, delivered := None, [], [];
    }

    /** One read into the buffer. */
    method Fill(socket: Socket) returns (r: Read)
      requires Accounted(socket)
      modifies this`buffer, socket
      ensures Accounted(socket) && socket.script == Rest(old(socket.script)) && r == Next(old(socket.script))
      ensures r.Data? ==> buffer == old(buffer) + r.bytes && |r.bytes| <= READ_SIZE
      ensures !r.Data? ==> buffer == old(buffer)
    {
      r := socket.Read();
      if r.Data? {
        Regroup(FrameAll(delivered), Unparsed(), r.bytes);
        Regroup(if length.Some? then Codec.BigEndian(length.value, 4) else [], buffer, r.bytes);
        buffer := buffer + r.bytes;
      }
    }

    /** Wait for the four length bytes. */
    method ReadLength(socket: Socket) returns (r: Read)
      requires Valid(socket) && length.None?
      modifies this`length, this`buffer, socket
      ensures Accounted(socket) && |socket.script| <= |old(socket.script)|
      ensures !r.Data? ==> Valid(socket) && length.None? && |buffer| < 4
      ensures ChunkOf(None, old(buffer), old(socket.script)) ==
        if r.Data? then ChunkOf(length, buffer, socket.script) else Ended(r, None, buffer, socket.script)
      ensures !r.Data? ==> socket.script == [] || |socket.script| < |old(socket.script)|
      ensures r.Data? ==> length.Some? && (Tame() ==> |buffer| < READ_SIZE)
    {
      while true
        invariant Accounted(socket) && length.None? && |socket.script| <= |old(socket.script)|
        invariant Tame() ==> |buffer| < READ_SIZE + 4
        invariant ChunkOf(None, buffer, socket.script) == ChunkOf(None, old(buffer), old(socket.script))
        decreases |socket.script|
      {
        if 4 <= |buffer| {
          TakeLength(socket);
          return Data([]);
        }
        r := Fill(socket);
        if !r.Data? {
          return;
        }
      }
    }

    method TakeLength(ghost socket: Socket)
      requires Accounted(socket) && length.None? && 4 <= |buffer|
      modifies this`length, this`buffer
      ensures Accounted(socket) && length == Some(Announced(old(buffer))) && buffer == old(buffer)[4..]
    {
      var len := Announced(buffer);
      Codec.WriteBack(buffer[..4]);
      SplitAt(buffer, 4);
      assert Unparsed() == buffer;
      buffer := buffer[4..];
      length := Some(len);
    }

    method TakeBody(ghost socket: Socket) returns (data: Payload)
      requires Accounted(socket) && length.Some? && length.value <= |buffer|
      modifies this`length, this`buffer, this`delivered
      ensures Accounted(socket) && length.None? && delivered == old(delivered) + [data]
      ensures data == old(buffer)[..old(length).value] && buffer == old(buffer)[|data|..]
      ensures Tame() ==> old(Tame())
    {
      var len := length.value;
      data := buffer[..len];
      FrameOfBody(data, len);
      FrameAllSnoc(delivered, data);
      Passed(FrameAll(delivered), FrameAll(delivered + [data]), Frame(data), Codec.BigEndian(len, 4), data, buffer);
      buffer := buffer[len..];
      LastOf(delivered, data);
      length := None;
      delivered := delivered + [data];
    }

    /** Wait for the announced bytes. */
    method ReadBody(socket: Socket) returns (r: Received)
      requires Accounted(socket) && length.Some?
      requires Tame() ==> |buffer| < length.value + READ_SIZE
      modifies this`length, this`buffer, this`delivered, socket
      ensures Valid(socket) && |socket.script| <= |old(socket.script)|
      ensures delivered == if r.Chunk? then old(delivered) + [r.data] else old(delivered)
      ensures !r.Chunk? ==> length.Some? && (socket.script == [] || |socket.script| < |old(socket.script)|)
      ensures Outcome(r, length, buffer, socket.script) == BodyOf(old(length).value, old(buffer), old(socket.script))
    {
      ghost var tame := Tame();
      while true
        invariant Accounted(socket) && length == old(length) && delivered == old(delivered) && tame == Tame()
        invariant BodyOf(length.value, buffer, socket.script) == BodyOf(length.value, old(buffer), old(socket.script))
        invariant |socket.script| <= |old(socket.script)|
        invariant tame ==> |buffer| < length.value + READ_SIZE
        decreases |socket.script|
      {
        Truncated(length.value, |buffer|);
        if Enough(length.value, |buffer|) {
          var data := TakeBody(socket);
          return Chunk(data);
        }
        var x := Fill(socket);
        if !x.Data? {
          return if x.Eof? then Closed else Waiting;
        }
      }
    }

    /** The next payload, or why there is none yet; the call can be dropped and made again. */
    method RecvChunk(socket: Socket) returns (r: Received)
      requires Valid(socket)
      modifies this, socket
      ensures Valid(socket) && |socket.script| <= |old(socket.script)|
      ensures delivered == if r.Chunk? then old(delivered) + [r.data] else old(delivered)
      ensures !r.Chunk? ==> socket.script == [] || |socket.script| < |old(socket.script)|
      ensures !r.Chunk? && Tame() ==> delivered == Parse(socket.taken)
      ensures Outcome(r, length, buffer, socket.script) == ChunkOf(old(length), old(buffer), old(socket.script))
    {
      if length.None? {
        var x := ReadLength(socket);
        if !x.Data? {
          Held(delivered, Unparsed());
          return if x.Eof? then Closed else Waiting;
        }
      }
      r := ReadBody(socket);
      if !r.Chunk? && Tame() {
        Pieces(length.value, buffer);
        Held(delivered, Unparsed());
      }
    }
  }

  lemma Passed<T>(front: seq<T>, all: seq<T>, frame: seq<T>, header: seq<T>, data: seq<T>, buffer: seq<T>)
    requires data <= buffer && frame == header + data && all == front + frame
    ensures front + (header + buffer) == all + ([] + buffer[|data|..])
  {
    var rest := buffer[|data|..];
    SplitAt(buffer, |data|);
    NothingBefore(rest);
    Regroup(header, data, rest);
    Regroup(front, frame, rest);
  }

  lemma FrameOfBody(data: Payload, len: nat)
    requires |data| == len < U32
    ensures Frame(data) == Codec.BigEndian(len, 4) + data
  {
  }

  lemma LastOf(ps: seq<Payload>, p: Payload)
    ensures (ps + [p])[|ps|] == p && forall i :: 0 <= i < |ps| ==> (ps + [p])[i] == ps[i]
  {
  }

  lemma Held(delivered: seq<Payload>, rest: seq<byte>)
    requires forall i :: 0 <= i < |delivered| ==> |delivered[i]| < U32
    requires !Whole(rest)
    ensures Parse(FrameAll(delivered) + rest) == delivered
  {
    ParseAll(delivered, rest);
  }

  lemma Pieces(len: nat, buffer: seq<byte>)
    requires len < U32
    ensures var s := Codec.BigEndian(len, 4) + buffer;
      Announced(s) == len && (|buffer| < len ==> !Whole(s))
  {
    assert (Codec.BigEndian(len, 4) + buffer)[..4] == Codec.BigEndian(len, 4);
    FourBytes();
    Codec.ReadBack(len, 4);
  }

  // ---------------------------------------------------------------------
  // Whole conversations
  // ---------------------------------------------------------------------

  predicate Sendable(ps: seq<Payload>) {
    forall i :: 0 <= i < |ps| ==> |ps[i]| <= MAX_FRAME
  }

  lemma SameFirst(p: Payload, q: Payload, s: seq<byte>, t: seq<byte>)
    requires |p| < U32 && |q| < U32 && Frame(p) + s <= Frame(q) + t
    ensures p == q && s <= t
  {
    FrameFirst(p, s);
    FrameFirst(q, t);
    var a, b := Frame(p) + s, Frame(q) + t;
    assert a[..4] == b[..4];
    assert a[4..4 + |p|] == b[4..4 + |p|];
  }

  /** Frames that begin a framed stream are its first payloads. */
  lemma {:induction false} Follow(ps: seq<Payload>, ds: seq<Payload>, u: seq<byte>)
    requires Sendable(ps) && forall i :: 0 <= i < |ds| ==> |ds[i]| < U32
    requires FrameAll(ds) + u <= FrameAll(ps)
    ensures ds <= ps && u <= FrameAll(ps[|ds|..])
  {
    if ds == [] {
      assert FrameAll(ds) + u == u && ps[0..] == ps;
    } else {
      var rest := FrameAll(ds[1..]) + u;
      Regroup(Frame(ds[0]), FrameAll(ds[1..]), u);
      assert 4 <= |FrameAll(ps)|;
      SameFirst(ds[0], ps[0], rest, FrameAll(ps[1..]));
      Follow(ps[1..], ds[1..], u);
      assert ps[1..][|ds[1..]|..] == ps[|ds|..];
      SplitAt(ds, 1);
      SplitAt(ps, 1);
    }
  }

  lemma StaysTame(ps: seq<Payload>, ds: seq<Payload>, len: nat, buffer: seq<byte>)
    requires Sendable(ps) && len < U32 && forall i :: 0 <= i < |ds| ==> |ds[i]| < U32
    requires FrameAll(ds) + (Codec.BigEndian(len, 4) + buffer) <= FrameAll(ps)
    ensures len <= MAX_FRAME
  {
    var u := Codec.BigEndian(len, 4) + buffer;
    Follow(ps, ds, u);
    Pieces(len, buffer);
    var rest := ps[|ds|..];
    if rest != [] {
      FrameFirst(rest[0], FrameAll(rest[1..]));
      assert u[..4] == FrameAll(rest)[..4];
    }
  }

  /** A reader of a framed stream: what it returned are the first payloads, and no length is too long. */
  lemma OnTrack(reader: FrameReader, socket: Socket, ps: seq<Payload>)
    requires reader.Accounted(socket) && Sendable(ps) && socket.stream <= FrameAll(ps)
    ensures reader.delivered <= ps && reader.Tame()
  {
    assert socket.taken <= FrameAll(ps);
    Follow(ps, reader.delivered, reader.Unparsed());
    if reader.length.Some? {
      StaysTame(ps, reader.delivered, reader.length.value, reader.buffer);
    }
  }

  /**
   Call after call on a stream of framed payloads, possibly cut short, that arrives
   in any pieces with any calls dropped while waiting. Only its payloads are
   returned, in order; with calls enough, exactly those that arrive whole.
   */
  method Listen(socket: Socket, ghost ps: seq<Payload>, calls: nat) returns (payloads: seq<Payload>)
    requires socket.Valid() && socket.taken == [] && Sendable(ps) && socket.stream <= FrameAll(ps)
    modifies socket
    ensures payloads <= ps
    ensures |ps| + |old(socket.script)| < calls ==> payloads == Parse(socket.stream)
  {
    var reader := new FrameReader(socket);
    payloads := [];
    for i := 0 to calls
      invariant reader.Valid(socket) && fresh(reader) && reader.delivered == payloads <= ps
      invariant Exhausted(reader, socket) || i <= |payloads| + |old(socket.script)| - |socket.script|
    {
      var r := NextCall(reader, socket, ps);
      if r.Chunk? {
        payloads := payloads + [r.data];
      }
    }
    NoMore(reader, socket);
  }

  /** Nothing more arrives and every complete frame was returned. */
  ghost predicate Exhausted(reader: FrameReader, socket: Socket)
    reads reader, socket
  {
    socket.script == [] && reader.delivered == Parse(socket.stream)
  }

  /** A call returns a payload, uses up part of what arrives, or finds nothing more. */
  method NextCall(reader: FrameReader, socket: Socket, ghost ps: seq<Payload>) returns (r: Received)
    requires reader.Valid(socket) && Sendable(ps) && socket.stream <= FrameAll(ps)
    modifies reader, socket
    ensures reader.Valid(socket) && reader.delivered <= ps
    ensures reader.delivered == if r.Chunk? then old(reader.delivered) + [r.data] else old(reader.delivered)
    ensures old(Exhausted(reader, socket)) ==> Exhausted(reader, socket)
    ensures |socket.script| <= |old(socket.script)|
    ensures !r.Chunk? ==> Exhausted(reader, socket) || |socket.script| < |old(socket.script)|
  {
    r := reader.RecvChunk(socket);
    OnTrack(reader, socket, ps);
    NoMore(reader, socket);
  }

  lemma NoMore(reader: FrameReader, socket: Socket)
    requires reader.Accounted(socket)
    ensures |reader.delivered| <= |Parse(socket.taken)|
    ensures socket.script == [] ==> socket.taken == socket.stream
  {
    ParseAll(reader.delivered, reader.Unparsed());
    assert socket.taken + [] == socket.taken;
  }

  /** A stream that arrives whole yields every payload. */
  lemma WholeStream(ps: seq<Payload>)
    requires Sendable(ps)
    ensures Parse(FrameAll(ps)) == ps
  {
    ParseAll(ps, []);
    assert FrameAll(ps) + [] == FrameAll(ps);
  }

  // ---------------------------------------------------------------------
  // Frames that are too long
  // ---------------------------------------------------------------------

  predicate AllData(script: seq<Read>) {
    forall i :: 0 <= i < |script| ==> script[i].Data?
  }

  lemma NextArrives(script: seq<Read>, buffer: seq<byte>)
    requires AllData(script) && script != []
    ensures buffer + Arriving(script) == (buffer + script[0].bytes) + Arriving(script[1..])
  {
    Regroup(buffer, script[0].bytes, Arriving(script[1..]));
  }

  /** The second loop returns the announced bytes as soon as they are there. */
  lemma {:induction false} BodyArrives(len: nat, buffer: seq<byte>, script: seq<Read>)
    requires len <= MAX_FRAME && |buffer| < len + READ_SIZE && Reads(script) && AllData(script)
    requires len <= |buffer| + |Arriving(script)|
    ensures BodyOf(len, buffer, script).r == Chunk((buffer + Arriving(script))[..len])
    decreases |script|
  {
    if len <= |buffer| {
      assert (buffer + Arriving(script))[..len] == buffer[..len];
    } else {
      NextArrives(script, buffer);
      BodyArrives(len, buffer + script[0].bytes, script[1..]);
    }
  }

  /** A frame of at most `MAX_FRAME` bytes that arrives is returned, whatever the reads were. */
  lemma {:induction false} ChunkArrives(p: Payload, buffer: seq<byte>, script: seq<Read>)
    requires |p| <= MAX_FRAME && |buffer| < 4 + READ_SIZE && Reads(script) && AllData(script)
    requires Frame(p) <= buffer + Arriving(script)
    ensures ChunkOf(None, buffer, script).r == Chunk(p)
    decreases |script|
  {
    if 4 <= |buffer| {
      HeaderArrived(p, buffer, Arriving(script));
      BodyArrives(|p|, buffer[4..], script);
    } else {
      NextArrives(script, buffer);
      ChunkArrives(p, buffer + script[0].bytes, script[1..]);
    }
  }

  lemma HeaderArrived(p: Payload, buffer: seq<byte>, more: seq<byte>)
    requires |p| < U32 && 4 <= |buffer| && Frame(p) <= buffer + more
    ensures Announced(buffer) == |p| && |p| <= |buffer[4..]| + |more| && (buffer[4..] + more)[..|p|] == p
  {
    var all := buffer + more;
    var rest := all[|Frame(p)|..];
    assert all == Frame(p) + rest;
    FrameFirst(p, rest);
    assert buffer[..4] == all[..4];
    assert buffer[4..] + more == all[4..];
    assert all[4..][..|p|] == all[4..4 + |p|];
  }

  /** The bytes in reads of at most `READ_SIZE`. */
  function Chop(s: seq<byte>): (r: seq<Read>)
    ensures Reads(r) && AllData(r)
  {
    if s == [] then []
    else
      var n := Min(READ_SIZE, |s|);
      [Data(s[..n])] + Chop(s[n..])
  }

  lemma ArrivingCons(bytes: seq<byte>, more: seq<Read>)
    ensures Arriving([Data(bytes)] + more) == bytes + Arriving(more)
  {
    assert ([Data(bytes)] + more)[1..] == more;
  }

  lemma {:induction false} ChopArrives(s: seq<byte>, more: seq<Read>)
    ensures Arriving(Chop(s) + more) == s + Arriving(more)
  {
    if s == [] {
      NothingBefore(more);
      NothingBefore(Arriving(more));
    } else {
      var n := Min(READ_SIZE, |s|);
      var front, back := s[..n], s[n..];
      ChopArrives(back, more);
      Regroup([Data(front)], Chop(back), more);
      ArrivingCons(front, Chop(back) + more);
      Regroup(front, back, Arriving(more));
      SplitAt(s, n);
    }
  }

  lemma ReadFills(len: nat, buffer: seq<byte>, bytes: seq<byte>, more: seq<Read>)
    requires |buffer| < len < U32
    ensures BodyOf(len, buffer, [Data(bytes)] + more) == BodyOf(len, buffer + bytes, more)
  {
    assert ([Data(bytes)] + more)[1..] == more;
  }

  /** Short of the announced length, reads only fill the buffer. */
  lemma {:induction false} ChopFills(len: nat, buffer: seq<byte>, s: seq<byte>, more: seq<Read>)
    requires |buffer| + |s| < len < U32
    ensures BodyOf(len, buffer, Chop(s) + more) == BodyOf(len, buffer + s, more)
    decreases |s|
  {
    if s == [] {
      NothingBefore(more);
      assert buffer + s == buffer;
    } else {
      var n := Min(READ_SIZE, |s|);
      var front, back := s[..n], s[n..];
      Regroup([Data(front)], Chop(back), more);
      ReadFills(len, buffer, front, Chop(back) + more);
      ChopFills(len, buffer + front, back, more);
      Regroup(buffer, front, back);
      SplitAt(s, n);
    }
  }

  /** The last read of `Missing`: the last byte of `p` and as many more as bring the buffer to 2^32 bytes. */
  function Overflow(p: Payload): (r: seq<byte>)
    requires MAX_FRAME < |p| < U32
    ensures 0 < |r| <= READ_SIZE && |p| - 1 + |r| == U32
  {
    p[|p| - 1..] + seq(U32 - |p|, _ => 0)
  }

  /** Reads that deliver a frame of more than `MAX_FRAME` bytes, after which it is not returned. */
  function Missing(p: Payload): (r: seq<Read>)
    requires MAX_FRAME < |p| < U32
    ensures Reads(r) && AllData(r)
  {
    [Data(Codec.BigEndian(|p|, 4))] + (Chop(p[..|p| - 1]) + [Data(Overflow(p))])
  }

  lemma LastRead(len: nat, buffer: seq<byte>, bytes: seq<byte>)
    requires 0 < len < U32 && |buffer| == len - 1 && |buffer| + |bytes| == U32
    ensures BodyOf(len, buffer, [Data(bytes)]) == Outcome(Waiting, Some(len), buffer + bytes, [])
  {
    assert [Data(bytes)][1..] == [];
    assert !Enough(len, |buffer|) && !Enough(len, U32);
    assert BodyOf(len, buffer + bytes, []) == Ended(Pending, Some(len), buffer + bytes, []);
  }

  /** The frame has arrived, and the reader waits for more. */
  lemma FrameMissed(p: Payload)
    requires MAX_FRAME < |p| < U32
    ensures Frame(p) <= Arriving(Missing(p)) && ChunkOf(None, [], Missing(p)).r == Waiting
  {
    var header, front, last := Codec.BigEndian(|p|, 4), p[..|p| - 1], Overflow(p);
    var rest := Chop(front) + [Data(last)];
    assert Missing(p)[0] == Data(header) && Missing(p)[1..] == rest;
    ChopArrives(front, [Data(last)]);
    assert Arriving([Data(last)]) == last + Arriving([]);
    MissedArrives(p, header, front, last);
    NothingBefore(header);
    Pieces(|p|, []);
    assert header + [] == header && header[4..] == [];
    ChopFills(|p|, [], front, [Data(last)]);
    NothingBefore(front);
    LastRead(|p|, front, last);
  }

  lemma MissedArrives(p: Payload, header: seq<byte>, front: seq<byte>, last: seq<byte>)
    requires MAX_FRAME < |p| < U32 && header == Codec.BigEndian(|p|, 4) && front == p[..|p| - 1] && last == Overflow(p)
    ensures Frame(p) <= header + (front + (last + []))
  {
    var tail := p[|p| - 1..];
    var zeros := last[|tail|..];
    assert last + [] == tail + zeros;
    SplitAt(p, |p| - 1);
    Regroup(front, tail, zeros);
    Regroup(header, p, zeros);
    FrameOfBody(p, |p|);
  }

  /** Every arriving frame is returned, whatever the reads were. */
  ghost predicate AlwaysReturned(p: Payload) {
    forall script :: Reads(script) && AllData(script) && Frame(p) <= Arriving(script) ==>
      ChunkOf(None, [], script).r == Chunk(p)
  }

  /** The 32-bit truncation loses a frame on some split of the stream exactly if it has more than 2^32 - 1024 bytes. */
  lemma FrameReturnedIff(p: Payload)
    requires |p| < U32
    ensures AlwaysReturned(p) <==> |p| <= MAX_FRAME
  {
    if |p| <= MAX_FRAME {
      forall script | Reads(script) && AllData(script) && Frame(p) <= Arriving(script)
        ensures ChunkOf(None, [], script).r == Chunk(p)
      {
        NothingBefore(Arriving(script));
        ChunkArrives(p, [], script);
      }
    } else {
      FrameMissed(p);
    }
  }
}
