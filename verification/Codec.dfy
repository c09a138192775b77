/** The wire form of the protocol messages. */
module Codec {
  import opened Prelude
  import opened Epochs
  import opened Protocol

  // ---------------------------------------------------------------------
  // Big-endian words
  // ---------------------------------------------------------------------

  const U64: int := 0x1_0000_0000_0000_0000

  function Pow256(len: nat): (r: nat)
    ensures 0 < r
  {
    if len == 0 then 1 else 256 * Pow256(len - 1)
  }

  lemma EightBytes()
    ensures Pow256(8) == U64
  {
    assert Pow256(4) == 0x1_0000_0000;
    assert Pow256(8) == 256 * (256 * (256 * (256 * Pow256(4))));
  }

  function BigEndian(n: nat, len: nat): (r: seq<byte>)
    ensures |r| == len
  {
    if len == 0 then [] else BigEndian(n / 256, len - 1) + [n % 256]
  }

  function FromBigEndian(s: seq<byte>): (r: nat)
    ensures r < Pow256(|s|)
  {
    if s == [] then 0 else FromBigEndian(s[..|s| - 1]) * 256 + s[|s| - 1]
  }

  lemma DivideTwice(n: nat, k: nat)
    requires 0 < k
    ensures n / 256 / k == n / (256 * k)
  {
    var q := n / 256 / k;
    assert q * k <= n / 256 < (q + 1) * k;
    assert q * (256 * k) == 256 * (q * k) && (q + 1) * (256 * k) == 256 * ((q + 1) * k);
    Between(n, 256 * k, q);
  }

  lemma Between(n: nat, d: nat, q: nat)
    requires 0 < d && q * d <= n < (q + 1) * d
    ensures n / d == q
  {
    var r := n / d;
    assert n == r * d + n % d;
    Multiples(r, q, d);
    Multiples(q, r, d);
  }

  lemma Multiples(a: nat, b: nat, d: nat)
    ensures a < b ==> (a + 1) * d <= b * d
  {
  }

  /** Most significant byte first: byte `i` is the digit of weight 256^(len - 1 - i). */
  lemma {:induction false} DigitAt(n: nat, len: nat, i: nat)
    requires i < len
    ensures BigEndian(n, len)[i] == n / Pow256(len - 1 - i) % 256
  {
    if i < len - 1 {
      DigitAt(n / 256, len - 1, i);
      DivideTwice(n, Pow256(len - 2 - i));
    }
  }

  lemma FromBigEndianSnoc(s: seq<byte>, b: byte)
    ensures FromBigEndian(s + [b]) == FromBigEndian(s) * 256 + b
  {
    assert (s + [b])[..|s|] == s;
  }

  lemma Quotient(n: nat, k: nat)
    requires n < 256 * k
    ensures n / 256 < k && n == n / 256 * 256 + n % 256
  {
  }

  lemma {:induction false} ReadBack(n: nat, len: nat)
    requires n < Pow256(len)
    ensures FromBigEndian(BigEndian(n, len)) == n
  {
    if len != 0 {
      Quotient(n, Pow256(len - 1));
      ReadBack(n / 256, len - 1);
      FromBigEndianSnoc(BigEndian(n / 256, len - 1), n % 256);
    }
  }

  lemma {:induction false} WriteBack(s: seq<byte>)
    ensures BigEndian(FromBigEndian(s), |s|) == s
  {
    if s != [] {
      WriteBack(s[..|s| - 1]);
    }
  }

  /** The word at offset `at`. */
  function WordAt(s: seq<byte>, at: nat): (r: nat)
    requires at + 8 <= |s|
    ensures r < U64
  {
    EightBytes();
    FromBigEndian(s[at..at + 8])
  }

  /** A variant byte and then words. */
  function Framed(variant: byte, ws: seq<nat>): (r: seq<byte>)
    ensures |r| == 1 + 8 * |ws| && r[0] == variant
  {
    if ws == [] then [variant] else Framed(variant, ws[..|ws| - 1]) + BigEndian(ws[|ws| - 1], 8)
  }

  /** The `i`-th word after a variant byte. */
  function Word(s: seq<byte>, i: nat): (r: nat)
    requires 1 + 8 * i + 8 <= |s|
    ensures r < U64
  {
    WordAt(s, 1 + 8 * i)
  }

  lemma FramedSnoc(variant: byte, ws: seq<nat>, w: nat)
    ensures Framed(variant, ws + [w]) == Framed(variant, ws) + BigEndian(w, 8)
  {
    assert (ws + [w])[..|ws|] == ws;
  }

  lemma WordLast(front: seq<byte>, w: nat, t: seq<byte>)
    requires w < U64
    ensures WordAt(front + BigEndian(w, 8) + t, |front|) == w
  {
    assert (front + BigEndian(w, 8) + t)[|front|..|front| + 8] == BigEndian(w, 8);
    EightBytes();
    ReadBack(w, 8);
  }

  lemma {:induction false} WordOfFramed(variant: byte, ws: seq<nat>, i: nat, t: seq<byte>)
    requires i < |ws| && ws[i] < U64
    ensures Word(Framed(variant, ws) + t, i) == ws[i]
    decreases |ws|
  {
    var n := |ws| - 1;
    var front, last := Framed(variant, ws[..n]), BigEndian(ws[n], 8);
    if i < n {
      WordOfFramed(variant, ws[..n], i, last + t);
      assert front + last + t == front + (last + t);
    } else {
      WordLast(front, ws[n], t);
    }
  }

  lemma SameWord(s: seq<byte>, t: seq<byte>, i: nat)
    requires 1 + 8 * i + 8 <= |s|
    ensures Word(s + t, i) == Word(s, i)
  {
    var at := 1 + 8 * i;
    assert (s + t)[at..at + 8] == s[at..at + 8];
  }

  /** The words after a variant byte, read off one by one. */
  function WordsOf(s: seq<byte>, n: nat): (ws: seq<nat>)
    requires |s| == 1 + 8 * n
    ensures |ws| == n
  {
    if n == 0 then [] else WordsOf(s[..1 + 8 * (n - 1)], n - 1) + [WordAt(s, 1 + 8 * (n - 1))]
  }

  lemma WordBack(s: seq<byte>, at: nat)
    requires |s| == at + 8
    ensures s == s[..at] + BigEndian(WordAt(s, at), 8)
  {
    SplitAt(s, at);
    WriteBack(s[at..at + 8]);
  }

  lemma {:induction false} FramedOfWords(s: seq<byte>, n: nat)
    requires |s| == 1 + 8 * n
    ensures Framed(s[0], WordsOf(s, n)) == s
  {
    if n != 0 {
      var at := 1 + 8 * (n - 1);
      var front, w := s[..at], WordAt(s, at);
      FramedOfWords(front, n - 1);
      WordBack(s, at);
      FramedSnoc(s[0], WordsOf(front, n - 1), w);
    }
  }

  /** Reading on from the front does not depend on what comes after. */
  lemma WordsOfSnoc(s: seq<byte>, n: nat)
    requires 1 + 8 * n + 8 <= |s|
    ensures WordsOf(s[..1 + 8 * (n + 1)], n + 1) == WordsOf(s[..1 + 8 * n], n) + [Word(s, n)]
  {
    var at := 1 + 8 * n;
    var front := s[..at + 8];
    assert front[at..at + 8] == s[at..at + 8];
    assert front[..at] == s[..at];
  }

  // ---------------------------------------------------------------------
  // Messages
  // ---------------------------------------------------------------------

  datatype Error = DeserializeEOF | DeserializeInvalidLen | DeserializeInvalid(variant: byte)

  /** A message and the bytes after it, or why there is none. */
  datatype Decoded = Ok(value: LinkProtocol, rest: seq<byte>) | Err(error: Error)

  /** Every number fits the 64 bits the program gives it. */
  predicate Encodable(p: LinkProtocol) {
    match p
    case Ack(e, q, i) => e < U64 && q < U64 && i < U64
    case MsgSlice(e, q, len, first, data) => e < U64 && q < U64 && len < U64 && first < U64 && |data| < U64
    case _ => true
  }

  function Variant(p: LinkProtocol): byte {
    match p case Reset(_, _) => 0 case Ack(_, _, _) => 1 case MsgSlice(_, _, _, _, _) => 2 case Ping => 3 case Pong => 4
  }

  function Fields(p: LinkProtocol): seq<nat> {
    match p
    case Reset(e, _) => [ToInt(e)]
    case Ack(e, q, i) => [e, q, i]
    case MsgSlice(e, q, len, first, data) => [e, q, len, first, |data|]
    case _ => []
  }

  function Body(p: LinkProtocol): seq<byte> {
    match p
    case Reset(_, request) => [if request then 1 else 0]
    case MsgSlice(_, _, _, _, data) => data
    case _ => []
  }

  /** A variant byte, the numbers as big-endian words, then the flag or the data. */
  function Encode(p: LinkProtocol): seq<byte> {
    Framed(Variant(p), Fields(p)) + Body(p)
  }

  /** What `deserialize` makes of the bytes, by position. */
  function Decode(s: seq<byte>): Decoded {
    if s == [] then Err(DeserializeEOF)
    else
      match s[0]
      case 0 =>
        if |s| < 10 then Err(DeserializeEOF)
        else Ok(Reset(FromInt(Word(s, 0)), s[9] != 0), s[10..])
      case 1 =>
        if |s| < 25 then Err(DeserializeEOF)
        else Ok(Ack(Word(s, 0), Word(s, 1), Word(s, 2)), s[25..])
      case 2 =>
        if |s| < 41 then Err(DeserializeEOF)
        else
          var len := Word(s, 4);
          if len == 0 then Err(DeserializeInvalidLen)
          else if |s| - 41 < len then Err(DeserializeEOF)
          else
            Ok(MsgSlice(Word(s, 0), Word(s, 1), Word(s, 2), Word(s, 3), s[41..41 + len]),
               s[41 + len..])
      case 3 => Ok(Ping, s[1..])
      case 4 => Ok(Pong, s[1..])
      case v => Err(DeserializeInvalid(v))
  }

  /** A fragment without data: the one message that is refused when decoded. */
  predicate Hollow(p: LinkProtocol) {
    p.MsgSlice? && p.data == []
  }

  lemma EncodedLength(p: LinkProtocol)
    ensures |Encode(p)| ==
      match p
      case Reset(_, _) => 10
      case Ack(_, _, _) => 25
      case MsgSlice(_, _, _, _, data) => 41 + |data|
      case _ => 1
  {
  }

  /** Where the parts of an encoding are. */
  lemma Layout(variant: byte, ws: seq<nat>, tail: seq<byte>, t: seq<byte>)
    requires forall i :: 0 <= i < |ws| ==> ws[i] < U64
    ensures var s := Framed(variant, ws) + tail + t; var h := 1 + 8 * |ws|;
      && |s| == h + |tail| + |t| && s[0] == variant
      && s[h..] == tail + t && s[h..h + |tail|] == tail && s[h + |tail|..] == t
      && forall i :: 0 <= i < |ws| ==> Word(s, i) == ws[i]
  {
    var s := Framed(variant, ws) + tail + t;
    assert s == Framed(variant, ws) + (tail + t);
    forall i | 0 <= i < |ws| ensures Word(s, i) == ws[i] {
      WordOfFramed(variant, ws, i, tail + t);
    }
  }

  /** The variant byte, then the numbers, each at its offset, then the flag or the data. */
  ghost predicate LaidOut(p: LinkProtocol, s: seq<byte>) {
    match p
    case Reset(e, request) =>
      |s| == 10 && s[0] == 0 && Word(s, 0) == ToInt(e) && s[9] == if request then 1 else 0
    case Ack(e, q, i) =>
      |s| == 25 && s[0] == 1 && Word(s, 0) == e && Word(s, 1) == q && Word(s, 2) == i
    case MsgSlice(e, q, len, first, data) =>
      && 41 <= |s| && s[0] == 2 && Word(s, 0) == e && Word(s, 1) == q && Word(s, 2) == len && Word(s, 3) == first
      && Word(s, 4) == |data| && s[41..] == data
    case Ping => s == [3]
    case Pong => s == [4]
  }

  lemma WireFormat(p: LinkProtocol)
    requires Encodable(p)
    ensures LaidOut(p, Encode(p))
  {
    var s := Encode(p);
    Layout(Variant(p), Fields(p), Body(p), []);
    assert s + [] == s;
    if p.Reset? {
      assert s[9..] == Body(p) && s[9] == s[9..][0];
    }
  }

  /** Why bytes are refused, the end of input aside: a fragment that announces no data, or an unknown variant. */
  lemma RefusedIff(s: seq<byte>, v: byte)
    ensures Decode(s) == Err(DeserializeInvalidLen) <==> 41 <= |s| && s[0] == 2 && Word(s, 4) == 0
    ensures Decode(s) == Err(DeserializeInvalid(v)) <==> s != [] && s[0] == v && 4 < v
  {
  }

  /** Decoding an encoding gives the value back and leaves what followed it. */
  lemma RoundTrip(p: LinkProtocol, t: seq<byte>)
    requires Encodable(p)
    ensures Decode(Encode(p) + t) == if Hollow(p) then Err(DeserializeInvalidLen) else Ok(p, t)
  {
    var s := Encode(p) + t;
    Layout(Variant(p), Fields(p), Body(p), t);
    match p
    case Reset(e, request) =>
      IntRoundTrip(e, ToInt(e));
      assert s[9] == s[9..10][0];
    case _ =>
  }

  /** The length word of a fragment cut in its data still asks for all of it. */
  lemma CutSlice(ws: seq<nat>, data: seq<byte>, k: nat, n: nat)
    requires |ws| == n == 5 && (forall i :: 0 <= i < n ==> ws[i] < U64) && 41 <= k <= 41 + |data|
    ensures var s := Framed(2, ws) + data; |s| == 41 + |data| && Word(s[..k], 4) == ws[4]
  {
    var front := Framed(2, ws);
    TakePast(front, data, k);
    WordOfFramed(2, ws, 4, data[..k - 41]);
  }

  /** A message that has not arrived whole is never mistaken for another. */
  lemma StrictPrefixIsEOF(p: LinkProtocol, k: nat)
    requires Encodable(p) && k < |Encode(p)|
    ensures Decode(Encode(p)[..k]) == Err(DeserializeEOF)
  {
    if p.MsgSlice? && 41 <= k {
      CutSlice(Fields(p), p.data, k, 5);
    }
  }

  /** Two encodings are never confused, whatever follows them. */
  lemma UniquelyDecodable(p: LinkProtocol, q: LinkProtocol, t: seq<byte>, u: seq<byte>)
    requires Encodable(p) && Encodable(q) && !Hollow(p) && !Hollow(q)
    requires Encode(p) + t == Encode(q) + u
    ensures p == q && t == u
  {
    RoundTrip(p, t);
    RoundTrip(q, u);
  }

  lemma {:induction false} HeaderWords(s: seq<byte>, ws: seq<nat>)
    requires 1 + 8 * |ws| <= |s| && forall i :: 0 <= i < |ws| ==> ws[i] == Word(s, i)
    ensures WordsOf(s[..1 + 8 * |ws|], |ws|) == ws
  {
    if ws != [] {
      var n := |ws| - 1;
      HeaderWords(s, ws[..n]);
      WordsOfSnoc(s, n);
    }
  }

  lemma HeaderIsFramed(s: seq<byte>, ws: seq<nat>)
    requires 1 + 8 * |ws| <= |s| && forall i :: 0 <= i < |ws| ==> Word(s, i) == ws[i]
    ensures s == Framed(s[0], ws) + s[1 + 8 * |ws|..]
  {
    var h := 1 + 8 * |ws|;
    HeaderWords(s, ws);
    FramedOfWords(s[..h], |ws|);
    SplitAt(s, h);
  }

  lemma Rejoined(front: seq<byte>, tail: seq<byte>, t: seq<byte>, s: seq<byte>, h: nat)
    requires h <= |s| && h + |tail| <= |s| && s == front + s[h..]
    requires tail == s[h..h + |tail|] && t == s[h + |tail|..]
    ensures s == front + tail + t
  {
    assert s[h..] == tail + t;
  }

  lemma DecodedReset(s: seq<byte>)
    requires Decode(s).Ok? && s[0] == 0
    ensures var p, t := Decode(s).value, Decode(s).rest;
      |s| == |Encode(p)| + |t| && (s == Encode(p) + t <==> s[9] <= 1)
  {
    var p, t := Decode(s).value, Decode(s).rest;
    var front := Framed(0, Fields(p));
    HeaderIsFramed(s, Fields(p));
    Rejoined(front, [s[9]], t, s, 9);
    assert (Encode(p) + t)[9] == Body(p)[0];
  }

  lemma DecodedSlice(s: seq<byte>)
    requires Decode(s).Ok? && s[0] == 2
    ensures s == Encode(Decode(s).value) + Decode(s).rest
  {
    var p, t := Decode(s).value, Decode(s).rest;
    HeaderIsFramed(s, Fields(p));
    Rejoined(Framed(2, Fields(p)), p.data, t, s, 41);
  }

  lemma DecodedPlain(s: seq<byte>)
    requires Decode(s).Ok? && s[0] != 0 && s[0] != 2
    ensures s == Encode(Decode(s).value) + Decode(s).rest
  {
    var p, t := Decode(s).value, Decode(s).rest;
    var h := 1 + 8 * |Fields(p)|;
    HeaderIsFramed(s, Fields(p));
    Rejoined(Framed(s[0], Fields(p)), [], t, s, h);
  }

  /** The bytes are the encoding of what they decode to, unless a Reset flag is neither 0 nor 1. */
  lemma DecodedIsEncoded(s: seq<byte>)
    requires Decode(s).Ok?
    ensures var p, t := Decode(s).value, Decode(s).rest;
      && Encodable(p) && !Hollow(p) && |s| == |Encode(p)| + |t|
      && (s == Encode(p) + t <==> !(s[0] == 0 && 1 < s[9]))
  {
    if s[0] == 0 {
      DecodedReset(s);
    } else if s[0] == 2 {
      DecodedSlice(s);
    } else {
      DecodedPlain(s);
    }
  }

  // ---------------------------------------------------------------------
  // End of input
  // ---------------------------------------------------------------------

  /** More bytes would complete a message. */
  ghost predicate Incomplete(s: seq<byte>) {
    exists t: seq<byte> :: t != [] && Decode(s + t).Ok? && Decode(s + t).rest == []
  }

  lemma PrefixIsEOF(s: seq<byte>, t: seq<byte>)
    requires t != [] && Decode(s + t).Ok? && Decode(s + t).rest == []
    ensures Decode(s) == Err(DeserializeEOF)
  {
    if s != [] && s[0] == 2 && 41 <= |s| {
      SameWord(s, t, 4);
    }
  }

  /** A header of 41 bytes that announces some data, from any prefix of one. */
  lemma CompleteHeader(s: seq<byte>) returns (t: seq<byte>)
    requires s != [] && s[0] == 2 && |s| < 41
    ensures |s + t| == 41 && (s + t)[0] == 2 && 0 < Word(s + t, 4)
  {
    t := seq(40 - |s|, _ => 0) + [1];
    var w := (s + t)[33..41];
    FromBigEndianSnoc(w[..7], w[7]);
    assert w == w[..7] + [w[7]];
  }

  lemma CompleteData(s: seq<byte>) returns (t: seq<byte>)
    requires 41 <= |s| && s[0] == 2 && |s| - 41 <= Word(s, 4) && 0 < Word(s, 4)
    ensures Decode(s + t).Ok? && Decode(s + t).rest == []
    ensures |s| - 41 < Word(s, 4) ==> t != []
  {
    t := seq(41 + Word(s, 4) - |s|, _ => 0);
    SameWord(s, t, 4);
  }

  lemma Complete(s: seq<byte>) returns (t: seq<byte>)
    requires Decode(s) == Err(DeserializeEOF)
    ensures t != [] && Decode(s + t).Ok? && Decode(s + t).rest == []
  {
    if s == [] {
      t := [3];
    } else if s[0] == 2 && |s| < 41 {
      var h := CompleteHeader(s);
      var d := CompleteData(s + h);
      t := h + d;
      assert s + t == s + h + d;
    } else if s[0] == 2 {
      t := CompleteData(s);
    } else {
      t := seq((if s[0] == 0 then 10 else 25) - |s|, _ => 0);
    }
  }

  /** EOF is reported exactly when more bytes would complete a message. */
  lemma EOFIffIncomplete(s: seq<byte>)
    ensures Decode(s) == Err(DeserializeEOF) <==> Incomplete(s)
  {
    if Decode(s) == Err(DeserializeEOF) {
      var t := Complete(s);
    } else if Incomplete(s) {
      var t: seq<byte> :| t != [] && Decode(s + t).Ok? && Decode(s + t).rest == [];
      PrefixIsEOF(s, t);
    }
  }

  // ---------------------------------------------------------------------
  // The program's serializer and deserializer
  // ---------------------------------------------------------------------

  method PushWord(ret: seq<byte>, w: nat, ghost variant: byte, ghost ws: seq<nat>) returns (r: seq<byte>)
    requires ret == Framed(variant, ws)
    ensures r == Framed(variant, ws + [w])
  {
    FramedSnoc(variant, ws, w);
    r := ret + BigEndian(w, 8);
  }

  method PushWords(ret: seq<byte>, ghost variant: byte, ws: seq<nat>) returns (r: seq<byte>)
    requires ret == [variant]
    ensures r == Framed(variant, ws)
  {
    r := ret;
    for i := 0 to |ws|
      invariant r == Framed(variant, ws[..i])
    {
      r := PushWord(r, ws[i], variant, ws[..i]);
      assert ws[..i] + [ws[i]] == ws[..i + 1];
    }
    assert ws[..|ws|] == ws;
  }

  method Serialize(p: LinkProtocol) returns (ret: seq<byte>)
    ensures ret == Encode(p)
  {
    ret := [Variant(p)];
    match p {
      case Reset(e, request) =>
        ret := PushWords(ret, 0, [ToInt(e)]);
        ret := ret + [if request then 1 else 0];
      case Ack(e, q, i) =>
        ret := PushWords(ret, 1, [e, q, i]);
      case MsgSlice(e, q, len, first, data) =>
        ret := PushWords(ret, 2, [e, q, len, first, |data|]);
        ret := ret + data;
      case Ping =>
      case Pong =>
    }
  }

  /** The queue of bytes `deserialize` consumes from the front. */
  class ByteQueue {
    var bytes: seq<byte>

    constructor (bytes: seq<byte>)
      ensures this.bytes == bytes
    {
      this.bytes := bytes;
    }

    method PopFront() returns (b: Option<byte>)
      modifies this
      ensures if old(bytes) == [] then b.None? else b == Some(old(bytes)[0]) && bytes == old(bytes)[1..]
    {
      if bytes == [] {
        return None;
      }
      b := Some(bytes[0]);
      bytes := bytes[1..];
    }

    method ReadWord() returns (w: Option<nat>)
      modifies this
      ensures |old(bytes)| < 8 ==> w.None?
      ensures 8 <= |old(bytes)| ==> w == Some(WordAt(old(bytes), 0)) && bytes == old(bytes)[8..]
    {
      if |bytes| < 8 {
        return None;
      }
      w := Some(WordAt(bytes, 0));
      bytes := bytes[8..];
    }

    /** Read `n` words; `s` is the queue with the variant byte still in front. */
    method ReadWords(n: nat, ghost s: seq<byte>) returns (ws: Option<seq<nat>>)
      requires s != [] && bytes == s[1..]
      modifies this
      ensures ws.None? <==> |s| < 1 + 8 * n
      ensures ws.Some? ==> |ws.value| == n && bytes == s[1 + 8 * n..]
      ensures ws.Some? ==> forall i :: 0 <= i < n ==> ws.value[i] == Word(s, i)
    {
      var read := [];
      for i := 0 to n
        invariant 1 + 8 * i <= |s| && bytes == s[1 + 8 * i..] && |read| == i
        invariant forall j :: 0 <= j < i ==> read[j] == Word(s, j)
      {
        var w := ReadWord();
        if w.None? {
          return None;
        }
        Shifted(s, 1 + 8 * i);
        read := read + [w.value];
      }
      ws := Some(read);
    }
  }

  lemma Shifted(s: seq<byte>, k: nat)
    requires k + 8 <= |s|
    ensures WordAt(s[k..], 0) == WordAt(s, k) && s[k..][8..] == s[k + 8..]
  {
    assert s[k..][0..8] == s[k..k + 8];
  }

  datatype Result = Value(value: LinkProtocol) | Failure(error: Error)

  /** Consume one message; what is left on success is what followed it. */
  method Deserialize(data: ByteQueue) returns (r: Result)
    modifies data
    ensures match Decode(old(data.bytes))
      case Ok(p, rest) => r == Value(p) && data.bytes == rest
      case Err(e) => r == Failure(e)
  {
    ghost var s := data.bytes;
    var variant := data.PopFront();
    if variant.None? {
      return Failure(DeserializeEOF);
    }
    match variant.value {
      case 0 =>
        var ws := data.ReadWords(1, s);
        if ws.None? {
          return Failure(DeserializeEOF);
        }
        var flag := data.PopFront();
        if flag.None? {
          return Failure(DeserializeEOF);
        }
        assert s[9..][1..] == s[10..];
        r := Value(Reset(FromInt(ws.value[0]), flag.value != 0));
      case 1 =>
        var ws := data.ReadWords(3, s);
        if ws.None? {
          return Failure(DeserializeEOF);
        }
        r := Value(Ack(ws.value[0], ws.value[1], ws.value[2]));
      case 2 =>
        r := DeserializeSlice(data, s);
      case 3 =>
        r := Value(Ping);
      case 4 =>
        r := Value(Pong);
      case v =>
        r := Failure(DeserializeInvalid(v));
    }
  }

  method DeserializeSlice(data: ByteQueue, ghost s: seq<byte>) returns (r: Result)
    requires s != [] && s[0] == 2 && data.bytes == s[1..]
    modifies data
    ensures match Decode(s)
      case Ok(p, rest) => r == Value(p) && data.bytes == rest
      case Err(e) => r == Failure(e)
  {
    var ws := data.ReadWords(5, s);
    if ws.None? {
      return Failure(DeserializeEOF);
    }
    var len := ws.value[4];
    if len == 0 {
      return Failure(DeserializeInvalidLen);
    }
    if |data.bytes| < len {
      return Failure(DeserializeEOF);
    }
    var read := data.bytes[..len];
    data.bytes := data.bytes[len..];
    assert read == s[41..41 + len];
    r := Value(MsgSlice(ws.value[0], ws.value[1], ws.value[2], ws.value[3], read));
  }
}
