/**
 The URL-safe alphabet of section 5 of RFC 4648, padded, with the strict decoding
 that accepts canonical text only.
 */
module Base64 {
  import opened Prelude

  const PAD: byte := 61

  function Symbol(v: nat): byte
    requires v < 64
  {
    if v < 26 then 65 + v
    else if v < 52 then 71 + v
    else if v < 62 then v - 4
    else if v == 62 then 45
    else 95
  }

  function Value(b: byte): (r: Option<nat>)
    ensures r.Some? ==> r.value < 64
  {
    if 65 <= b <= 90 then Some(b - 65)
    else if 97 <= b <= 122 then Some(b - 71)
    else if 48 <= b <= 57 then Some(b + 4)
    else if b == 45 then Some(62)
    else if b == 95 then Some(63)
    else None
  }

  lemma SymbolsAndValues(v: nat, b: byte)
    ensures v < 64 ==> Value(Symbol(v)) == Some(v)
    ensures Value(b).Some? ==> Symbol(Value(b).value) == b
    ensures Value(PAD).None?
  {
  }

  /** Capital letters, small letters, digits, then minus and underscore; padding is an equals sign. */
  lemma Alphabet(v: nat)
    ensures v < 26 ==> Symbol(v) == 'A' as int + v
    ensures 26 <= v < 52 ==> Symbol(v) == 'a' as int + v - 26
    ensures 52 <= v < 62 ==> Symbol(v) == '0' as int + v - 52
    ensures Symbol(62) == '-' as int && Symbol(63) == '_' as int && PAD == '=' as int
  {
  }

  /** Three bytes as four 6-bit values, and back. */
  lemma SixBits(a: byte, b: byte, c: byte)
    ensures var w, x, y, z := a / 4, a % 4 * 16 + b / 16, b % 16 * 4 + c / 64, c % 64;
      && w < 64 && x < 64 && y < 64 && z < 64
      && w * 4 + x / 16 == a && x % 16 * 16 + y / 4 == b && y % 4 * 64 + z == c
  {
  }

  lemma EightBits(w: nat, x: nat, y: nat, z: nat)
    requires w < 64 && x < 64 && y < 64 && z < 64
    ensures var a, b, c := w * 4 + x / 16, x % 16 * 16 + y / 4, y % 4 * 64 + z;
      && a < 256 && b < 256 && c < 256
      && a / 4 == w && a % 4 * 16 + b / 16 == x && b % 16 * 4 + c / 64 == y && c % 64 == z
  {
  }

  /** The symbols for up to three bytes; a missing byte counts as zero and is padded. */
  function Group(a: byte, b: Option<byte>, c: Option<byte>): (r: seq<byte>)
    ensures |r| == 4
  {
    var y := if b.Some? then b.value else 0;
    var z := if c.Some? then c.value else 0;
    SixBits(a, y, z);
    [Symbol(a / 4), Symbol(a % 4 * 16 + y / 16),
     if b.Some? then Symbol(y % 16 * 4 + z / 64) else PAD,
     if c.Some? then Symbol(z % 64) else PAD]
  }

  function Encode(bytes: seq<byte>): seq<byte> {
    if bytes == [] then []
    else if |bytes| == 1 then Group(bytes[0], None, None)
    else if |bytes| == 2 then Group(bytes[0], Some(bytes[1]), None)
    else Group(bytes[0], Some(bytes[1]), Some(bytes[2])) + Encode(bytes[3..])
  }

  /** One to three bytes from a group of four symbols, if they are canonical. */
  function Ungroup(t: seq<byte>): (r: Option<seq<byte>>)
    requires |t| == 4
    ensures r.Some? ==> 1 <= |r.value| <= 3
  {
    match (Value(t[0]), Value(t[1]), Value(t[2]), Value(t[3])) {
      case (Some(w), Some(x), Some(y), Some(z)) =>
        EightBits(w, x, y, z);
        Some([w * 4 + x / 16, x % 16 * 16 + y / 4, y % 4 * 64 + z])
      case (Some(w), Some(x), Some(y), None) =>
        EightBits(w, x, y, 0);
        if t[3] == PAD && y % 4 == 0 then Some([w * 4 + x / 16, x % 16 * 16 + y / 4]) else None
      case (Some(w), Some(x), None, None) =>
        EightBits(w, x, 0, 0);
        if t[2] == PAD && t[3] == PAD && x % 16 == 0 then Some([w * 4 + x / 16]) else None
      case _ => None
    }
  }

  function Decode(t: seq<byte>): Option<seq<byte>> {
    if t == [] then Some([])
    else if |t| < 4 then None
    else
      match Ungroup(t[..4])
      case None => None
      case Some(bytes) =>
        if |bytes| < 3 then (if |t| == 4 then Some(bytes) else None)
        else
          match Decode(t[4..])
          case None => None
          case Some(rest) => Some(bytes + rest)
  }

  /** The four symbols are the 24 bits of the three bytes, most significant first; `n` of them are not padding. */
  lemma GroupBits(a: byte, b: Option<byte>, c: Option<byte>)
    requires b.None? ==> c.None?
    ensures var g := Group(a, b, c); var y := if b.Some? then b.value else 0; var z := if c.Some? then c.value else 0;
      && Value(g[0]).Some? && Value(g[1]).Some?
      && (if b.Some? then Value(g[2]).Some? else g[2] == PAD) && (if c.Some? then Value(g[3]).Some? else g[3] == PAD)
      && Value(g[0]).value * 262144 + Value(g[1]).value * 4096
         + (if b.Some? then Value(g[2]).value * 64 else 0) + (if c.Some? then Value(g[3]).value else 0)
         == a * 65536 + y * 256 + z
  {
    var y := if b.Some? then b.value else 0;
    var z := if c.Some? then c.value else 0;
    SixBits(a, y, z);
    SymbolsAndValues(a / 4, PAD);
    SymbolsAndValues(a % 4 * 16 + y / 16, PAD);
    SymbolsAndValues(y % 16 * 4 + z / 64, PAD);
    SymbolsAndValues(z % 64, PAD);
  }

  lemma OneBack(a: byte)
    ensures Ungroup(Group(a, None, None)) == Some([a])
  {
    SixBits(a, 0, 0);
    SymbolsAndValues(a / 4, PAD);
    SymbolsAndValues(a % 4 * 16, PAD);
    assert a % 4 * 16 % 16 == 0;
  }

  lemma TwoBack(a: byte, b: byte)
    ensures Ungroup(Group(a, Some(b), None)) == Some([a, b])
  {
    SixBits(a, b, 0);
    SymbolsAndValues(a / 4, PAD);
    SymbolsAndValues(a % 4 * 16 + b / 16, PAD);
    SymbolsAndValues(b % 16 * 4, PAD);
    assert b % 16 * 4 % 4 == 0;
  }

  lemma UngroupFour(t: seq<byte>, w: nat, x: nat, y: nat, z: nat)
    requires |t| == 4 && w < 64 && x < 64 && y < 64 && z < 64
    requires Value(t[0]) == Some(w) && Value(t[1]) == Some(x) && Value(t[2]) == Some(y) && Value(t[3]) == Some(z)
    ensures Ungroup(t) == Some([w * 4 + x / 16, x % 16 * 16 + y / 4, y % 4 * 64 + z])
  {
    EightBits(w, x, y, z);
  }

  lemma ThreeBack(a: byte, b: byte, c: byte)
    ensures Ungroup(Group(a, Some(b), Some(c))) == Some([a, b, c])
  {
    var w, x, y, z := a / 4, a % 4 * 16 + b / 16, b % 16 * 4 + c / 64, c % 64;
    SixBits(a, b, c);
    SymbolsAndValues(w, PAD);
    SymbolsAndValues(x, PAD);
    SymbolsAndValues(y, PAD);
    SymbolsAndValues(z, PAD);
    UngroupFour(Group(a, Some(b), Some(c)), w, x, y, z);
  }

  lemma DecodeGroup(group: seq<byte>, rest: seq<byte>)
    requires |group| == 4 && Ungroup(group).Some?
    ensures var bytes := Ungroup(group).value;
      && (|bytes| < 3 ==> Decode(group) == Some(bytes))
      && (|bytes| == 3 && Decode(rest).Some? ==> Decode(group + rest) == Some(bytes + Decode(rest).value))
  {
    assert group[..4] == group;
    assert (group + rest)[..4] == group && (group + rest)[4..] == rest;
  }

  /** Decoding undoes encoding. */
  lemma {:induction false} DecodeEncode(bytes: seq<byte>)
    ensures Decode(Encode(bytes)) == Some(bytes)
  {
    if |bytes| == 1 {
      OneBack(bytes[0]);
      DecodeGroup(Group(bytes[0], None, None), []);
      assert bytes == [bytes[0]];
    } else if |bytes| == 2 {
      TwoBack(bytes[0], bytes[1]);
      DecodeGroup(Group(bytes[0], Some(bytes[1]), None), []);
      assert bytes == [bytes[0], bytes[1]];
    } else if bytes != [] {
      ThreeBack(bytes[0], bytes[1], bytes[2]);
      DecodeEncode(bytes[3..]);
      DecodeGroup(Group(bytes[0], Some(bytes[1]), Some(bytes[2])), Encode(bytes[3..]));
      assert bytes == [bytes[0], bytes[1], bytes[2]] + bytes[3..];
    }
  }

  lemma GroupIs(a: byte, b: byte, c: byte, w: nat, x: nat, y: nat, z: nat)
    requires w < 64 && x < 64 && y < 64 && z < 64
    requires a / 4 == w && a % 4 * 16 + b / 16 == x && b % 16 * 4 + c / 64 == y && c % 64 == z
    ensures Group(a, Some(b), Some(c)) == [Symbol(w), Symbol(x), Symbol(y), Symbol(z)]
  {
  }

  lemma FourBack(t: seq<byte>, w: nat, x: nat, y: nat, z: nat)
    requires |t| == 4 && w < 64 && x < 64 && y < 64 && z < 64
    requires Value(t[0]) == Some(w) && Value(t[1]) == Some(x) && Value(t[2]) == Some(y) && Value(t[3]) == Some(z)
    ensures var r := Ungroup(t).value; t == Group(r[0], Some(r[1]), Some(r[2]))
  {
    UngroupFour(t, w, x, y, z);
    EightBits(w, x, y, z);
    GroupIs(w * 4 + x / 16, x % 16 * 16 + y / 4, y % 4 * 64 + z, w, x, y, z);
    SymbolsAndValues(0, t[0]);
    SymbolsAndValues(0, t[1]);
    SymbolsAndValues(0, t[2]);
    SymbolsAndValues(0, t[3]);
  }

  lemma PaddedBack(t: seq<byte>)
    requires |t| == 4 && Ungroup(t).Some? && Value(t[3]).None?
    ensures var r := Ungroup(t).value;
      |r| < 3 && t == Group(r[0], if |r| == 2 then Some(r[1]) else None, None)
  {
    SymbolsAndValues(0, t[0]);
    SymbolsAndValues(0, t[1]);
    SymbolsAndValues(0, t[2]);
    var w, x := Value(t[0]).value, Value(t[1]).value;
    EightBits(w, x, if Value(t[2]).Some? then Value(t[2]).value else 0, 0);
  }

  lemma UngroupBack(t: seq<byte>)
    requires |t| == 4 && Ungroup(t).Some?
    ensures var r := Ungroup(t).value;
      t == Group(r[0], if 2 <= |r| then Some(r[1]) else None, if 3 <= |r| then Some(r[2]) else None)
  {
    if Value(t[3]).None? {
      PaddedBack(t);
    } else {
      FourBack(t, Value(t[0]).value, Value(t[1]).value, Value(t[2]).value, Value(t[3]).value);
    }
  }

  /** Only canonical text is accepted: what decodes is the encoding of what it decodes to. */
  lemma {:induction false} EncodeDecode(t: seq<byte>)
    requires Decode(t).Some?
    ensures Encode(Decode(t).value) == t
  {
    if t != [] {
      var bytes := Ungroup(t[..4]).value;
      UngroupBack(t[..4]);
      SplitAt(t, 4);
      if |bytes| == 3 {
        EncodeDecode(t[4..]);
        var rest := Decode(t[4..]).value;
        assert (bytes + rest)[3..] == rest;
      }
    }
  }
}
