/** Addresses, as text and as bytes. A string is the sequence of its UTF-8 bytes. */
module Addresses {
  import opened Prelude
  import opened Codec
  import Base64

  // ---------------------------------------------------------------------
  // UTF-8
  // ---------------------------------------------------------------------

  predicate Cont(s: seq<byte>, i: nat) {
    i < |s| && 0x80 <= s[i] < 0xC0
  }

  /** How many bytes the first character takes; 0 if there is none. */
  function CharLen(s: seq<byte>): (n: nat)
    ensures n <= |s|
  {
    if s == [] then 0
    else if s[0] < 0x80 then 1
    else if 0xC2 <= s[0] < 0xE0 && Cont(s, 1) then 2
    else if 0xE0 <= s[0] < 0xF0 && Cont(s, 1) && Cont(s, 2)
         && (s[0] == 0xE0 ==> 0xA0 <= s[1]) && (s[0] == 0xED ==> s[1] < 0xA0) then 3
    else if 0xF0 <= s[0] < 0xF5 && Cont(s, 1) && Cont(s, 2) && Cont(s, 3)
         && (s[0] == 0xF0 ==> 0x90 <= s[1]) && (s[0] == 0xF4 ==> s[1] < 0x90) then 4
    else 0
  }

  predicate Utf8(s: seq<byte>) {
    s == [] || (0 < CharLen(s) && Utf8(s[CharLen(s)..]))
  }

  const COLON: byte := 58

  lemma CharEndsBefore(a: seq<byte>, t: seq<byte>)
    requires a != [] && t != [] && t[0] < 0x80
    ensures CharLen(a + t) == CharLen(a)
  {
    var s := a + t;
    assert forall i :: 0 <= i < |a| ==> s[i] == a[i];
    assert s[|a|] == t[0];
  }

  /** Text may be cut at, or joined with, an ASCII byte. */
  lemma {:induction false} Utf8Joined(a: seq<byte>, t: seq<byte>)
    requires t != [] && t[0] < 0x80
    ensures Utf8(a + t) <==> Utf8(a) && Utf8(t)
    decreases |a|
  {
    if a == [] {
      NothingBefore(t);
    } else {
      CharEndsBefore(a, t);
      var n := CharLen(a);
      if 0 < n {
        assert (a + t)[n..] == a[n..] + t;
        Utf8Joined(a[n..], t);
      }
    }
  }

  lemma Utf8Ascii(b: byte, t: seq<byte>)
    requires b < 0x80
    ensures Utf8([b] + t) <==> Utf8(t)
  {
    assert ([b] + t)[1..] == t;
  }

  // ---------------------------------------------------------------------
  // Addresses
  // ---------------------------------------------------------------------

  datatype Repr = Text(text: seq<byte>) | Bytes(bytes: seq<byte>)

  datatype Address = Address(scheme: seq<byte>, repr: Repr)

  /** The strings in it are strings. */
  predicate WellTyped(a: Address) {
    Utf8(a.scheme) && (a.repr.Text? ==> Utf8(a.repr.text))
  }

  predicate NoColon(s: seq<byte>) {
    COLON !in s
  }

  const STRING_SYMBOL: byte := 0
  const BYTES_SYMBOL: byte := 1

  function FirstColon(s: seq<byte>): (r: Option<nat>)
    ensures r.None? <==> NoColon(s)
    ensures r.Some? ==> r.value < |s| && s[r.value] == COLON && NoColon(s[..r.value])
  {
    if s == [] then None
    else if s[0] == COLON then Some(0)
    else
      match FirstColon(s[1..])
      case None => None
      case Some(k) =>
        assert s[..k + 1] == [s[0]] + s[1..][..k];
        Some(k + 1)
  }

  lemma {:induction false} FirstColonIs(s: seq<byte>, k: nat)
    requires k < |s| && s[k] == COLON && forall i :: 0 <= i < k ==> s[i] != COLON
    ensures FirstColon(s) == Some(k)
  {
    if k != 0 {
      FirstColonIs(s[1..], k - 1);
    }
  }

  lemma ColonAt(a: seq<byte>, t: seq<byte>)
    requires NoColon(a)
    ensures FirstColon(a + [COLON] + t) == Some(|a|)
    ensures (a + [COLON] + t)[..|a|] == a && (a + [COLON] + t)[|a| + 1..] == t
  {
    FirstColonIs(a + [COLON] + t, |a|);
  }

  lemma ColonSplit(s: seq<byte>)
    requires FirstColon(s).Some?
    ensures var k := FirstColon(s).value; s == s[..k] + [COLON] + s[k + 1..]
  {
  }

  // ---------------------------------------------------------------------
  // The byte form
  // ---------------------------------------------------------------------

  datatype Parsed = Good(address: Address) | Bad(error: Error)

  function Symbol(r: Repr): byte {
    if r.Text? then STRING_SYMBOL else BYTES_SYMBOL
  }

  function Content(r: Repr): seq<byte> {
    if r.Text? then r.text else r.bytes
  }

  function ByteForm(a: Address): seq<byte> {
    a.scheme + [COLON] + ([Symbol(a.repr)] + Content(a.repr))
  }

  method ToBytes(a: Address) returns (ret: seq<byte>)
    ensures ret == ByteForm(a)
  {
    ret := a.scheme;
    ret := ret + [COLON];
    match a.repr {
      case Text(text) =>
        Regroup(ret, [STRING_SYMBOL], text);
        ret := ret + [STRING_SYMBOL];
        ret := ret + text;
      case Bytes(bytes) =>
        Regroup(ret, [BYTES_SYMBOL], bytes);
        ret := ret + [BYTES_SYMBOL];
        ret := ret + bytes;
    }
  }

  function FromBytes(bytes: seq<byte>): Parsed {
    match FirstColon(bytes)
    case None => Bad(DeserializeEOF)
    case Some(k) =>
      if |bytes| < k + 2 then Bad(DeserializeEOF)
      else if !Utf8(bytes[..k]) then Bad(DeserializeInvalid(bytes[k]))
      else
        var symbol, content := bytes[k + 1], bytes[k + 2..];
        if symbol == STRING_SYMBOL then
          if Utf8(content) then Good(Address(bytes[..k], Text(content))) else Bad(DeserializeInvalid(symbol))
        else if symbol == BYTES_SYMBOL then Good(Address(bytes[..k], Bytes(content)))
        else Bad(DeserializeInvalid(symbol))
  }

  lemma ByteParts(scheme: seq<byte>, symbol: byte, content: seq<byte>)
    requires NoColon(scheme)
    ensures var s := scheme + [COLON] + ([symbol] + content); var k := |scheme|;
      && FirstColon(s) == Some(k) && k + 2 <= |s|
      && s[..k] == scheme && s[k + 1] == symbol && s[k + 2..] == content
  {
    ColonAt(scheme, [symbol] + content);
  }

  /** The byte form reads back exactly when the scheme has no colon. */
  lemma BytesRoundTripIff(a: Address)
    requires WellTyped(a)
    ensures FromBytes(ByteForm(a)) == Good(a) <==> NoColon(a.scheme)
  {
    if NoColon(a.scheme) {
      ByteParts(a.scheme, Symbol(a.repr), Content(a.repr));
    }
  }

  /** Why bytes are refused, part by part. */
  lemma RefusedBytes(scheme: seq<byte>, symbol: byte, content: seq<byte>)
    ensures NoColon(scheme) ==> FromBytes(scheme) == FromBytes(scheme + [COLON]) == Bad(DeserializeEOF)
    ensures NoColon(scheme) && !Utf8(scheme) ==>
      FromBytes(scheme + [COLON] + ([symbol] + content)) == Bad(DeserializeInvalid(COLON))
    ensures NoColon(scheme) && Utf8(scheme) && (1 < symbol || (symbol == 0 && !Utf8(content))) ==>
      FromBytes(scheme + [COLON] + ([symbol] + content)) == Bad(DeserializeInvalid(symbol))
  {
    if NoColon(scheme) {
      ByteParts(scheme, symbol, content);
      ColonAt(scheme, []);
      assert scheme + [COLON] + [] == scheme + [COLON];
    }
  }

  /** Every accepted byte string is the byte form of what it gives. */
  lemma AcceptedBytes(bytes: seq<byte>)
    requires FromBytes(bytes).Good?
    ensures var a := FromBytes(bytes).address;
      ByteForm(a) == bytes && WellTyped(a) && NoColon(a.scheme)
  {
    ColonSplit(bytes);
    var k := FirstColon(bytes).value;
    assert bytes[k + 1..] == [bytes[k + 1]] + bytes[k + 2..];
  }

  // ---------------------------------------------------------------------
  // The text form
  // ---------------------------------------------------------------------

  const TXT: seq<byte> := [116, 120, 116]
  const B64: seq<byte> := [98, 54, 52]

  function Tag(r: Repr): seq<byte> {
    if r.Text? then TXT else B64
  }

  function Shown(r: Repr): seq<byte> {
    if r.Text? then r.text else Base64.Encode(r.bytes)
  }

  function Print(a: Address): seq<byte> {
    a.scheme + [COLON] + (Tag(a.repr) + [COLON] + Shown(a.repr))
  }

  function ParseRepr(s: seq<byte>): Option<Repr> {
    match FirstColon(s)
    case None => Some(Text(s))
    case Some(k) =>
      if s[..k] == TXT then Some(Text(s[k + 1..]))
      else if s[..k] == B64 then
        match Base64.Decode(s[k + 1..])
        case None => None
        case Some(bytes) => Some(Bytes(bytes))
      else Some(Text(s))
  }

  function Parse(s: seq<byte>): Option<Address> {
    match FirstColon(s)
    case None => None
    case Some(k) =>
      match ParseRepr(s[k + 1..])
      case None => None
      case Some(repr) => Some(Address(s[..k], repr))
  }

  lemma ReprRoundTrip(r: Repr)
    ensures ParseRepr(Tag(r) + [COLON] + Shown(r)) == Some(r)
  {
    ColonAt(Tag(r), Shown(r));
    if r.Bytes? {
      Base64.DecodeEncode(r.bytes);
    }
  }

  /** The printed form parses back exactly when the scheme has no colon. */
  lemma TextRoundTripIff(a: Address)
    ensures Parse(Print(a)) == Some(a) <==> NoColon(a.scheme)
  {
    if NoColon(a.scheme) {
      ColonAt(a.scheme, Tag(a.repr) + [COLON] + Shown(a.repr));
      ReprRoundTrip(a.repr);
    }
  }

  /** What follows the scheme starts with one of the two tags. */
  ghost predicate IsTagged(rest: seq<byte>) {
    exists t: seq<byte> :: rest == TXT + [COLON] + t || rest == B64 + [COLON] + t
  }

  lemma TagOf(rest: seq<byte>)
    ensures IsTagged(rest) <==> FirstColon(rest).Some? && rest[..FirstColon(rest).value] in {TXT, B64}
  {
    if FirstColon(rest).Some? {
      ColonSplit(rest);
      var k := FirstColon(rest).value;
      if rest[..k] in {TXT, B64} {
        assert rest == rest[..k] + [COLON] + rest[k + 1..];
      }
    }
    if IsTagged(rest) {
      var t: seq<byte> :| rest == TXT + [COLON] + t || rest == B64 + [COLON] + t;
      ColonAt(TXT, t);
      ColonAt(B64, t);
    }
  }

  /** Without a tag everything after the scheme is text, colons included. */
  lemma PlainText(scheme: seq<byte>, rest: seq<byte>)
    requires NoColon(scheme) && !IsTagged(rest)
    ensures Parse(scheme + [COLON] + rest) == Some(Address(scheme, Text(rest)))
  {
    ColonAt(scheme, rest);
    TagOf(rest);
  }

  /** A scheme and then base64 that does not decode. */
  ghost predicate BadBase64(s: seq<byte>, scheme: seq<byte>, t: seq<byte>) {
    NoColon(scheme) && s == scheme + [COLON] + (B64 + [COLON] + t) && Base64.Decode(t).None?
  }

  lemma BadBase64Fails(s: seq<byte>, scheme: seq<byte>, t: seq<byte>)
    requires BadBase64(s, scheme, t)
    ensures Parse(s).None?
  {
    ColonAt(scheme, B64 + [COLON] + t);
    ColonAt(B64, t);
  }

  lemma FailsOnBase64(s: seq<byte>) returns (scheme: seq<byte>, t: seq<byte>)
    requires Parse(s).None? && !NoColon(s)
    ensures BadBase64(s, scheme, t)
  {
    var k := FirstColon(s).value;
    var rest := s[k + 1..];
    scheme := s[..k];
    ColonSplit(s);
    ColonSplit(rest);
    t := rest[FirstColon(rest).value + 1..];
  }

  /** A string is refused exactly if it has no scheme or its base64 does not decode. */
  lemma ParseFailsIff(s: seq<byte>)
    ensures Parse(s).None? <==> NoColon(s) || exists scheme, t :: BadBase64(s, scheme, t)
  {
    if Parse(s).None? && !NoColon(s) {
      var scheme, t := FailsOnBase64(s);
    }
    forall scheme, t | BadBase64(s, scheme, t) ensures Parse(s).None? {
      BadBase64Fails(s, scheme, t);
    }
  }

  /** Text that parses gives an address that prints and parses to itself. */
  lemma ParsedIsFixed(s: seq<byte>)
    requires Parse(s).Some?
    ensures Parse(Print(Parse(s).value)) == Parse(s)
  {
    TextRoundTripIff(Parse(s).value);
  }

  lemma CutAtColon(s: seq<byte>, k: nat)
    requires Utf8(s) && FirstColon(s) == Some(k)
    ensures Utf8(s[..k]) && Utf8(s[k + 1..])
  {
    ColonSplit(s);
    Regroup(s[..k], [COLON], s[k + 1..]);
    Utf8Joined(s[..k], [COLON] + s[k + 1..]);
    Utf8Ascii(COLON, s[k + 1..]);
  }

  lemma ReprIsText(s: seq<byte>)
    requires Utf8(s) && ParseRepr(s).Some?
    ensures ParseRepr(s).value.Text? ==> Utf8(ParseRepr(s).value.text)
  {
    if FirstColon(s).Some? {
      CutAtColon(s, FirstColon(s).value);
    }
  }

  lemma ParsedText(s: seq<byte>, a: Address)
    requires Utf8(s) && Parse(s) == Some(a)
    ensures WellTyped(a) && NoColon(a.scheme)
  {
    var k := FirstColon(s).value;
    CutAtColon(s, k);
    ReprIsText(s[k + 1..]);
  }

  /** Parsing a string gives strings and a scheme without a colon, so the byte form reads back too. */
  lemma ParsedIsWellTyped(s: seq<byte>)
    requires Utf8(s) && Parse(s).Some?
    ensures WellTyped(Parse(s).value) && NoColon(Parse(s).value.scheme)
    ensures FromBytes(ByteForm(Parse(s).value)) == Good(Parse(s).value)
  {
    ParsedText(s, Parse(s).value);
    BytesRoundTripIff(Parse(s).value);
  }

  lemma {:induction false} EncodedIsAscii(bytes: seq<byte>)
    ensures Utf8(Base64.Encode(bytes))
  {
    if bytes != [] {
      var t := Base64.Encode(bytes);
      var rest := t[4..];
      if 3 < |bytes| {
        EncodedIsAscii(bytes[3..]);
      }
      assert 3 <= |bytes| ==> rest == Base64.Encode(bytes[3..]);
      assert t == [t[0]] + ([t[1]] + ([t[2]] + ([t[3]] + rest)));
      Utf8Ascii(t[3], rest);
      Utf8Ascii(t[2], [t[3]] + rest);
      Utf8Ascii(t[1], [t[2]] + ([t[3]] + rest));
      Utf8Ascii(t[0], [t[1]] + ([t[2]] + ([t[3]] + rest)));
    }
  }

  /** The printed form is a string. */
  lemma PrintIsText(a: Address)
    requires WellTyped(a)
    ensures Utf8(Print(a))
  {
    var shown := Shown(a.repr);
    if a.repr.Bytes? {
      EncodedIsAscii(a.repr.bytes);
    }
    Utf8Ascii(COLON, shown);
    var tag := Tag(a.repr);
    assert tag == [tag[0]] + ([tag[1]] + ([tag[2]] + []));
    Utf8Ascii(tag[2], []);
    Utf8Ascii(tag[1], [tag[2]] + []);
    Utf8Ascii(tag[0], [tag[1]] + ([tag[2]] + []));
    Regroup(tag, [COLON], shown);
    Utf8Joined(tag, [COLON] + shown);
    var tail := tag + [COLON] + shown;
    Utf8Ascii(COLON, tail);
    Regroup(a.scheme, [COLON], tail);
    Utf8Joined(a.scheme, [COLON] + tail);
  }
}
