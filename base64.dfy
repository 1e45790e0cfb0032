/** The audio-chunk encoder `encode` of index.tsx: the bytes become a
    "binary string" with one character per byte, which `btoa` turns into
    base64 as section 4 of RFC 4648 defines it. A decoder is given beside the
    encoder so that the encoding can be shown to lose nothing. */
module Base64 {
  import opened Wrappers

  newtype byte = x: int | 0 <= x < 256

  /** The 64-character alphabet of Table 1 of RFC 4648: A-Z, a-z, 0-9, '+', '/'. */
  function Symbol(v: int): (c: char)
    requires 0 <= v < 64
  {
    if v < 26 then ('A' as int + v) as char
    else if v < 52 then ('a' as int + (v - 26)) as char
    else if v < 62 then ('0' as int + (v - 52)) as char
    else if v == 62 then '+'
    else '/'
  }

  predicate IsSymbol(c: char)
  {
    ('A' <= c <= 'Z') || ('a' <= c <= 'z') || ('0' <= c <= '9') || c == '+' || c == '/'
  }

  const Pad: char := '='

  /** The 6-bit value a symbol of the alphabet stands for. */
  function Value(c: char): (v: int)
    requires IsSymbol(c)
    ensures 0 <= v < 64 && Symbol(v) == c
  {
    if 'A' <= c <= 'Z' then c as int - 'A' as int
    else if 'a' <= c <= 'z' then c as int - 'a' as int + 26
    else if '0' <= c <= '9' then c as int - '0' as int + 52
    else if c == '+' then 62
    else 63
  }

  lemma SymbolValue(v: int)
    requires 0 <= v < 64
    ensures IsSymbol(Symbol(v)) && Value(Symbol(v)) == v
  {
  }

  /** One full 24-bit group: three bytes become four symbols. */
  function Quantum3(b0: byte, b1: byte, b2: byte): string
  {
    var x0, x1, x2 := b0 as int, b1 as int, b2 as int;
    [Symbol(x0 / 4), Symbol(x0 % 4 * 16 + x1 / 16), Symbol(x1 % 16 * 4 + x2 / 64), Symbol(x2 % 64)]
  }

  /** A final group of two bytes: three symbols and one pad. */
  function Quantum2(b0: byte, b1: byte): string
  {
    var x0, x1 := b0 as int, b1 as int;
    [Symbol(x0 / 4), Symbol(x0 % 4 * 16 + x1 / 16), Symbol(x1 % 16 * 4), Pad]
  }

  /** A final group of one byte: two symbols and two pads. */
  function Quantum1(b0: byte): string
  {
    var x0 := b0 as int;
    [Symbol(x0 / 4), Symbol(x0 % 4 * 16), Pad, Pad]
  }

  /** The number of pad characters the encoding of `n` bytes ends with. */
  function PadCount(n: nat): nat
  {
    (3 - n % 3) % 3
  }

  lemma PadCountStep(n: nat)
    requires n >= 3
    ensures PadCount(n) == PadCount(n - 3)
  {
    assert n % 3 == (n - 3) % 3;
  }

  /** The base64 encoding of `b` (RFC 4648, section 4): 4 * ceil(n / 3)
      characters, all from the alphabet except for the `PadCount` pads at
      the end. */
  function Encoding(b: seq<byte>): (r: string)
    ensures |r| == 4 * ((|b| + 2) / 3)
    decreases |b|
  {
    if |b| == 0 then ""
    else if |b| == 1 then Quantum1(b[0])
    else if |b| == 2 then Quantum2(b[0], b[1])
    else Quantum3(b[0], b[1], b[2]) + Encoding(b[3..])
  }

  lemma Quantum3Alphabet(b0: byte, b1: byte, b2: byte)
    ensures forall k :: 0 <= k < 4 ==> IsSymbol(Quantum3(b0, b1, b2)[k])
  {
    var x0, x1, x2 := b0 as int, b1 as int, b2 as int;
    SymbolValue(x0 / 4);
    SymbolValue(x0 % 4 * 16 + x1 / 16);
    SymbolValue(x1 % 16 * 4 + x2 / 64);
    SymbolValue(x2 % 64);
  }

  /** `r` is alphabet characters followed by `pads` pad characters. */
  predicate Padded(r: string, pads: nat)
  {
    && pads <= |r|
    && (forall k :: 0 <= k < |r| - pads ==> IsSymbol(r[k]))
    && (forall k :: |r| - pads <= k < |r| ==> r[k] == Pad)
  }

  /** Four alphabet characters in front keep the shape. */
  lemma PaddedAppend(q: string, rest: string, pads: nat)
    requires |q| == 4 && forall k :: 0 <= k < 4 ==> IsSymbol(q[k])
    requires Padded(rest, pads)
    ensures Padded(q + rest, pads)
  {
    assert forall k :: 4 <= k < |q + rest| ==> (q + rest)[k] == rest[k - 4];
    assert forall k :: 0 <= k < 4 ==> (q + rest)[k] == q[k];
  }

  lemma Quantum1Padded(b0: byte)
    ensures Padded(Quantum1(b0), 2)
  {
    SymbolValue(b0 as int / 4);
    SymbolValue(b0 as int % 4 * 16);
  }

  lemma Quantum2Padded(b0: byte, b1: byte)
    ensures Padded(Quantum2(b0, b1), 1)
  {
    SymbolValue(b0 as int / 4);
    SymbolValue(b0 as int % 4 * 16 + b1 as int / 16);
    SymbolValue(b1 as int % 16 * 4);
  }

  lemma EncodingOne(b: seq<byte>)
    requires |b| == 1
    ensures Padded(Encoding(b), PadCount(|b|))
  {
    Quantum1Padded(b[0]);
  }

  lemma EncodingTwo(b: seq<byte>)
    requires |b| == 2
    ensures Padded(Encoding(b), PadCount(|b|))
  {
    Quantum2Padded(b[0], b[1]);
  }

  lemma EncodingMore(b: seq<byte>)
    requires |b| >= 3 && Padded(Encoding(b[3..]), PadCount(|b| - 3))
    ensures Padded(Encoding(b), PadCount(|b|))
  {
    Quantum3Alphabet(b[0], b[1], b[2]);
    EncodingStep(b);
    PadCountStep(|b|);
    PaddedAppend(Quantum3(b[0], b[1], b[2]), Encoding(b[3..]), PadCount(|b|));
  }

  /** Every character of the encoding is from the alphabet, except for the
      `PadCount` pad characters at its end. */
  lemma {:induction false} EncodingAlphabet(b: seq<byte>)
    ensures Padded(Encoding(b), PadCount(|b|))
    decreases |b|
  {
    if |b| == 1 {
      EncodingOne(b);
    } else if |b| == 2 {
      EncodingTwo(b);
    } else if |b| >= 3 {
      EncodingAlphabet(b[3..]);
      EncodingMore(b);
    }
  }

  /** Decodes one group of four characters; pads are accepted only in the
      final group. */
  function DecodeQuantum(q: string, last: bool): Option<seq<byte>>
    requires |q| == 4
  {
    if IsSymbol(q[0]) && IsSymbol(q[1]) then
      var v0, v1 := Value(q[0]), Value(q[1]);
      var b0 := (v0 * 4 + v1 / 16) as byte;
      if IsSymbol(q[2]) && IsSymbol(q[3]) then
        var v2, v3 := Value(q[2]), Value(q[3]);
        Some([b0, (v1 % 16 * 16 + v2 / 4) as byte, (v2 % 4 * 64 + v3) as byte])
      else if last && IsSymbol(q[2]) && q[3] == Pad then
        var v2 := Value(q[2]);
        Some([b0, (v1 % 16 * 16 + v2 / 4) as byte])
      else if last && q[2] == Pad && q[3] == Pad then
        Some([b0])
      else None
    else None
  }

  /** Base64 decoding (RFC 4648, section 4); `None` on malformed text. */
  function Decoding(s: string): Option<seq<byte>>
    decreases |s|
  {
    if |s| == 0 then Some([])
    else if |s| < 4 then None
    else
      match DecodeQuantum(s[..4], |s| == 4)
      case None => None
      case Some(group) =>
        match Decoding(s[4..])
        case None => None
        case Some(rest) => Some(group + rest)
  }

  /** Four symbols decode to the three bytes their 24 bits spell. */
  lemma DecodeSymbols(v0: int, v1: int, v2: int, v3: int, last: bool)
    requires 0 <= v0 < 64 && 0 <= v1 < 64 && 0 <= v2 < 64 && 0 <= v3 < 64
    ensures DecodeQuantum([Symbol(v0), Symbol(v1), Symbol(v2), Symbol(v3)], last)
         == Some([(v0 * 4 + v1 / 16) as byte, (v1 % 16 * 16 + v2 / 4) as byte, (v2 % 4 * 64 + v3) as byte])
  {
    SymbolValue(v0);
    SymbolValue(v1);
    SymbolValue(v2);
    SymbolValue(v3);
  }

  /** Cutting three bytes into four 6-bit values and joining them again
      gives the bytes back. */
  lemma Regroup3(x0: int, x1: int, x2: int)
    requires 0 <= x0 < 256 && 0 <= x1 < 256 && 0 <= x2 < 256
    ensures x0 / 4 * 4 + (x0 % 4 * 16 + x1 / 16) / 16 == x0
    ensures (x0 % 4 * 16 + x1 / 16) % 16 * 16 + (x1 % 16 * 4 + x2 / 64) / 4 == x1
    ensures (x1 % 16 * 4 + x2 / 64) % 4 * 64 + x2 % 64 == x2
  {
  }

  lemma Quantum3RoundTrip(b0: byte, b1: byte, b2: byte, last: bool)
    ensures DecodeQuantum(Quantum3(b0, b1, b2), last) == Some([b0, b1, b2])
  {
    var x0, x1, x2 := b0 as int, b1 as int, b2 as int;
    DecodeSymbols(x0 / 4, x0 % 4 * 16 + x1 / 16, x1 % 16 * 4 + x2 / 64, x2 % 64, last);
    Regroup3(x0, x1, x2);
  }

  /** Three symbols and a pad, in the final group, decode to two bytes. */
  lemma DecodeSymbolsPad(v0: int, v1: int, v2: int)
    requires 0 <= v0 < 64 && 0 <= v1 < 64 && 0 <= v2 < 64
    ensures DecodeQuantum([Symbol(v0), Symbol(v1), Symbol(v2), Pad], true)
         == Some([(v0 * 4 + v1 / 16) as byte, (v1 % 16 * 16 + v2 / 4) as byte])
  {
    SymbolValue(v0);
    SymbolValue(v1);
    SymbolValue(v2);
  }

  /** Two symbols and two pads, in the final group, decode to one byte. */
  lemma DecodeSymbolsPads(v0: int, v1: int)
    requires 0 <= v0 < 64 && 0 <= v1 < 64
    ensures DecodeQuantum([Symbol(v0), Symbol(v1), Pad, Pad], true) == Some([(v0 * 4 + v1 / 16) as byte])
  {
    SymbolValue(v0);
    SymbolValue(v1);
  }

  lemma Quantum2RoundTrip(b0: byte, b1: byte)
    ensures DecodeQuantum(Quantum2(b0, b1), true) == Some([b0, b1])
  {
    var x0, x1 := b0 as int, b1 as int;
    DecodeSymbolsPad(x0 / 4, x0 % 4 * 16 + x1 / 16, x1 % 16 * 4);
    Regroup3(x0, x1, 0);
  }

  lemma Quantum1RoundTrip(b0: byte)
    ensures DecodeQuantum(Quantum1(b0), true) == Some([b0])
  {
    var x0 := b0 as int;
    DecodeSymbolsPads(x0 / 4, x0 % 4 * 16);
    Regroup3(x0, 0, 0);
  }

  /** Decoding reads the text one group of four at a time. */
  lemma DecodingGroup(q: string, rest: string, group: seq<byte>, tail: seq<byte>)
    requires |q| == 4
    requires DecodeQuantum(q, rest == []) == Some(group)
    requires Decoding(rest) == Some(tail)
    ensures Decoding(q + rest) == Some(group + tail)
  {
    var s := q + rest;
    assert s[..4] == q && s[4..] == rest;
  }

  lemma EncodingStep(b: seq<byte>)
    requires |b| >= 3
    ensures Encoding(b) == Quantum3(b[0], b[1], b[2]) + Encoding(b[3..])
  {
  }

  lemma DecodeQuantum1(b: seq<byte>)
    requires |b| == 1
    ensures Decoding(Quantum1(b[0])) == Some(b)
  {
    Quantum1RoundTrip(b[0]);
    DecodingGroup(Quantum1(b[0]), "", [b[0]], []);
    assert Quantum1(b[0]) + "" == Quantum1(b[0]) && [b[0]] + [] == b;
  }

  lemma DecodeQuantum2(b: seq<byte>)
    requires |b| == 2
    ensures Decoding(Quantum2(b[0], b[1])) == Some(b)
  {
    Quantum2RoundTrip(b[0], b[1]);
    DecodingGroup(Quantum2(b[0], b[1]), "", [b[0], b[1]], []);
    assert Quantum2(b[0], b[1]) + "" == Quantum2(b[0], b[1]) && [b[0], b[1]] + [] == b;
  }

  /** A group decoding to the first three bytes, followed by text decoding
      to the rest, decodes to all the bytes. */
  lemma DecodingFirstThree(q: string, rest: string, b: seq<byte>)
    requires |q| == 4 && |b| >= 3
    requires DecodeQuantum(q, rest == []) == Some(b[..3])
    requires Decoding(rest) == Some(b[3..])
    ensures Decoding(q + rest) == Some(b)
  {
    DecodingGroup(q, rest, b[..3], b[3..]);
    assert b[..3] + b[3..] == b;
  }

  lemma DecodeQuantum3Then(b: seq<byte>, rest: string)
    requires |b| >= 3
    requires Decoding(rest) == Some(b[3..])
    ensures Decoding(Quantum3(b[0], b[1], b[2]) + rest) == Some(b)
  {
    Quantum3RoundTrip(b[0], b[1], b[2], rest == []);
    assert [b[0], b[1], b[2]] == b[..3];
    DecodingFirstThree(Quantum3(b[0], b[1], b[2]), rest, b);
  }

  lemma DecodingStep(b: seq<byte>)
    requires |b| >= 3
    ensures Decoding(Encoding(b)) == Decoding(Quantum3(b[0], b[1], b[2]) + Encoding(b[3..]))
  {
    EncodingStep(b);
  }

  /** Decoding the encoding of any byte string gives the byte string back. */
  lemma {:induction false} DecodeEncode(b: seq<byte>)
    ensures Decoding(Encoding(b)) == Some(b)
    decreases |b|
  {
    if |b| == 1 {
      DecodeQuantum1(b);
    } else if |b| == 2 {
      DecodeQuantum2(b);
    } else if |b| >= 3 {
      DecodeEncode(b[3..]);
      DecodingStep(b);
      DecodeQuantum3Then(b, Encoding(b[3..]));
    }
  }

  /** The binary string `encode` builds: one character per byte, whose code
      is the byte (what `String.fromCharCode(bytes[i])` yields). */
  function BinaryString(bytes: seq<byte>): (s: string)
    ensures |s| == |bytes|
    ensures forall i :: 0 <= i < |s| ==> s[i] as int == bytes[i] as int
  {
    seq(|bytes|, i requires 0 <= i < |bytes| => bytes[i] as int as char)
  }

  datatype BtoaError = InvalidCharacter

  /** `btoa(s)`: throws when a character's code does not fit in one byte,
      otherwise encodes the codes of the characters as bytes. */
  function Btoa(s: string): (r: Result<string, BtoaError>)
    ensures r.Success? <==> forall i :: 0 <= i < |s| ==> s[i] as int < 256
  {
    if forall i :: 0 <= i < |s| ==> s[i] as int < 256 then
      Success(Encoding(seq(|s|, i requires 0 <= i < |s| => s[i] as int as byte)))
    else
      Failure(InvalidCharacter)
  }

  /** `encode(bytes)`: the binary string is built one character per byte and
      handed to `btoa`, which never throws on it. The result is the base64
      text of the bytes, 4 * ceil(n / 3) characters long, and decodes back
      to them. */
  method Encode(bytes: seq<byte>) returns (s: string)
    ensures s == Encoding(bytes)
    ensures |s| == 4 * ((|bytes| + 2) / 3)
    ensures forall k :: 0 <= k < |s| ==> IsSymbol(s[k]) || s[k] == Pad
    ensures Decoding(s) == Some(bytes)
  {
    var binary := "";
    var i := 0;
    while i < |bytes|
      invariant 0 <= i <= |bytes|
      invariant binary == BinaryString(bytes[..i])
    {
      binary := binary + [bytes[i] as int as char];
      i := i + 1;
    }
    assert bytes[..i] == bytes;
    var codes := seq(|binary|, k requires 0 <= k < |binary| => binary[k] as int as byte);
    assert codes == bytes;
    var r := Btoa(binary);
    s := r.value;
    EncodingAlphabet(bytes);
    DecodeEncode(bytes);
  }
}
