/** The base 64 encoding of section 4 of RFC 4648 (the one `btoa` produces),
    its decoding, and `btoa` itself on strings whose characters are octets. */
module Base64 {
  import opened Common

  /** An octet: an element of a `Uint8Array`. */
  type byte = b: int | 0 <= b < 256

  const Pad: char := '='

  /** Table 1 of RFC 4648: the character for a 6-bit value. */
  function Char(v: int): char
    requires 0 <= v < 64
  {
    if v < 26 then ('A' as int + v) as char
    else if v < 52 then ('a' as int + v - 26) as char
    else if v < 62 then ('0' as int + v - 52) as char
    else if v == 62 then '+'
    else '/'
  }

  /** The 6-bit value of an alphabet character; the pad and every other character have none. */
  function Value(c: char): (r: Option<int>)
    ensures r.Some? ==> 0 <= r.value < 64 && Char(r.value) == c
  {
    if 'A' <= c <= 'Z' then Some(c as int - 'A' as int)
    else if 'a' <= c <= 'z' then Some(c as int - 'a' as int + 26)
    else if '0' <= c <= '9' then Some(c as int - '0' as int + 52)
    else if c == '+' then Some(62)
    else if c == '/' then Some(63)
    else None
  }

  lemma ValueOfChar(v: int)
    requires 0 <= v < 64
    ensures Value(Char(v)) == Some(v)
  {
  }

  /** The encoding of a 24-bit group of three octets. */
  function Quantum3(b0: byte, b1: byte, b2: byte): string {
    [Char(b0 / 4), Char(b0 % 4 * 16 + b1 / 16), Char(b1 % 16 * 4 + b2 / 64), Char(b2 % 64)]
  }

  /** A final quantum of two octets: three characters and one pad. */
  function Quantum2(b0: byte, b1: byte): string {
    [Char(b0 / 4), Char(b0 % 4 * 16 + b1 / 16), Char(b1 % 16 * 4), Pad]
  }

  /** A final quantum of one octet: two characters and two pads. */
  function Quantum1(b0: byte): string {
    [Char(b0 / 4), Char(b0 % 4 * 16), Pad, Pad]
  }

  /** Encodes the input 24 bits at a time; a final group of one or two
      octets is padded with `=`. */
  function Encode(b: seq<byte>): string
    decreases |b|
  {
    if |b| == 0 then ""
    else if |b| == 1 then Quantum1(b[0])
    else if |b| == 2 then Quantum2(b[0], b[1])
    else Quantum3(b[0], b[1], b[2]) + Encode(b[3..])
  }

  /** Every started group of three octets becomes four characters, each an
      alphabet character or the pad. */
  lemma {:induction false} EncodeShape(b: seq<byte>)
    ensures |Encode(b)| == (|b| + 2) / 3 * 4
    ensures forall i :: 0 <= i < |Encode(b)| ==> Encode(b)[i] == Pad || Value(Encode(b)[i]).Some?
    decreases |b|
  {
    if |b| >= 3 {
      EncodeStep(b);
      EncodeShape(b[3..]);
      var q, r := Quantum3(b[0], b[1], b[2]), Encode(b[3..]);
      var n := |b| - 3;
      assert (n + 3 + 2) / 3 == (n + 2) / 3 + 1;
      ValueOfChar(b[0] / 4);
      ValueOfChar(b[0] % 4 * 16 + b[1] / 16);
      ValueOfChar(b[1] % 16 * 4 + b[2] / 64);
      ValueOfChar(b[2] % 64);
      forall i | 0 <= i < |q + r|
        ensures (q + r)[i] == Pad || Value((q + r)[i]).Some?
      {
        if i >= 4 {
          assert (q + r)[i] == r[i - 4];
        }
      }
    } else if |b| == 2 {
      ValueOfChar(b[0] / 4);
      ValueOfChar(b[0] % 4 * 16 + b[1] / 16);
      ValueOfChar(b[1] % 16 * 4);
    } else if |b| == 1 {
      ValueOfChar(b[0] / 4);
      ValueOfChar(b[0] % 4 * 16);
    }
  }

  function Octet0(v0: int, v1: int): byte
    requires 0 <= v0 < 64 && 0 <= v1 < 64
  {
    v0 * 4 + v1 / 16
  }

  function Octet1(v1: int, v2: int): byte
    requires 0 <= v1 < 64 && 0 <= v2 < 64
  {
    v1 % 16 * 16 + v2 / 4
  }

  function Octet2(v2: int, v3: int): byte
    requires 0 <= v2 < 64 && 0 <= v3 < 64
  {
    v2 % 4 * 64 + v3
  }

  /** Decodes padded base 64; `None` when the text is not a sequence of
      well-formed 4-character quanta. */
  function Decode(s: string): Option<seq<byte>>
    decreases |s|
  {
    if s == [] then Some([])
    else if |s| < 4 then None
    else
      var v0, v1, v2, v3 := Value(s[0]), Value(s[1]), Value(s[2]), Value(s[3]);
      if v0.None? || v1.None? then None
      else if |s| == 4 && s[2] == Pad && s[3] == Pad then
        Some([Octet0(v0.value, v1.value)])
      else if v2.None? then None
      else if |s| == 4 && s[3] == Pad then
        Some([Octet0(v0.value, v1.value), Octet1(v1.value, v2.value)])
      else if v3.None? then None
      else
        match Decode(s[4..])
        case None => None
        case Some(rest) =>
          Some([Octet0(v0.value, v1.value), Octet1(v1.value, v2.value), Octet2(v2.value, v3.value)] + rest)
  }

  /** The 6-bit split of a 24-bit group loses nothing. */
  lemma QuantumRoundTrip(b0: byte, b1: byte, b2: byte)
    ensures Octet0(b0 / 4, b0 % 4 * 16 + b1 / 16) == b0
    ensures Octet1(b0 % 4 * 16 + b1 / 16, b1 % 16 * 4 + b2 / 64) == b1
    ensures Octet2(b1 % 16 * 4 + b2 / 64, b2 % 64) == b2
  {
  }

  lemma DecodeQuantum1(b0: byte)
    ensures Decode(Quantum1(b0)) == Some([b0])
  {
    ValueOfChar(b0 / 4);
    ValueOfChar(b0 % 4 * 16);
    QuantumRoundTrip(b0, 0, 0);
  }

  lemma DecodeQuantum2(b0: byte, b1: byte)
    ensures Decode(Quantum2(b0, b1)) == Some([b0, b1])
  {
    var s := Quantum2(b0, b1);
    ValueOfChar(b0 / 4);
    ValueOfChar(b0 % 4 * 16 + b1 / 16);
    ValueOfChar(b1 % 16 * 4);
    assert s[2] != Pad;
    QuantumRoundTrip(b0, b1, 0);
  }

  lemma DecodeQuantum3(b0: byte, b1: byte, b2: byte, rest: string)
    ensures Decode(Quantum3(b0, b1, b2) + rest) ==
      match Decode(rest)
      case None => None
      case Some(r) => Some([b0, b1, b2] + r)
  {
    var s := Quantum3(b0, b1, b2) + rest;
    ValueOfChar(b0 / 4);
    ValueOfChar(b0 % 4 * 16 + b1 / 16);
    ValueOfChar(b1 % 16 * 4 + b2 / 64);
    ValueOfChar(b2 % 64);
    assert s[2] != Pad && s[3] != Pad;
    assert s[4..] == rest;
    QuantumRoundTrip(b0, b1, b2);
  }

  /** Decoding inverts encoding. */
  lemma {:induction false} DecodeEncode(b: seq<byte>)
    ensures Decode(Encode(b)) == Some(b)
    decreases |b|
  {
    if |b| == 1 {
      DecodeQuantum1(b[0]);
      assert b == [b[0]];
    } else if |b| == 2 {
      DecodeQuantum2(b[0], b[1]);
      assert b == [b[0], b[1]];
    } else if |b| >= 3 {
      EncodeStep(b);
      FirstThree(b);
      DecodeEncode(b[3..]);
      DecodeQuantum3(b[0], b[1], b[2], Encode(b[3..]));
    }
  }

  /** Three or more octets: the first group's quantum, then the rest. */
  lemma EncodeStep(b: seq<byte>)
    requires |b| >= 3
    ensures Encode(b) == Quantum3(b[0], b[1], b[2]) + Encode(b[3..])
  {
  }

  lemma FirstThree(b: seq<byte>)
    requires |b| >= 3
    ensures b == [b[0], b[1], b[2]] + b[3..]
  {
    assert b[..3] == [b[0], b[1], b[2]];
    assert b == b[..3] + b[3..];
  }

  /** Every character is at most U+00FF: a "binary string". */
  predicate IsBinaryString(s: string) {
    forall i :: 0 <= i < |s| ==> s[i] as int < 256
  }

  /** `btoa(s)`: the base 64 encoding of the octets a binary string stands
      for; `None` where `btoa` throws `InvalidCharacterError`. */
  function Btoa(s: string): (r: Option<string>)
    ensures r.Some? <==> IsBinaryString(s)
  {
    if IsBinaryString(s) then Some(Encode(seq(|s|, i requires 0 <= i < |s| => s[i] as int as byte)))
    else None
  }
}
