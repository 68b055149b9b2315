/** UTF-8 of section 3 of RFC 3629, decoded as Python does with errors="replace". */
module Utf8 {
  type Byte = b: int | 0 <= b < 256

  function EncodeChar(c: char): (bs: seq<Byte>)
    ensures 1 <= |bs| <= 4
  {
    var u := c as int;
    if u < 0x80 then [u]
    else if u < 0x800 then [0xC0 + u / 64, 0x80 + u % 64]
    else if u < 0x1_0000 then [0xE0 + u / 4096, 0x80 + u / 64 % 64, 0x80 + u % 64]
    else [0xF0 + u / 262144, 0x80 + u / 4096 % 64, 0x80 + u / 64 % 64, 0x80 + u % 64]
  }

  function Encode(s: string): seq<Byte> {
    if s == "" then [] else EncodeChar(s[0]) + Encode(s[1..])
  }

  predicate IsTail(b: Byte) {
    0x80 <= b < 0xC0
  }

  /** The second bytes that a first byte allows: no overlong forms, no surrogates, nothing above U+10FFFF. */
  predicate IsSecond(first: Byte, b: Byte) {
    IsTail(b) && (first == 0xE0 ==> b >= 0xA0) && (first == 0xED ==> b < 0xA0) && (first == 0xF0 ==> b >= 0x90)
    && (first == 0xF4 ==> b < 0x90)
  }

  /** The length that a first byte announces; 0 for a byte that starts nothing. */
  function Announced(first: Byte): (n: nat)
    ensures n <= 4
  {
    if first < 0x80 then 1
    else if 0xC2 <= first < 0xE0 then 2
    else if 0xE0 <= first < 0xF0 then 3
    else if 0xF0 <= first < 0xF5 then 4
    else 0
  }

  /** How many bytes of the sequence at the front are as they should be. */
  function Matched(bs: seq<Byte>): (n: nat)
    requires bs != []
    ensures n <= |bs| && n <= Announced(bs[0])
  {
    var want := Announced(bs[0]);
    if want <= 1 then want
    else if |bs| < 2 || !IsSecond(bs[0], bs[1]) then 1
    else if want == 2 || |bs| < 3 || !IsTail(bs[2]) then 2
    else if want == 3 || |bs| < 4 || !IsTail(bs[3]) then 3
    else 4
  }

  /** The number that a complete sequence stands for. */
  function Scalar(bs: seq<Byte>): (u: int)
    requires bs != [] && Matched(bs) == Announced(bs[0]) > 0
    ensures 0 <= u < 0xD800 || 0xE000 <= u < 0x11_0000
  {
    var b0: int := bs[0];
    if Announced(bs[0]) == 1 then b0
    else
      var b1: int := bs[1];
      if Announced(bs[0]) == 2 then (b0 - 0xC0) * 64 + (b1 - 0x80)
      else
        var b2: int := bs[2];
        if Announced(bs[0]) == 3 then (b0 - 0xE0) * 4096 + (b1 - 0x80) * 64 + (b2 - 0x80)
        else
          var b3: int := bs[3];
          (b0 - 0xF0) * 262144 + (b1 - 0x80) * 4096 + (b2 - 0x80) * 64 + (b3 - 0x80)
  }

  /** Each longest start of a sequence that does not complete becomes one replacement character. */
  function Decode(bs: seq<Byte>): string {
    if bs == [] then ""
    else
      var n := Matched(bs);
      if n == Announced(bs[0]) > 0 then [Scalar(bs) as char] + Decode(bs[n..])
      else ['\U{FFFD}'] + Decode(bs[if n == 0 then 1 else n..])
  }

  /** u in base 64. */
  lemma Digits(u: int)
    requires 0 <= u < 0x11_0000
    ensures u == u / 64 * 64 + u % 64 && u / 64 == u / 4096 * 64 + u / 64 % 64
    ensures u / 4096 == u / 262144 * 64 + u / 4096 % 64
  {
  }

  lemma DecodeEncodedChar(c: char, rest: seq<Byte>)
    ensures var bs := EncodeChar(c) + rest;
            Matched(bs) == Announced(bs[0]) == |EncodeChar(c)| && Scalar(bs) == c as int
  {
    var u := c as int;
    var es := EncodeChar(c);
    var bs := es + rest;
    assert forall i | 0 <= i < |es| :: bs[i] == es[i];
    Digits(u);
    if u < 0x80 {
    } else if u < 0x800 {
      DecodeTwo(u, bs);
    } else if u < 0x1_0000 {
      DecodeThree(u, bs);
    } else {
      DecodeFour(u, bs);
    }
  }

  lemma DecodeTwo(u: int, bs: seq<Byte>)
    requires 0x80 <= u < 0x800 && |bs| >= 2 && bs[0] == 0xC0 + u / 64 && bs[1] == 0x80 + u % 64
    ensures Matched(bs) == Announced(bs[0]) == 2 && Scalar(bs) == u
  {
  }

  lemma DecodeThree(u: int, bs: seq<Byte>)
    requires 0x800 <= u < 0x1_0000 && !(0xD800 <= u < 0xE000) && |bs| >= 3
    requires bs[0] == 0xE0 + u / 4096 && bs[1] == 0x80 + u / 64 % 64 && bs[2] == 0x80 + u % 64
    ensures Matched(bs) == Announced(bs[0]) == 3 && Scalar(bs) == u
  {
    Digits(u);
  }

  lemma DecodeFour(u: int, bs: seq<Byte>)
    requires 0x1_0000 <= u < 0x11_0000 && |bs| >= 4 && bs[0] == 0xF0 + u / 262144
    requires bs[1] == 0x80 + u / 4096 % 64 && bs[2] == 0x80 + u / 64 % 64 && bs[3] == 0x80 + u % 64
    ensures Matched(bs) == Announced(bs[0]) == 4 && Scalar(bs) == u
  {
    Digits(u);
  }

  lemma DecodeFirst(c: char, more: seq<Byte>)
    ensures Decode(EncodeChar(c) + more) == [c] + Decode(more)
  {
    var bs := EncodeChar(c) + more;
    DecodeEncodedChar(c, more);
    assert bs[|EncodeChar(c)|..] == more;
  }

  lemma EncodeFirst(s: string, rest: seq<Byte>)
    requires s != ""
    ensures Encode(s) + rest == EncodeChar(s[0]) + (Encode(s[1..]) + rest)
  {
  }

  lemma FirstAndRest(s: string, end: string)
    requires s != ""
    ensures s + end == [s[0]] + (s[1..] + end)
  {
  }

  /** Decoding undoes encoding, whatever follows. */
  lemma {:induction false} DecodeEncoded(s: string, rest: seq<Byte>)
    ensures Decode(Encode(s) + rest) == s + Decode(rest)
  {
    if s == "" {
      assert Encode(s) + rest == rest && s + Decode(rest) == Decode(rest);
    } else {
      EncodeFirst(s, rest);
      DecodeFirst(s[0], Encode(s[1..]) + rest);
      DecodeEncoded(s[1..], rest);
      FirstAndRest(s, Decode(rest));
    }
  }

  lemma DecodeEncode(s: string)
    ensures Decode(Encode(s)) == s
  {
    DecodeEncoded(s, []);
    assert Encode(s) + [] == Encode(s) && s + Decode([]) == s;
  }

  // ---------------------------------------------------------------- well-formed bytes

  /** One complete sequence after the other, as the table in section 4 of RFC 3629 lists them. */
  predicate IsUtf8(bs: seq<Byte>) {
    bs == [] || (Matched(bs) == Announced(bs[0]) > 0 && IsUtf8(bs[Matched(bs)..]))
  }

  lemma EncodedTwo(bs: seq<Byte>)
    requires bs != [] && Matched(bs) == Announced(bs[0]) == 2
    ensures EncodeChar(Scalar(bs) as char) == bs[..2]
  {
    var x: int, y: int := bs[0] - 0xC0, bs[1] - 0x80;
    assert (x * 64 + y) / 64 == x && (x * 64 + y) % 64 == y;
  }

  lemma EncodedThree(bs: seq<Byte>)
    requires bs != [] && Matched(bs) == Announced(bs[0]) == 3
    ensures EncodeChar(Scalar(bs) as char) == bs[..3]
  {
    var x: int, y: int, z: int := bs[0] - 0xE0, bs[1] - 0x80, bs[2] - 0x80;
    var u := x * 4096 + y * 64 + z;
    assert u == (x * 64 + y) * 64 + z;
    assert u / 64 == x * 64 + y && u % 64 == z && u / 4096 == x && u / 64 % 64 == y;
  }

  lemma EncodedFour(bs: seq<Byte>)
    requires bs != [] && Matched(bs) == Announced(bs[0]) == 4
    ensures EncodeChar(Scalar(bs) as char) == bs[..4]
  {
    var x: int, y: int, z: int, w: int := bs[0] - 0xF0, bs[1] - 0x80, bs[2] - 0x80, bs[3] - 0x80;
    var u := x * 262144 + y * 4096 + z * 64 + w;
    assert u == ((x * 64 + y) * 64 + z) * 64 + w;
    assert u / 64 == (x * 64 + y) * 64 + z && u % 64 == w && u / 64 % 64 == z;
    assert u / 4096 == x * 64 + y && u / 4096 % 64 == y && u / 262144 == x;
  }

  /** A complete sequence is the encoding of its number. */
  lemma EncodedScalar(bs: seq<Byte>)
    requires bs != [] && Matched(bs) == Announced(bs[0]) > 0
    ensures EncodeChar(Scalar(bs) as char) == bs[..Matched(bs)]
  {
    if Announced(bs[0]) == 2 {
      EncodedTwo(bs);
    } else if Announced(bs[0]) == 3 {
      EncodedThree(bs);
    } else if Announced(bs[0]) == 4 {
      EncodedFour(bs);
    }
  }

  lemma EncodeCons(c: char, t: string)
    ensures Encode([c] + t) == EncodeChar(c) + Encode(t)
  {
    assert ([c] + t)[1..] == t;
  }

  lemma DecodeComplete(bs: seq<Byte>)
    requires bs != [] && Matched(bs) == Announced(bs[0]) > 0
    ensures Decode(bs) == [Scalar(bs) as char] + Decode(bs[Matched(bs)..])
  {
  }

  /** Some bytes that decode to one character before a text, and encode from it. */
  lemma EncodeDecodeCons(bs: seq<Byte>, n: nat, c: char, t: string)
    requires n <= |bs| && Decode(bs) == [c] + t && EncodeChar(c) == bs[..n] && Encode(t) == bs[n..]
    ensures Encode(Decode(bs)) == bs
  {
    EncodeCons(c, t);
    assert bs == bs[..n] + bs[n..];
  }

  lemma {:induction false} EncodeDecode(bs: seq<Byte>)
    requires IsUtf8(bs)
    ensures Encode(Decode(bs)) == bs
  {
    if bs != [] {
      var n := Matched(bs);
      EncodeDecode(bs[n..]);
      DecodeComplete(bs);
      EncodedScalar(bs);
      EncodeDecodeCons(bs, n, Scalar(bs) as char, Decode(bs[n..]));
    }
  }

  lemma {:induction false} EncodeIsUtf8(s: string)
    ensures IsUtf8(Encode(s))
  {
    if s != "" {
      DecodeEncodedChar(s[0], Encode(s[1..]));
      assert (EncodeChar(s[0]) + Encode(s[1..]))[|EncodeChar(s[0])|..] == Encode(s[1..]);
      EncodeIsUtf8(s[1..]);
    }
  }

  /** Decoding loses nothing exactly on well-formed bytes, which are the encodings of texts. */
  lemma DecodeIsExactIff(bs: seq<Byte>)
    ensures Encode(Decode(bs)) == bs <==> IsUtf8(bs)
    ensures IsUtf8(bs) <==> exists s :: Encode(s) == bs
  {
    if IsUtf8(bs) {
      EncodeDecode(bs);
    }
    if s :| Encode(s) == bs {
      EncodeIsUtf8(s);
    }
  }

  /** What is lost shows: bytes that are not well-formed leave a replacement character in the text. */
  lemma {:induction false} MalformedShows(bs: seq<Byte>)
    requires !IsUtf8(bs)
    ensures '\U{FFFD}' in Decode(bs)
  {
    var n := Matched(bs);
    if n == Announced(bs[0]) > 0 {
      MalformedShows(bs[n..]);
      DecodeComplete(bs);
    } else {
      assert Decode(bs)[0] == '\U{FFFD}';
    }
  }
}
