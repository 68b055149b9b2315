/** Repair of text whose UTF-8 bytes were misread as Windows-1252. */
module Mojibake {
  import opened Base
  import opened Utf8

  // ---------------------------------------------------------------- the corruption

  /** Windows-1252, with the five bytes it leaves undefined (81, 8D, 8F, 90, 9D) passed through. */
  function Misread(b: Byte): char {
    match b
    case 0x80 => '\U{20AC}'
    case 0x82 => '\U{201A}'
    case 0x83 => '\U{0192}'
    case 0x84 => '\U{201E}'
    case 0x85 => '\U{2026}'
    case 0x86 => '\U{2020}'
    case 0x87 => '\U{2021}'
    case 0x88 => '\U{02C6}'
    case 0x89 => '\U{2030}'
    case 0x8A => '\U{0160}'
    case 0x8B => '\U{2039}'
    case 0x8C => '\U{0152}'
    case 0x8E => '\U{017D}'
    case 0x91 => '\U{2018}'
    case 0x92 => '\U{2019}'
    case 0x93 => '\U{201C}'
    case 0x94 => '\U{201D}'
    case 0x95 => '\U{2022}'
    case 0x96 => '\U{2013}'
    case 0x97 => '\U{2014}'
    case 0x98 => '\U{02DC}'
    case 0x99 => '\U{2122}'
    case 0x9A => '\U{0161}'
    case 0x9B => '\U{203A}'
    case 0x9C => '\U{0153}'
    case 0x9E => '\U{017E}'
    case 0x9F => '\U{0178}'
    case _ => b as char
  }

  function MisreadAll(bs: seq<Byte>): (t: string)
    ensures |t| == |bs| && forall i | 0 <= i < |bs| :: t[i] == Misread(bs[i])
  {
    seq(|bs|, i requires 0 <= i < |bs| => Misread(bs[i]))
  }

  /** A correct file, read as Windows-1252. */
  function Corrupt(s: string): string {
    MisreadAll(Encode(s))
  }

  // ---------------------------------------------------------------- the repair

  /** ch.encode("cp1252"); None where it raises UnicodeEncodeError. */
  function Cp1252(c: char): Option<Byte> {
    match c as int
    case 0x20AC => Some(0x80)
    case 0x201A => Some(0x82)
    case 0x0192 => Some(0x83)
    case 0x201E => Some(0x84)
    case 0x2026 => Some(0x85)
    case 0x2020 => Some(0x86)
    case 0x2021 => Some(0x87)
    case 0x02C6 => Some(0x88)
    case 0x2030 => Some(0x89)
    case 0x0160 => Some(0x8A)
    case 0x2039 => Some(0x8B)
    case 0x0152 => Some(0x8C)
    case 0x017D => Some(0x8E)
    case 0x2018 => Some(0x91)
    case 0x2019 => Some(0x92)
    case 0x201C => Some(0x93)
    case 0x201D => Some(0x94)
    case 0x2022 => Some(0x95)
    case 0x2013 => Some(0x96)
    case 0x2014 => Some(0x97)
    case 0x02DC => Some(0x98)
    case 0x2122 => Some(0x99)
    case 0x0161 => Some(0x9A)
    case 0x203A => Some(0x9B)
    case 0x0153 => Some(0x9C)
    case 0x017E => Some(0x9E)
    case 0x0178 => Some(0x9F)
    case u => if u < 0x80 || 0xA0 <= u <= 0xFF then Some(u) else None
  }

  /** The byte taken for a character: its own Windows-1252 byte, or else its code if that is a byte. */
  function OriginalByte(c: char): Option<Byte> {
    if c as int < 0x80 then Some(c as int)
    else if Cp1252(c).Some? then Cp1252(c)
    else if c as int <= 0xFF then Some(c as int)
    else None
  }

  /** A character has no byte exactly when it is above U+00FF and no byte is misread as it. */
  lemma NoByteIff(c: char)
    ensures OriginalByte(c).None? <==> c as int > 0xFF && forall b: Byte :: Misread(b) != c
  {
    if Cp1252(c).Some? {
      assert c as int > 0xFF ==> Misread(Cp1252(c).value) == c;
    }
  }

  lemma OriginalOfMisread(b: Byte)
    ensures OriginalByte(Misread(b)) == Some(b)
  {
  }

  predicate HasBytes(text: string) {
    forall i | 0 <= i < |text| :: OriginalByte(text[i]).Some?
  }

  function Originals(text: string): (bs: seq<Byte>)
    requires HasBytes(text)
    ensures |bs| == |text| && forall i | 0 <= i < |bs| :: bs[i] == OriginalByte(text[i]).value
  {
    seq(|text|, i requires 0 <= i < |text| => OriginalByte(text[i]).value)
  }

  method ToOriginalBytes(text: string) returns (out: Option<seq<Byte>>)
    ensures out == if HasBytes(text) then Some(Originals(text)) else None
  {
    var bytes: seq<Byte> := [];
    for i := 0 to |text|
      invariant |bytes| == i && HasBytes(text[..i]) && bytes == Originals(text[..i])
    {
      var ch := text[i];
      var o := ch as int;
      if o < 0x80 {
        bytes := bytes + [o];
      } else {
        var encoded := Cp1252(ch);
        if encoded.Some? {
          bytes := bytes + [encoded.value];
        } else if o <= 0xFF {
          bytes := bytes + [o];
        } else {
          assert OriginalByte(text[i]).None?;
          return None;
        }
      }
    }
    assert text[..|text|] == text;
    out := Some(bytes);
  }

  function Repaired(text: string): (string, bool) {
    if HasBytes(text) then (Decode(Originals(text)), true) else (text, false)
  }

  method Repair(text: string) returns (fixed: string, ok: bool)
    ensures (fixed, ok) == Repaired(text)
  {
    var raw := ToOriginalBytes(text);
    if raw.None? {
      return text, false;
    }
    return Decode(raw.value), true;
  }

  // ---------------------------------------------------------------- what it repairs

  lemma OriginalsOfMisread(bs: seq<Byte>)
    ensures HasBytes(MisreadAll(bs)) && Originals(MisreadAll(bs)) == bs
  {
    forall i | 0 <= i < |bs| ensures OriginalByte(MisreadAll(bs)[i]) == Some(bs[i]) {
      OriginalOfMisread(bs[i]);
    }
  }

  /** Repair undoes the corruption of every text, also where it hits the five undefined bytes. */
  lemma RepairUndoesCorruption(s: string)
    ensures Repaired(Corrupt(s)) == (s, true)
  {
    OriginalsOfMisread(Encode(s));
    DecodeEncode(s);
  }

  /** It fails, leaving the text alone, exactly when some character above U+00FF is no misread byte. */
  lemma RefusedIff(text: string)
    ensures !Repaired(text).1 <==>
            exists i | 0 <= i < |text| :: text[i] as int > 0xFF && forall b: Byte :: Misread(b) != text[i]
    ensures !Repaired(text).1 ==> Repaired(text).0 == text
  {
    forall i | 0 <= i < |text|
      ensures OriginalByte(text[i]).None? <==> text[i] as int > 0xFF && forall b: Byte :: Misread(b) != text[i]
    {
      NoByteIff(text[i]);
    }
  }

  /** Every character is a misread byte, and the bytes are well-formed UTF-8. */
  ghost predicate IsCorrupted(text: string) {
    && HasBytes(text) && IsUtf8(Originals(text))
    && forall i | 0 <= i < |text| :: text[i] == Misread(Originals(text)[i])
  }

  /** Those are the texts that the corruption produces. */
  lemma CorruptedIff(text: string)
    ensures IsCorrupted(text) <==> exists s :: Corrupt(s) == text
  {
    if IsCorrupted(text) {
      DecodeIsExactIff(Originals(text));
      var s :| Encode(s) == Originals(text);
      assert Corrupt(s) == text;
    }
    if s :| Corrupt(s) == text {
      OriginalsOfMisread(Encode(s));
      EncodeIsUtf8(s);
    }
  }

  /** Corrupting the result gives the text back exactly when the text was such a one. */
  lemma RepairIsExactIff(text: string)
    ensures Repaired(text).1 && Corrupt(Repaired(text).0) == text <==> IsCorrupted(text)
  {
    CorruptedIff(text);
    if IsCorrupted(text) {
      var s :| Corrupt(s) == text;
      RepairUndoesCorruption(s);
    }
  }

  lemma {:induction false} EncodedAscii(s: string)
    ensures (forall i | 0 <= i < |s| :: s[i] as int < 0x80) ==> MisreadAll(Encode(s)) == s
  {
    if s != "" && forall i | 0 <= i < |s| :: s[i] as int < 0x80 {
      assert s == [s[0]] + s[1..];
      EncodedAscii(s[1..]);
      assert Encode(s) == [s[0] as int] + Encode(s[1..]);
      assert MisreadAll(Encode(s)) == [s[0]] + MisreadAll(Encode(s[1..]));
    }
  }

  /** Repair leaves a text of ASCII characters as it is. */
  lemma AsciiIsKept(s: string)
    requires forall i | 0 <= i < |s| :: s[i] as int < 0x80
    ensures Repaired(s) == (s, true)
  {
    EncodedAscii(s);
    RepairUndoesCorruption(s);
  }
}
