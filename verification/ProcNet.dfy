/** The rows of /proc/net/tcp and tcp6: remote endpoints and socket inodes. */
module ProcNet {
  import opened Base
  import opened Decimal
  import opened Utf8
  import Text

  type Port = p: int | 0 <= p < 0x1_0000

  /** An IPv4 address and a port. */
  datatype Endpoint = Endpoint(a: Byte, b: Byte, c: Byte, d: Byte, port: Port)

  /** A connection to a known endpoint. */
  datatype Match = Match(remote: Endpoint, provider: int, inode: int)

  function Digit(c: char): Option<int> {
    if '0' <= c <= '9' then Some(c as int - 48)
    else if 'a' <= c <= 'f' then Some(c as int - 87)
    else if 'A' <= c <= 'F' then Some(c as int - 55)
    else None
  }

  /** The digits of a base, read as a number. */
  function Number(s: string, base: int): (n: Option<int>)
    requires 1 < base <= 16
    ensures n.Some? ==> n.value >= 0
  {
    if s == "" then Some(0)
    else
      var high, low := Number(s[..|s| - 1], base), Digit(s[|s| - 1]);
      if high.Some? && low.Some? && low.value < base then Some(high.value * base + low.value) else None
  }

  /** strconv.ParseUint: None on no digits, a wrong character, or a value out of range. */
  function ParseUint(s: string, base: int, bound: int): (n: Option<int>)
    requires 1 < base <= 16
    ensures n.Some? ==> 0 <= n.value < bound
  {
    var n := Number(s, base);
    if s != "" && n.Some? && n.value < bound then n else None
  }

  /** hex.DecodeString, on eight digits. */
  function DecodeHex(s: string): (bytes: Option<seq<Byte>>)
    requires |s| == 8
    ensures bytes.Some? ==> |bytes.value| == 4
  {
    var n0, n1 := ParseUint(s[..2], 16, 256), ParseUint(s[2..4], 16, 256);
    var n2, n3 := ParseUint(s[4..6], 16, 256), ParseUint(s[6..], 16, 256);
    if n0.Some? && n1.Some? && n2.Some? && n3.Some? then Some([n0.value, n1.value, n2.value, n3.value]) else None
  }

  const MAPPED := "FFFF0000"
  const MAPPED_SWAPPED := "0000FFFF"

  /** The address and port of "AABBCCDD:01BB"; of an IPv6 address only its last group, and only if the third group
      marks it as mapped. The groups before it are not looked at. */
  function ParseHexIPPort(s: string, isV6: bool): Option<Endpoint> {
    var i := Text.IndexOf(s, ':');
    if i == |s| then None
    else
      var port := ParseUint(s[i + 1..], 16, 0x1_0000);
      var hex := s[..i];
      if port.None? || (isV6 && |hex| != 32) then None
      else if isV6 && hex[16..24] != MAPPED && hex[16..24] != MAPPED_SWAPPED then None
      else
        var last := if isV6 then hex[24..] else hex;
        if |last| != 8 then None
        else
          var raw := DecodeHex(last);
          if raw.None? then None
          else Some(Endpoint(raw.value[3], raw.value[2], raw.value[1], raw.value[0], port.value))
  }

  // ---------------------------------------------------------------- as the kernel writes it

  function HexDigit(n: int): (c: char)
    requires 0 <= n < 16
    ensures Digit(c) == Some(n) && c != ':'
  {
    if n < 10 then (n + 48) as char else (n + 55) as char
  }

  function Hex2(b: Byte): string {
    [HexDigit(b / 16), HexDigit(b % 16)]
  }

  function Hex4(p: Port): string {
    Hex2(p / 256) + Hex2(p % 256)
  }

  function HexAddress(e: Endpoint): string {
    Hex2(e.d) + Hex2(e.c) + Hex2(e.b) + Hex2(e.a)
  }

  lemma Number2(b: Byte, p: string)
    requires Number(p, 16).Some?
    ensures Number(p + Hex2(b), 16) == Some(Number(p, 16).value * 256 + b)
  {
    var s := p + Hex2(b);
    assert s[..|s| - 1] == p + [HexDigit(b / 16)];
    assert (p + [HexDigit(b / 16)])[..|p|] == p;
  }

  lemma ParseHex2(b: Byte)
    ensures ParseUint(Hex2(b), 16, 256) == Some(b)
  {
    Number2(b, "");
    assert "" + Hex2(b) == Hex2(b);
  }

  lemma ParseHex4(p: Port)
    ensures ParseUint(Hex4(p), 16, 0x1_0000) == Some(p)
  {
    Number2(p / 256, "");
    assert "" + Hex2(p / 256) == Hex2(p / 256);
    Number2(p % 256, Hex2(p / 256));
  }

  lemma DecodeAddress(e: Endpoint)
    ensures DecodeHex(HexAddress(e)) == Some([e.d, e.c, e.b, e.a])
  {
    var s := HexAddress(e);
    assert s[..2] == Hex2(e.d) && s[2..4] == Hex2(e.c) && s[4..6] == Hex2(e.b) && s[6..] == Hex2(e.a);
    ParseHex2(e.a);
    ParseHex2(e.b);
    ParseHex2(e.c);
    ParseHex2(e.d);
  }

  /** Every endpoint is read back as the kernel writes it, in reversed byte order. */
  lemma ParseWritten(e: Endpoint)
    ensures ParseHexIPPort(HexAddress(e) + [':'] + Hex4(e.port), false) == Some(e)
  {
    var h, p := HexAddress(e), Hex4(e.port);
    Text.IndexAfter(h, ':', p);
    var s := h + [':'] + p;
    assert s[..|h|] == h && s[|h| + 1..] == p;
    ParseHex4(e.port);
    DecodeAddress(e);
  }

  /** Every mapped endpoint is read back from tcp6, whatever the first two groups. */
  lemma ParseMapped(e: Endpoint, groups: string, swapped: bool)
    requires |groups| == 16 && ':' !in groups
    ensures var third := if swapped then MAPPED_SWAPPED else MAPPED;
            ParseHexIPPort(groups + third + HexAddress(e) + [':'] + Hex4(e.port), true) == Some(e)
  {
    var third := if swapped then MAPPED_SWAPPED else MAPPED;
    var h, p := groups + third + HexAddress(e), Hex4(e.port);
    assert |third| == 8 && ':' !in third;
    Text.IndexAfter(h, ':', p);
    var s := h + [':'] + p;
    assert s[..|h|] == h && s[|h| + 1..] == p;
    assert h[16..24] == third && h[24..] == HexAddress(e);
    ParseHex4(e.port);
    DecodeAddress(e);
  }

  // ---------------------------------------------------------------- rows

  const ESTABLISHED := "01"

  /** What one row matches: an established connection to a known endpoint, with a readable inode. */
  function MatchOf(fields: seq<string>, isV6: bool, known: map<Endpoint, int>): Option<Match> {
    if |fields| < 10 || fields[3] != ESTABLISHED then None
    else
      var remote, inode := ParseHexIPPort(fields[2], isV6), ParseUint(fields[9], 10, 0x1_0000_0000_0000_0000);
      if remote.None? || remote.value !in known || inode.None? then None
      else Some(Match(remote.value, known[remote.value], inode.value))
  }

  function Matches(rows: seq<seq<string>>, isV6: bool, known: map<Endpoint, int>): seq<Match> {
    if rows == [] then []
    else
      var m := MatchOf(rows[|rows| - 1], isV6, known);
      Matches(rows[..|rows| - 1], isV6, known) + if m.Some? then [m.value] else []
  }

  /** Reads the rows after the header; None is a file that cannot be opened. */
  method ScanTCPFileWithInodes(file: Option<seq<seq<string>>>, isV6: bool, known: map<Endpoint, int>)
    returns (matches: seq<Match>)
    ensures matches == if file.None? then [] else Matches(file.value, isV6, known)
  {
    matches := [];
    if file.None? {
      return;
    }
    var rows := file.value;
    for i := 0 to |rows|
      invariant matches == Matches(rows[..i], isV6, known)
    {
      assert rows[..i + 1][..i] == rows[..i];
      var fields := rows[i];
      if |fields| < 10 || fields[3] != ESTABLISHED {
        continue;
      }
      var remote := ParseHexIPPort(fields[2], isV6);
      if remote.None? || remote.value !in known {
        continue;
      }
      var inode := ParseUint(fields[9], 10, 0x1_0000_0000_0000_0000);
      if inode.None? {
        continue;
      }
      matches := matches + [Match(remote.value, known[remote.value], inode.value)];
    }
    assert rows[..|rows|] == rows;
  }

  lemma {:induction false} MatchFound(rows: seq<seq<string>>, isV6: bool, known: map<Endpoint, int>, i: nat, m: Match)
    requires i < |rows| && MatchOf(rows[i], isV6, known) == Some(m)
    ensures m in Matches(rows, isV6, known)
  {
    if i < |rows| - 1 {
      MatchFound(rows[..|rows| - 1], isV6, known, i, m);
    }
  }

  lemma {:induction false} MatchRow(rows: seq<seq<string>>, isV6: bool, known: map<Endpoint, int>, m: Match)
    returns (i: nat)
    requires m in Matches(rows, isV6, known)
    ensures i < |rows| && MatchOf(rows[i], isV6, known) == Some(m)
  {
    if MatchOf(rows[|rows| - 1], isV6, known) == Some(m) {
      i := |rows| - 1;
    } else {
      i := MatchRow(rows[..|rows| - 1], isV6, known, m);
    }
  }

  /** The matches are those of the rows. */
  lemma MatchesFacts(rows: seq<seq<string>>, isV6: bool, known: map<Endpoint, int>, m: Match)
    ensures m in Matches(rows, isV6, known) <==> exists i :: 0 <= i < |rows| && MatchOf(rows[i], isV6, known) == Some(m)
    ensures m in Matches(rows, isV6, known) ==> m.remote in known && m.provider == known[m.remote]
  {
    if m in Matches(rows, isV6, known) {
      var i := MatchRow(rows, isV6, known, m);
    }
    if i :| 0 <= i < |rows| && MatchOf(rows[i], isV6, known) == Some(m) {
      MatchFound(rows, isV6, known, i, m);
    }
  }

  // ---------------------------------------------------------------- rows as the kernel writes them

  lemma {:induction false} NumberOfDecimal(n: nat)
    ensures Number(FormatNat(n), 10) == Some(n)
  {
    var s := FormatNat(n);
    if n >= 10 {
      NumberOfDecimal(n / 10);
      assert s[..|s| - 1] == FormatNat(n / 10);
    } else {
      assert s[..|s| - 1] == "";
    }
  }

  /** The text of an endpoint in tcp, and in tcp6, where it is mapped behind any two groups. */
  ghost predicate WritesEndpoint(field: string, isV6: bool, e: Endpoint) {
    if !isV6 then field == HexAddress(e) + [':'] + Hex4(e.port)
    else exists groups: string | |groups| == 16 && ':' !in groups ::
           field == groups + MAPPED_SWAPPED + HexAddress(e) + [':'] + Hex4(e.port)
  }

  lemma EndpointIsRead(field: string, isV6: bool, e: Endpoint)
    requires WritesEndpoint(field, isV6, e)
    ensures ParseHexIPPort(field, isV6) == Some(e)
  {
    if isV6 {
      var groups: string :| |groups| == 16 && ':' !in groups &&
                            field == groups + MAPPED_SWAPPED + HexAddress(e) + [':'] + Hex4(e.port);
      ParseMapped(e, groups, true);
    } else {
      ParseWritten(e);
    }
  }

  /** A row whose third field is the remote endpoint, whose fourth is the state and whose tenth is the inode is a match
      exactly if the state is 01 and the endpoint is known. */
  lemma RowMatchesIff(fields: seq<string>, isV6: bool, known: map<Endpoint, int>, e: Endpoint, inode: nat)
    requires |fields| >= 10 && WritesEndpoint(fields[2], isV6, e)
    requires fields[9] == FormatNat(inode) && inode < 0x1_0000_0000_0000_0000
    ensures MatchOf(fields, isV6, known) ==
            if fields[3] == "01" && e in known then Some(Match(e, known[e], inode)) else None
  {
    NumberOfDecimal(inode);
    EndpointIsRead(fields[2], isV6, e);
  }
}
