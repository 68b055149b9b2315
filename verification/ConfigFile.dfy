/** The configuration file of the command line: what is read back from what was written. */
module ConfigFile {
  import opened Base
  import opened Orders
  import opened Text

  /** The allow-listed keys, the comment lines at the top, and how many bytes a text has. */
  datatype Format = Format(allowed: set<string>, header: seq<string>, bytes: string -> nat)

  predicate IsName(k: string) {
    k != "" && forall i | 0 <= i < |k| :: 'A' <= k[i] <= 'Z' || k[i] == '_'
  }

  predicate IsComment(line: string) {
    '\n' !in line && (line == "" || line[0] == '#')
  }

  ghost predicate WellFormed(f: Format) {
    && f.header != [] && (forall k | k in f.allowed :: IsName(k)) && !TooLong(f, "")
    && forall i | 0 <= i < |f.header| :: IsComment(f.header[i]) && !TooLong(f, f.header[i])
  }

  /** The scanner's buffer, in bytes. */
  const MAX_SCAN_TOKEN_SIZE := 0x1_0000

  /** A line that the scanner gives up on. */
  predicate TooLong(f: Format, line: string) {
    f.bytes(line) >= MAX_SCAN_TOKEN_SIZE
  }

  // ---------------------------------------------------------------- reading

  predicate IsQuote(c: char) {
    c == '"' || c == '\''
  }

  /** Without the quotes at either end. */
  function TrimQuotes(s: string): string {
    if s == "" then ""
    else if IsQuote(s[0]) then TrimQuotes(s[1..])
    else if IsQuote(s[|s| - 1]) then TrimQuotes(s[..|s| - 1])
    else s
  }

  datatype Setting = Setting(key: string, value: string)

  /** What a line sets: nothing if it is blank, a comment, has no equals sign, or its key is not allowed. */
  function ParseLine(raw: string, allowed: set<string>): Option<Setting> {
    var line := Trim(raw);
    if line == "" || line[0] == '#' then None
    else
      var i := IndexOf(line, '=');
      if i == |line| then None
      else
        var key := Trim(line[..i]);
        if key in allowed then Some(Setting(key, TrimQuotes(Trim(line[i + 1..])))) else None
  }

  /** Later lines win. */
  function ReadLines(lines: seq<string>, allowed: set<string>): map<string, string> {
    if lines == [] then map[]
    else
      var m := ReadLines(lines[..|lines| - 1], allowed);
      var found := ParseLine(lines[|lines| - 1], allowed);
      if found.Some? then m[found.value.key := found.value.value] else m
  }

  ghost predicate Scannable(f: Format, lines: seq<string>) {
    forall i | 0 <= i < |lines| :: !TooLong(f, lines[i])
  }

  /** The settings of a file, none if it is missing; None is the error on a line that is too long. */
  ghost function Read(body: Option<string>, f: Format): Option<map<string, string>> {
    if body.None? then Some(map[])
    else if !Scannable(f, Split(body.value, '\n')) then None
    else Some(ReadLines(Split(body.value, '\n'), f.allowed))
  }

  // ---------------------------------------------------------------- writing

  function Lines(keys: seq<string>, m: map<string, string>): (ls: seq<string>)
    requires forall k | k in keys :: k in m
    ensures |ls| == |keys| && forall i | 0 <= i < |keys| :: ls[i] == keys[i] + ['='] + m[keys[i]]
  {
    seq(|keys|, i requires 0 <= i < |keys| => assert keys[i] in keys; keys[i] + ['='] + m[keys[i]])
  }

  function Body(f: Format, keys: seq<string>, m: map<string, string>): string
    requires forall k | k in keys :: k in m
  {
    Join(f.header + Lines(keys, m), '\n') + ['\n']
  }

  /** Each key once, in order. */
  ghost predicate Lists(keys: seq<string>, m: map<string, string>) {
    InOrder(keys, GoLess) && Distinct(keys) && forall k :: k in keys <==> k in m
  }

  ghost predicate IsRendering(body: string, f: Format, m: map<string, string>) {
    exists keys :: Lists(keys, m) && body == Body(f, keys, m)
  }

  /** The old settings, overlaid with the updates; an empty update deletes. */
  function Overlay(saved: map<string, string>, updates: map<string, string>, allowed: set<string>): map<string, string> {
    map k | k in saved.Keys + (updates.Keys * allowed) && !(k in updates && k in allowed && updates[k] == "") ::
      if k in updates && k in allowed then updates[k] else saved[k]
  }

  /** One update, applied to the settings so far. */
  lemma OverlayOne(saved: map<string, string>, done: map<string, string>, k: string, v: string, allowed: set<string>)
    ensures var m := Overlay(saved, done, allowed);
            k !in done ==> Overlay(saved, done[k := v], allowed) ==
                           if k !in allowed then m else if v == "" then m - {k} else m[k := v]
  {
  }

  /** What the file system grants: the home directory, making the directory, opening for reading, and writing, which
      may also stop after some characters of a file already truncated. */
  datatype Write = Written | NotOpened | CutAt(at: nat)
  datatype Disk = Disk(home: bool, mkdir: bool, open: bool, write: Write)

  /** Reading on this disk; None is an error. */
  ghost function ReadOn(disk: Disk, body: Option<string>, f: Format): Option<map<string, string>> {
    if !disk.home then None
    else if body.None? then Some(map[])
    else if !disk.open then None
    else Read(body, f)
  }

  class Config {
    const format: Format
    var body: Option<string>

    constructor (format: Format)
      ensures this.format == format && body == None
    {
      this.format := format;
      body := None;
    }

    method ReadConfigFile(disk: Disk) returns (out: Option<map<string, string>>)
      ensures out == ReadOn(disk, body, format)
    {
      if !disk.home {
        return None;
      }
      if body.None? {
        return Some(map[]);
      }
      if !disk.open {
        return None;
      }
      var lines := Split(body.value, '\n');
      out := ScanLines(format, lines);
    }

    /** One line: the setting it makes, if any. */
    static method ScanLine(raw: string, allowed: set<string>) returns (found: Option<Setting>)
      ensures found == ParseLine(raw, allowed)
    {
      var line := Trim(raw);
      if line == "" || line[0] == '#' {
        return None;
      }
      var cut := IndexOf(line, '=');
      if cut == |line| {
        return None;
      }
      var key, val := Trim(line[..cut]), Trim(line[cut + 1..]);
      val := TrimQuotes(val);
      if key !in allowed {
        return None;
      }
      return Some(Setting(key, val));
    }

    static method ScanLines(f: Format, lines: seq<string>) returns (out: Option<map<string, string>>)
      ensures out == if Scannable(f, lines) then Some(ReadLines(lines, f.allowed)) else None
    {
      var settings: map<string, string> := map[];
      for i := 0 to |lines|
        invariant Scannable(f, lines[..i]) && settings == ReadLines(lines[..i], f.allowed)
      {
        assert lines[..i + 1][..i] == lines[..i];
        if TooLong(f, lines[i]) {
          return None;
        }
        var found := ScanLine(lines[i], f.allowed);
        if found.Some? {
          settings := settings[found.value.key := found.value.value];
        }
      }
      assert lines[..|lines|] == lines;
      return Some(settings);
    }

    static method ApplyUpdates(existing: map<string, string>, updates: map<string, string>, allowed: set<string>)
      returns (m: map<string, string>)
      ensures m == Overlay(existing, updates, allowed)
    {
      m := existing;
      var todo := updates.Keys;
      ghost var done: map<string, string> := map[];
      while todo != {}
        invariant todo <= updates.Keys && done.Keys == updates.Keys - todo
        invariant forall k | k in done :: done[k] == updates[k]
        invariant m == Overlay(existing, done, allowed)
      {
        var k :| k in todo;
        todo := todo - {k};
        OverlayOne(existing, done, k, updates[k], allowed);
        done := done[k := updates[k]];
        if k in allowed {
          if updates[k] == "" {
            m := m - {k};
          } else {
            m := m[k := updates[k]];
          }
        }
      }
      assert done == updates;
    }

    /** The keys of a map, in order. */
    static method SortedKeys(m: map<string, string>) returns (keys: seq<string>)
      ensures Lists(keys, m)
    {
      var listed: seq<string> := [];
      var todo := m.Keys;
      while todo != {}
        invariant todo <= m.Keys && Distinct(listed) && forall k :: k in listed <==> k in m && k !in todo
      {
        var k :| k in todo;
        listed := listed + [k];
        todo := todo - {k};
      }
      var sorted := new string[|listed|](i requires 0 <= i < |listed| => listed[i]);
      assert sorted[..] == listed;
      GoLessIsStrict();
      SortStrings(sorted, GoLess);
      keys := sorted[..];
      PermutationKeeps(listed, keys);
    }

    static method Render(f: Format, keys: seq<string>, m: map<string, string>) returns (body: string)
      requires forall k | k in keys :: k in m
      ensures body == Body(f, keys, m)
    {
      var lines := f.header;
      for i := 0 to |keys|
        invariant lines == f.header + Lines(keys[..i], m)
      {
        assert keys[i] in keys;
        lines := lines + [keys[i] + ['='] + m[keys[i]]];
        assert Lines(keys[..i + 1], m) == Lines(keys[..i], m) + [keys[i] + ['='] + m[keys[i]]];
      }
      assert keys[..|keys|] == keys;
      body := Join(lines, '\n') + ['\n'];
    }

    /** Fails without touching the file, or writes it whole, or leaves it cut. */
    method Save(updates: map<string, string>, disk: Disk) returns (error: bool)
      modifies this
      ensures error <==> !disk.mkdir || ReadOn(disk, old(body), format).None? || disk.write != Written
      ensures !disk.mkdir || ReadOn(disk, old(body), format).None? || disk.write.NotOpened? ==>
                body == old(body)
      ensures disk.mkdir && ReadOn(disk, old(body), format).Some? && !disk.write.NotOpened? ==>
                exists text :: IsSave(text, old(body), updates, format, disk) && body == Some(Left(text, disk.write))
    {
      if !disk.home {
        return true;
      }
      if !disk.mkdir {
        return true;
      }
      var read := ReadConfigFile(disk);
      if read.None? {
        return true;
      }
      var existing := ApplyUpdates(read.value, updates, format.allowed);
      var keys := SortedKeys(existing);
      var text := Render(format, keys, existing);
      assert IsSave(text, body, updates, format, disk);
      if disk.write.NotOpened? {
        return true;
      }
      body := Some(Left(text, disk.write));
      return disk.write.CutAt?;
    }
  }

  /** The text that a save on this disk is to write. */
  ghost predicate IsSave(text: string, before: Option<string>, updates: map<string, string>, f: Format, disk: Disk) {
    var read := ReadOn(disk, before, f);
    read.Some? && IsRendering(text, f, Overlay(read.value, updates, f.allowed))
  }

  function Left(text: string, write: Write): string {
    if write.CutAt? && write.at < |text| then text[..write.at] else text
  }

  lemma PermutationKeeps(a: seq<string>, b: seq<string>)
    requires multiset(a) == multiset(b) && Distinct(a)
    ensures Distinct(b) && forall k :: k in a <==> k in b
  {
    forall k ensures k in a <==> k in b {
      assert k in a <==> k in multiset(a);
      assert k in b <==> k in multiset(b);
    }
    forall i, j | 0 <= i < j < |b| ensures b[i] != b[j] {
      if b[i] == b[j] {
        Twice(b, i, j);
        AtMostOnce(a, b[i]);
      }
    }
  }

  lemma Twice(b: seq<string>, i: int, j: int)
    requires 0 <= i < j < |b| && b[i] == b[j]
    ensures multiset(b)[b[i]] >= 2
  {
    assert b == b[..i] + [b[i]] + b[i + 1..j] + [b[j]] + b[j + 1..];
  }

  lemma {:induction false} AtMostOnce(a: seq<string>, k: string)
    requires Distinct(a)
    ensures multiset(a)[k] <= 1
  {
    if a != [] {
      assert a == [a[0]] + a[1..];
      assert forall i | 0 <= i < |a[1..]| :: a[1..][i] == a[i + 1];
      AtMostOnce(a[1..], k);
      if k == a[0] {
        assert k !in a[1..] && multiset(a[1..])[k] == 0;
      }
    }
  }
}
