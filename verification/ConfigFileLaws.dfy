/** Saving the settings and reading them again. */
module ConfigFileLaws {
  import opened Base
  import opened ConfigFile
  import opened Orders
  import opened Text
  import opened Utf8

  function Reread(v: string): string {
    TrimQuotes(Trim(v))
  }

  /** Without line breaks, and without blanks or quotes at the ends. */
  predicate Clean(v: string) {
    '\n' !in v && Reread(v) == v
  }

  lemma {:induction false} TrimQuotesFacts(s: string)
    ensures |TrimQuotes(s)| <= |s| && forall c | c in TrimQuotes(s) :: c in s
    ensures |TrimQuotes(s)| == |s| ==> TrimQuotes(s) == s
    ensures TrimQuotes(s) == s <==> s == "" || (!IsQuote(s[0]) && !IsQuote(s[|s| - 1]))
  {
    if s != "" && IsQuote(s[0]) {
      TrimQuotesFacts(s[1..]);
    } else if s != "" && IsQuote(s[|s| - 1]) {
      TrimQuotesFacts(s[..|s| - 1]);
    }
  }

  lemma TrimmedIff(s: string)
    ensures |Trim(s)| <= |s| && (|Trim(s)| == |s| ==> Trim(s) == s) && (Trim(s) == s <==> Trimmed(s))
  {
    TrimLeftFacts(s);
    TrimRightFacts(TrimLeft(s));
    TrimFacts(s);
  }

  /** Clean in plain words. */
  lemma CleanIff(v: string)
    ensures Clean(v) <==> v == "" || ('\n' !in v && !IsSpace(v[0]) && !IsSpace(v[|v| - 1])
                                      && !IsQuote(v[0]) && !IsQuote(v[|v| - 1]))
  {
    TrimmedIff(v);
    TrimQuotesFacts(Trim(v));
    TrimQuotesFacts(v);
  }

  // ---------------------------------------------------------------- one line

  lemma {:induction false} TrimLeftSnoc(s: string, c: char)
    requires IsSpace(c)
    ensures TrimLeft(s + [c]) == if TrimLeft(s) == "" then "" else TrimLeft(s) + [c]
  {
    if s == "" {
      assert s + [c] == [c] && TrimLeft([c]) == TrimLeft([c][1..]);
    } else if IsSpace(s[0]) {
      assert (s + [c])[1..] == s[1..] + [c];
      TrimLeftSnoc(s[1..], c);
    }
  }

  lemma {:induction false} TrimAgain(v: string)
    ensures Trim(TrimRight(v)) == Trim(v)
  {
    if v != "" && IsSpace(v[|v| - 1]) {
      var s, c := v[..|v| - 1], v[|v| - 1];
      TrimAgain(s);
      assert v == s + [c];
      TrimLeftSnoc(s, c);
      if TrimLeft(s) != "" {
        assert (TrimLeft(s) + [c])[..|TrimLeft(s)|] == TrimLeft(s);
      }
    }
  }

  /** A written line sets its key to the value without the blanks and quotes around it. */
  lemma ParseWritten(k: string, v: string, allowed: set<string>)
    requires IsName(k) && k in allowed
    ensures ParseLine(k + ['='] + v, allowed) == Some(Setting(k, Reread(v)))
  {
    var p, t := k + ['='], TrimRight(v);
    var line := k + ['='] + t;
    assert (p + v)[0] == k[0];
    TrimLeftFacts(p + v);
    TrimRightAfter(p, v);
    assert Trim(p + v) == line;
    assert '=' !in k;
    IndexAfter(k, '=', t);
    assert line[0] == k[0] && line[..|k|] == k && line[|k| + 1..] == t;
    TrimmedIff(k);
    TrimAgain(v);
  }

  predicate Blank(s: string) {
    forall i | 0 <= i < |s| :: IsSpace(s[i])
  }

  lemma {:induction false} TrimLeftBlank(b: string, s: string)
    requires Blank(b) && (s == "" || !IsSpace(s[0]))
    ensures TrimLeft(b + s) == s
  {
    if b == "" {
      assert b + s == s;
    } else {
      assert (b + s)[1..] == b[1..] + s;
      TrimLeftBlank(b[1..], s);
    }
  }

  lemma {:induction false} TrimRightBlank(s: string, b: string)
    requires Blank(b) && (s == "" || !IsSpace(s[|s| - 1]))
    ensures TrimRight(s + b) == s
  {
    if b == "" {
      assert s + b == s;
    } else {
      assert (s + b)[..|s + b| - 1] == s + b[..|b| - 1];
      TrimRightBlank(s, b[..|b| - 1]);
    }
  }

  lemma TrimHandWritten(before: string, p: string, v: string)
    requires Blank(before) && p != "" && !IsSpace(p[0]) && !IsSpace(p[|p| - 1])
    ensures Trim(before + (p + v)) == p + TrimRight(v)
  {
    assert (p + v)[0] == p[0];
    TrimLeftBlank(before, p + v);
    TrimRightAfter(p, v);
  }

  lemma TrimKey(k: string, after: string)
    requires IsName(k) && Blank(after)
    ensures Trim(k + after) == k && '=' !in k + after
  {
    TrimLeftFacts(k + after);
    TrimRightBlank(k, after);
  }

  /** A line written by hand sets its key to the value too, with blanks before and after the key and the value. */
  lemma ParseHandWritten(before: string, k: string, after: string, v: string, allowed: set<string>)
    requires IsName(k) && k in allowed && Blank(before) && Blank(after)
    ensures ParseLine(before + (k + after + ['='] + v), allowed) == Some(Setting(k, Reread(v)))
  {
    var name, t := k + after, TrimRight(v);
    var line := name + ['='] + t;
    TrimHandWritten(before, name + ['='], v);
    TrimKey(k, after);
    IndexAfter(name, '=', t);
    assert line[0] == k[0] && line[..|name|] == name && line[|name| + 1..] == t;
    TrimAgain(v);
  }

  /** A line sets nothing exactly if it is blank, a comment behind blanks, has no equals sign, or its key is not
      allowed. */
  lemma ParsesNothing(before: string, rest: string, allowed: set<string>)
    requires Blank(before)
    requires rest == "" || rest[0] == '#' || '=' !in rest
    ensures ParseLine(before + rest, allowed) == None
  {
    if rest != "" && rest[0] == '#' {
      TrimLeftBlank(before, rest);
      TrimRightFacts(rest);
    } else {
      TrimFacts(before + rest);
      assert '=' !in Trim(before + rest);
    }
  }

  lemma ParseComment(line: string, allowed: set<string>)
    requires IsComment(line)
    ensures ParseLine(line, allowed) == None
  {
    if line != "" {
      TrimLeftFacts(line);
      TrimRightFacts(line);
    }
  }

  // ---------------------------------------------------------------- the whole file

  lemma {:induction false} ReadComments(header: seq<string>, allowed: set<string>)
    requires forall i | 0 <= i < |header| :: IsComment(header[i])
    ensures ReadLines(header, allowed) == map[]
  {
    if header != [] {
      ParseComment(header[|header| - 1], allowed);
      ReadComments(header[..|header| - 1], allowed);
    }
  }

  function RereadAll(keys: seq<string>, m: map<string, string>): map<string, string>
    requires forall k | k in keys :: k in m
  {
    map k | k in keys :: Reread(m[k])
  }

  lemma {:induction false} ReadWritten(f: Format, keys: seq<string>, m: map<string, string>)
    requires WellFormed(f) && forall k | k in keys :: k in m && k in f.allowed
    ensures ReadLines(f.header + Lines(keys, m), f.allowed) == RereadAll(keys, m)
  {
    if keys == [] {
      assert f.header + Lines(keys, m) == f.header;
      ReadComments(f.header, f.allowed);
    } else {
      var init, k := keys[..|keys| - 1], keys[|keys| - 1];
      assert k in keys && keys == init + [k];
      var line := k + ['='] + m[k];
      assert Lines(keys, m) == Lines(init, m) + [line];
      assert f.header + Lines(keys, m) == f.header + Lines(init, m) + [line];
      ReadWritten(f, init, m);
      ParseWritten(k, m[k], f.allowed);
    }
  }

  lemma {:induction false} JoinLast(ls: seq<string>)
    requires ls != []
    ensures Join(ls + [""], '\n') == Join(ls, '\n') + ['\n']
  {
    if |ls| > 1 {
      assert (ls + [""])[1..] == ls[1..] + [""];
      JoinLast(ls[1..]);
    }
  }

  lemma SplitBody(f: Format, keys: seq<string>, m: map<string, string>)
    requires WellFormed(f) && forall k | k in keys :: k in m && k in f.allowed && '\n' !in m[k]
    ensures Split(Body(f, keys, m), '\n') == f.header + Lines(keys, m) + [""]
  {
    var ls := f.header + Lines(keys, m);
    forall p | p in ls + [""] ensures '\n' !in p {
      if p in Lines(keys, m) {
        var i :| 0 <= i < |keys| && Lines(keys, m)[i] == p;
        assert keys[i] in keys && IsName(keys[i]);
      }
    }
    JoinLast(ls);
    SplitJoin(ls + [""], '\n');
  }

  ghost predicate ShortLines(f: Format, keys: seq<string>, m: map<string, string>)
    requires forall k | k in keys :: k in m
  {
    forall i | 0 <= i < |keys| :: !TooLong(f, Lines(keys, m)[i])
  }

  /** What is read from a written file: each value without the blanks and quotes around it, or an error if a line is too
      long. */
  lemma ReadBody(f: Format, keys: seq<string>, m: map<string, string>)
    requires WellFormed(f) && forall k | k in keys :: k in m && k in f.allowed && '\n' !in m[k]
    ensures Read(Some(Body(f, keys, m)), f) ==
            if ShortLines(f, keys, m) then Some(RereadAll(keys, m)) else None
  {
    var ls := f.header + Lines(keys, m);
    SplitBody(f, keys, m);
    ReadWritten(f, keys, m);
    ParseComment("", f.allowed);
    assert (ls + [""])[..|ls|] == ls;
    ScannableIff(f, keys, m);
  }

  lemma ScannableIff(f: Format, keys: seq<string>, m: map<string, string>)
    requires WellFormed(f) && forall k | k in keys :: k in m
    ensures Scannable(f, f.header + Lines(keys, m) + [""]) <==> ShortLines(f, keys, m)
  {
    var all, n := f.header + Lines(keys, m) + [""], |f.header|;
    assert forall i | 0 <= i < |keys| :: all[n + i] == Lines(keys, m)[i];
    if ShortLines(f, keys, m) {
      forall i | 0 <= i < |all| ensures !TooLong(f, all[i]) {
        assert i < n ==> all[i] == f.header[i];
        assert n <= i < n + |keys| ==> all[i] == Lines(keys, m)[i - n];
      }
    }
  }

  lemma {:induction false} NoBreaksRead(lines: seq<string>, allowed: set<string>)
    requires forall l | l in lines :: '\n' !in l
    ensures var m := ReadLines(lines, allowed); m.Keys <= allowed && forall k | k in m :: '\n' !in m[k]
  {
    if lines != [] {
      var l := lines[|lines| - 1];
      NoBreaksRead(lines[..|lines| - 1], allowed);
      assert l in lines;
      if ParseLine(l, allowed).Some? {
        NoBreakParsed(l, allowed);
      }
    }
  }

  lemma NoBreakParsed(raw: string, allowed: set<string>)
    requires '\n' !in raw && ParseLine(raw, allowed).Some?
    ensures var s := ParseLine(raw, allowed).value; s.key in allowed && '\n' !in s.value
  {
    var line := Trim(raw);
    TrimFacts(raw);
    var rest := line[IndexOf(line, '=') + 1..];
    TrimFacts(rest);
    TrimQuotesFacts(Trim(rest));
  }

  /** Whatever the file holds, only allowed keys are read, and no value with a line break. */
  lemma ReadFacts(body: Option<string>, f: Format)
    requires Read(body, f).Some?
    ensures var m := Read(body, f).value; m.Keys <= f.allowed && forall k | k in m :: '\n' !in m[k]
  {
    if body.Some? {
      SplitFacts(body.value, '\n');
      NoBreaksRead(Split(body.value, '\n'), f.allowed);
    }
  }

  /** A setting that comes back: its value is clean and its line not too long. */
  predicate Survives(f: Format, k: string, v: string) {
    Clean(v) && !TooLong(f, k + ['='] + v)
  }

  ghost predicate AllSurvive(f: Format, m: map<string, string>) {
    forall k | k in m :: Survives(f, k, m[k])
  }

  ghost predicate NoBreaks(m: map<string, string>) {
    forall k | k in m :: '\n' !in m[k]
  }

  lemma ShortLinesIff(f: Format, keys: seq<string>, m: map<string, string>)
    requires forall k :: k in keys <==> k in m
    ensures ShortLines(f, keys, m) <==> forall k | k in m :: !TooLong(f, k + ['='] + m[k])
  {
    if ShortLines(f, keys, m) {
      forall k | k in m ensures !TooLong(f, k + ['='] + m[k]) {
        var i :| 0 <= i < |keys| && keys[i] == k;
        assert Lines(keys, m)[i] == k + ['='] + m[k];
      }
    }
    if forall k | k in m :: !TooLong(f, k + ['='] + m[k]) {
      forall i | 0 <= i < |keys| ensures !TooLong(f, Lines(keys, m)[i]) {
        assert keys[i] in m;
      }
    }
  }

  lemma RereadIff(keys: seq<string>, m: map<string, string>)
    requires (forall k :: k in keys <==> k in m) && NoBreaks(m)
    ensures RereadAll(keys, m) == m <==> forall k | k in m :: Clean(m[k])
  {
    var back := RereadAll(keys, m);
    assert back.Keys == m.Keys;
    if back == m {
      assert forall k | k in m :: back[k] == m[k];
    }
  }

  /** Written settings are read back exactly when every one survives. */
  lemma ReadBackIff(body: string, f: Format, m: map<string, string>)
    requires WellFormed(f) && m.Keys <= f.allowed && IsRendering(body, f, m)
    ensures Read(Some(body), f) == Some(m) <==> AllSurvive(f, m)
  {
    var keys :| Lists(keys, m) && body == Body(f, keys, m);
    if Read(Some(body), f) == Some(m) {
      ReadFacts(Some(body), f);
    }
    if NoBreaks(m) {
      ReadBody(f, keys, m);
      RereadIff(keys, m);
      ShortLinesIff(f, keys, m);
    }
  }

  /** The written file is determined by the settings. */
  lemma RenderingUnique(body: string, other: string, f: Format, m: map<string, string>)
    requires IsRendering(body, f, m) && IsRendering(other, f, m)
    ensures body == other
  {
    var keys :| Lists(keys, m) && body == Body(f, keys, m);
    var ks :| Lists(ks, m) && other == Body(f, ks, m);
    GoLessIsStrict();
    OrderedUnique(keys, ks, GoLess);
  }

  lemma OverlayNothing(m: map<string, string>, allowed: set<string>)
    ensures Overlay(m, map[], allowed) == m
  {
  }

  lemma SameLine(k: string, v: string, l: string, w: string)
    requires '=' !in k && '=' !in l && k + ['='] + v == l + ['='] + w
    ensures k == l && v == w
  {
    var line := k + ['='] + v;
    IndexAfter(k, '=', v);
    IndexAfter(l, '=', w);
    assert line[..|k|] == k && line[..|l|] == l && line[|k| + 1..] == v && line[|l| + 1..] == w;
  }

  lemma SameLineAt(keys: seq<string>, m: map<string, string>, ks: seq<string>, m': map<string, string>, i: nat)
    requires (forall k | k in keys :: k in m && IsName(k)) && (forall k | k in ks :: k in m' && IsName(k))
    requires Lines(keys, m) == Lines(ks, m') && i < |keys|
    ensures |ks| == |keys| && keys[i] == ks[i] && m[keys[i]] == m'[keys[i]]
  {
    var k, l := keys[i], ks[i];
    assert k in keys && l in ks;
    assert Lines(keys, m)[i] == Lines(ks, m')[i];
    SameLine(k, m[k], l, m'[l]);
  }

  lemma SameLines(keys: seq<string>, m: map<string, string>, ks: seq<string>, m': map<string, string>)
    requires (forall k :: k in keys <==> k in m) && (forall k :: k in ks <==> k in m')
    requires (forall k | k in m :: IsName(k)) && (forall k | k in m' :: IsName(k)) && Lines(keys, m) == Lines(ks, m')
    ensures m == m'
  {
    forall i | 0 <= i < |keys| ensures |ks| == |keys| && keys[i] == ks[i] && m[keys[i]] == m'[keys[i]] {
      SameLineAt(keys, m, ks, m', i);
    }
    assert |ks| == |Lines(ks, m')| == |keys|;
    assert keys == ks;
  }

  lemma SameBodies(f: Format, keys: seq<string>, m: map<string, string>, ks: seq<string>, m': map<string, string>)
    requires WellFormed(f) && (forall k | k in keys :: k in m && k in f.allowed && '\n' !in m[k])
    requires (forall k | k in ks :: k in m' && k in f.allowed && '\n' !in m'[k]) && Body(f, keys, m) == Body(f, ks, m')
    ensures Lines(keys, m) == Lines(ks, m')
  {
    SplitBody(f, keys, m);
    SplitBody(f, ks, m');
    Middle(f.header, Lines(keys, m), Lines(ks, m'), [""]);
  }

  lemma Middle(h: seq<string>, x: seq<string>, y: seq<string>, t: seq<string>)
    requires h + x + t == h + y + t
    ensures x == y
  {
    var all := h + x + t;
    assert all[|h|..|all| - |t|] == x && all[|h|..|all| - |t|] == y;
  }

  /** Different settings without line breaks are written differently. */
  lemma RenderingInjective(body: string, f: Format, m: map<string, string>, m': map<string, string>)
    requires WellFormed(f) && m.Keys <= f.allowed && m'.Keys <= f.allowed && NoBreaks(m) && NoBreaks(m')
    requires IsRendering(body, f, m) && IsRendering(body, f, m')
    ensures m == m'
  {
    var keys :| Lists(keys, m) && body == Body(f, keys, m);
    var ks :| Lists(ks, m') && body == Body(f, ks, m');
    SameBodies(f, keys, m, ks, m');
    SameLines(keys, m, ks, m');
  }

  /** Saving again without updates writes the same bytes exactly when every value was clean (for values without line
      breaks, and a file that can be read at all). */
  lemma SecondSaveIsIdenticalIff(body: string, other: string, f: Format, m: map<string, string>)
    requires WellFormed(f) && m.Keys <= f.allowed && NoBreaks(m) && IsRendering(body, f, m)
    requires var read := Read(Some(body), f);
             read.Some? && IsRendering(other, f, Overlay(read.value, map[], f.allowed))
    ensures other == body <==> AllSurvive(f, m)
  {
    var keys :| Lists(keys, m) && body == Body(f, keys, m);
    var read := Read(Some(body), f).value;
    ReadBody(f, keys, m);
    RereadIff(keys, m);
    ShortLinesIff(f, keys, m);
    ReadFacts(Some(body), f);
    OverlayNothing(read, f.allowed);
    if read == m {
      RenderingUnique(body, other, f, m);
    } else if other == body {
      RenderingInjective(body, f, m, read);
    }
  }

  // ---------------------------------------------------------------- a write that was cut

  /** A line cut before its equals sign sets nothing; cut later, it sets its key to the rest of the value. */
  lemma ParseCut(k: string, v: string, r: nat, allowed: set<string>)
    requires IsName(k) && k in allowed && r <= |k| + 1 + |v|
    ensures ParseLine((k + ['='] + v)[..r], allowed) ==
            if r <= |k| then None else Some(Setting(k, Reread(v[..r - |k| - 1])))
  {
    var line := (k + ['='] + v)[..r];
    if r <= |k| {
      assert line == k[..r];
      TrimFacts(line);
      assert '=' !in Trim(line);
    } else {
      assert line == k + ['='] + v[..r - |k| - 1];
      ParseWritten(k, v[..r - |k| - 1], allowed);
    }
  }

  lemma CommentCut(line: string, r: nat)
    requires IsComment(line) && r <= |line|
    ensures IsComment(line[..r])
  {
  }

  lemma ReadCutHeader(f: Format, i: nat, r: nat)
    requires WellFormed(f) && i < |f.header| && r <= |f.header[i]|
    ensures ReadLines(f.header[..i] + [f.header[i][..r]], f.allowed) == map[]
  {
    assert (f.header[..i] + [f.header[i][..r]])[..i] == f.header[..i];
    CommentCut(f.header[i], r);
    ParseComment(f.header[i][..r], f.allowed);
    ReadComments(f.header[..i], f.allowed);
  }

  lemma ReadCutSettings(f: Format, keys: seq<string>, m: map<string, string>, last: string)
    requires WellFormed(f) && forall k | k in keys :: k in m && k in f.allowed
    ensures var found := ParseLine(last, f.allowed);
            ReadLines(f.header + Lines(keys, m) + [last], f.allowed) ==
            if found.None? then RereadAll(keys, m) else RereadAll(keys, m)[found.value.key := found.value.value]
  {
    var ls := f.header + Lines(keys, m);
    assert (ls + [last])[..|ls|] == ls;
    ReadWritten(f, keys, m);
  }

  /** The cut line of a setting adds nothing, or the key with the head of its value. */
  lemma ReadCutSetting(f: Format, keys: seq<string>, m: map<string, string>, j: nat, r: nat)
    returns (head: Option<string>)
    requires WellFormed(f) && (forall k | k in keys :: k in m && k in f.allowed)
    requires j < |keys| && r <= |Lines(keys, m)[j]|
    ensures head.Some? ==> head.value <= m[keys[j]]
    ensures var whole := RereadAll(keys[..j], m);
            ReadLines(f.header + Lines(keys[..j], m) + [Lines(keys, m)[j][..r]], f.allowed) ==
            if head.None? then whole else whole[keys[j] := Reread(head.value)]
  {
    var k := keys[j];
    assert k in keys;
    ParseCut(k, m[k], r, f.allowed);
    ReadCutSettings(f, keys[..j], m, Lines(keys, m)[j][..r]);
    head := if r > |k| then Some(m[k][..r - |k| - 1]) else None;
  }

  lemma ReadCut(f: Format, keys: seq<string>, m: map<string, string>, i: nat, r: nat)
    returns (j: nat, head: Option<string>)
    requires WellFormed(f) && forall k | k in keys :: k in m && k in f.allowed
    requires var all := f.header + Lines(keys, m) + [""]; i < |all| && r <= |all[i]|
    ensures j <= |keys| && (head.Some? ==> j < |keys| && head.value <= m[keys[j]])
    ensures var all, whole := f.header + Lines(keys, m) + [""], RereadAll(keys[..j], m);
            ReadLines(all[..i] + [all[i][..r]], f.allowed) ==
            if head.None? then whole else whole[keys[j] := Reread(head.value)]
  {
    var all, n := f.header + Lines(keys, m) + [""], |f.header|;
    j, head := 0, None;
    if i < n {
      assert all[i] == f.header[i] && all[..i] == f.header[..i];
      ReadCutHeader(f, i, r);
    } else {
      j := i - n;
      assert all[..i] == f.header + Lines(keys[..j], m);
      if j < |keys| {
        assert all[i] == Lines(keys, m)[j];
        head := ReadCutSetting(f, keys, m, j, r);
      } else {
        ParseComment("", f.allowed);
        ReadCutSettings(f, keys[..j], m, "");
      }
    }
  }

  /** What is read after a cut write, if it can be read: the first settings as from the whole file, then perhaps one
      with the head of its value, and none of the others. */
  lemma CutReads(at: nat, f: Format, keys: seq<string>, m: map<string, string>)
    returns (j: nat, head: Option<string>)
    requires WellFormed(f) && forall k | k in keys :: k in m && k in f.allowed && '\n' !in m[k]
    requires at <= |Body(f, keys, m)| && Read(Some(Body(f, keys, m)[..at]), f).Some?
    ensures j <= |keys| && (head.Some? ==> j < |keys| && head.value <= m[keys[j]])
    ensures var whole := RereadAll(keys[..j], m);
            Read(Some(Body(f, keys, m)[..at]), f).value ==
            if head.None? then whole else whole[keys[j] := Reread(head.value)]
  {
    var all := f.header + Lines(keys, m) + [""];
    SplitBody(f, keys, m);
    SplitFacts(Body(f, keys, m), '\n');
    JoinLast(f.header + Lines(keys, m));
    var i, r := SplitCut(all, '\n', at);
    j, head := ReadCut(f, keys, m, i, r);
  }

  // ---------------------------------------------------------------- runs of saves

  /** A save that wrote the file, or one that failed without touching it. */
  datatype Attempt = Attempt(updates: map<string, string>, landed: bool)

  ghost predicate IsAttempt(before: Option<string>, after: Option<string>, a: Attempt, f: Format) {
    if !a.landed then after == before
    else
      var read := Read(before, f);
      read.Some? && after.Some? && IsRendering(after.value, f, Overlay(read.value, a.updates, f.allowed))
  }

  /** The file before and after each of a run of saves. */
  ghost predicate SavedRun(bodies: seq<Option<string>>, attempts: seq<Attempt>, f: Format) {
    && |bodies| == |attempts| + 1
    && forall i | 0 <= i < |attempts| :: IsAttempt(bodies[i], bodies[i + 1], attempts[i], f)
  }

  function Accumulated(start: map<string, string>, attempts: seq<Attempt>, allowed: set<string>): map<string, string> {
    if attempts == [] then start
    else
      var before, a := Accumulated(start, attempts[..|attempts| - 1], allowed), attempts[|attempts| - 1];
      if a.landed then Overlay(before, a.updates, allowed) else before
  }

  /** After any run of saves, some of which may fail, from a file whose settings survive or from none: what is read is
      what was there with all updates of the saves that landed laid over it. */
  lemma {:induction false} SavesAccumulate(bodies: seq<Option<string>>, attempts: seq<Attempt>, f: Format,
                                           start: map<string, string>)
    requires WellFormed(f) && SavedRun(bodies, attempts, f)
    requires Read(bodies[0], f) == Some(start) && AllSurvive(f, start)
    requires forall i | 0 <= i < |attempts| && attempts[i].landed :: AllSurvive(f, attempts[i].updates)
    ensures Read(bodies[|attempts|], f) == Some(Accumulated(start, attempts, f.allowed))
    ensures AllSurvive(f, Accumulated(start, attempts, f.allowed))
    ensures Accumulated(start, attempts, f.allowed).Keys <= f.allowed
  {
    if attempts == [] {
      ReadFacts(bodies[0], f);
    } else {
      var n := |attempts| - 1;
      SavesAccumulate(bodies[..n + 1], attempts[..n], f, start);
      assert IsAttempt(bodies[n], bodies[n + 1], attempts[n], f);
      if attempts[n].landed {
        ReadBackIff(bodies[n + 1].value, f, Accumulated(start, attempts, f.allowed));
      }
    }
  }

  // ---------------------------------------------------------------- the actual format

  const ENDPOINT_KEYS := {"OPENLIT_OTLP_ENDPOINT", "OPENLIT_API_KEY", "OTEL_EXPORTER_OTLP_ENDPOINT"}
  const IDENTITY_KEYS := {"OPENLIT_ENVIRONMENT", "OPENLIT_APPLICATION_NAME", "OTEL_RESOURCE_ATTRIBUTES"}
  const OTHER_KEYS := {"OPENLIT_CODING_CONTENT_CAPTURE", "OPENLIT_CODING_REPO_ALLOWLIST", "OTEL_EXPORTER_OTLP_HEADERS"}
  const WRITTEN_BY := "# openlit CLI config " + "\U{2014} written by " + "`openlit configure`."
  const ALLOWED_ONLY := "# Allow-listed keys " + "only; anything else " + "is ignored at " + "read time."

  const CLI := Format(ENDPOINT_KEYS + IDENTITY_KEYS + OTHER_KEYS, [WRITTEN_BY, ALLOWED_ONLY, ""], s => |Encode(s)|)

  lemma EndpointKeys()
    ensures forall k | k in ENDPOINT_KEYS :: IsName(k)
  {
  }

  lemma IdentityKeys()
    ensures forall k | k in IDENTITY_KEYS :: IsName(k)
  {
  }

  lemma OtherKeys()
    ensures forall k | k in OTHER_KEYS :: IsName(k)
  {
  }

  lemma {:induction false} EncodedLength(s: string)
    ensures |Encode(s)| <= 4 * |s|
  {
    if s != "" {
      EncodedLength(s[1..]);
    }
  }

  lemma WrittenByIsComment()
    ensures IsComment(WRITTEN_BY) && !TooLong(CLI, WRITTEN_BY)
  {
    EncodedLength(WRITTEN_BY);
  }

  lemma AllowedOnlyIsComment()
    ensures IsComment(ALLOWED_ONLY) && !TooLong(CLI, ALLOWED_ONLY)
  {
    EncodedLength(ALLOWED_ONLY);
  }

  lemma CliIsWellFormed()
    ensures WellFormed(CLI)
  {
    EndpointKeys();
    IdentityKeys();
    OtherKeys();
    WrittenByIsComment();
    AllowedOnlyIsComment();
  }

  // ---------------------------------------------------------------- one save, setting by setting

  /** After a save the file holds, for each allowed key, the update if there is one and it is not empty, nothing if it is
      empty, and what was there before if there is none; keys that are not allowed are ignored. */
  lemma SavedSettings(before: Option<string>, after: string, f: Format, updates: map<string, string>)
    returns (m: map<string, string>)
    requires WellFormed(f) && Read(before, f).Some? && AllSurvive(f, Read(before, f).value) && AllSurvive(f, updates)
    requires IsRendering(after, f, Overlay(Read(before, f).value, updates, f.allowed))
    ensures Read(Some(after), f) == Some(m)
    ensures forall k | k in updates && k in f.allowed ::
              if updates[k] == "" then k !in m else k in m && m[k] == updates[k]
    ensures forall k | !(k in updates && k in f.allowed) ::
              (k in m <==> k in Read(before, f).value) && (k in m ==> m[k] == Read(before, f).value[k])
  {
    var saved := Read(before, f).value;
    m := Overlay(saved, updates, f.allowed);
    ReadFacts(before, f);
    ReadBackIff(after, f, m);
  }
}
