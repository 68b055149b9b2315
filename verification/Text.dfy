/** The functions of Go's strings package that the controller and the CLI use. */
module Text {

  /** unicode.IsSpace. */
  predicate IsSpace(c: char) {
    || '\U{9}' <= c <= '\U{D}' || c == ' ' || c == '\U{85}' || c == '\U{A0}' || c == '\U{1680}'
    || '\U{2000}' <= c <= '\U{200A}' || c == '\U{2028}' || c == '\U{2029}' || c == '\U{202F}'
    || c == '\U{205F}' || c == '\U{3000}'
  }

  function TrimLeft(s: string): string {
    if s != [] && IsSpace(s[0]) then TrimLeft(s[1..]) else s
  }

  function TrimRight(s: string): string {
    if s != [] && IsSpace(s[|s| - 1]) then TrimRight(s[..|s| - 1]) else s
  }

  /** TrimSpace. */
  function Trim(s: string): string {
    TrimRight(TrimLeft(s))
  }

  predicate Trimmed(s: string) {
    s == [] || (!IsSpace(s[0]) && !IsSpace(s[|s| - 1]))
  }

  lemma {:induction false} TrimLeftFacts(s: string)
    ensures var t := TrimLeft(s); (t == [] || !IsSpace(t[0])) && |t| <= |s| && t == s[|s| - |t|..]
    ensures s == [] || !IsSpace(s[0]) ==> TrimLeft(s) == s
  {
    if s != [] && IsSpace(s[0]) {
      TrimLeftFacts(s[1..]);
    }
  }

  lemma {:induction false} TrimRightFacts(s: string)
    ensures TrimRight(s) <= s
    ensures var t := TrimRight(s); t == [] || !IsSpace(t[|t| - 1])
    ensures s == [] || !IsSpace(s[|s| - 1]) ==> TrimRight(s) == s
    ensures s != [] && !IsSpace(s[0]) ==> TrimRight(s) != [] && TrimRight(s)[0] == s[0]
  {
    if s != [] && IsSpace(s[|s| - 1]) {
      TrimRightFacts(s[..|s| - 1]);
    }
  }

  /** Trimming gives a trimmed piece of the text and leaves a trimmed text alone. */
  lemma TrimFacts(s: string)
    ensures Trimmed(Trim(s))
    ensures Trimmed(s) ==> Trim(s) == s
    ensures forall c | c in Trim(s) :: c in s
  {
    TrimLeftFacts(s);
    TrimRightFacts(TrimLeft(s));
  }

  /** Text after a last letter that is no blank is trimmed on its own. */
  lemma {:induction false} TrimRightAfter(p: string, s: string)
    requires p != [] && !IsSpace(p[|p| - 1])
    ensures TrimRight(p + s) == p + TrimRight(s)
  {
    if s == [] {
      assert p + s == p;
    } else if IsSpace(s[|s| - 1]) {
      assert (p + s)[..|p + s| - 1] == p + s[..|s| - 1];
      TrimRightAfter(p, s[..|s| - 1]);
    }
  }

  /** Index of the first c, or |s|. */
  function IndexOf(s: string, c: char): (i: nat)
    ensures i <= |s| && c !in s[..i] && (i < |s| ==> s[i] == c)
    ensures i == |s| <==> c !in s
  {
    if s == [] || s[0] == c then 0
    else
      var i := IndexOf(s[1..], c) + 1;
      assert s[..i] == [s[0]] + s[1..][..i - 1];
      assert s == [s[0]] + s[1..];
      i
  }

  lemma {:induction false} IndexAfter(p: string, c: char, s: string)
    requires c !in p
    ensures IndexOf(p + [c] + s, c) == |p|
  {
    var t := p + [c] + s;
    if p != [] {
      assert t[1..] == p[1..] + [c] + s;
      IndexAfter(p[1..], c, s);
    }
  }

  /** strings.Split by one character: always at least one piece. */
  function Split(s: string, c: char): (pieces: seq<string>)
    ensures pieces != []
  {
    var i := IndexOf(s, c);
    if i == |s| then [s] else [s[..i]] + Split(s[i + 1..], c)
  }

  lemma {:induction false} SplitFacts(s: string, c: char)
    ensures forall p | p in Split(s, c) :: c !in p
  {
    var i := IndexOf(s, c);
    if i < |s| {
      SplitFacts(s[i + 1..], c);
    }
  }

  /** strings.Join with one character. */
  function Join(pieces: seq<string>, c: char): string {
    if pieces == [] then "" else if |pieces| == 1 then pieces[0] else pieces[0] + [c] + Join(pieces[1..], c)
  }

  lemma {:induction false} SplitJoin(pieces: seq<string>, c: char)
    requires pieces != [] && forall p | p in pieces :: c !in p
    ensures Split(Join(pieces, c), c) == pieces
  {
    var p := pieces[0];
    assert p in pieces;
    if |pieces| > 1 {
      var rest := Join(pieces[1..], c);
      var s := p + [c] + rest;
      SplitJoin(pieces[1..], c);
      IndexAfter(p, c, rest);
      assert s[..|p|] == p && s[|p| + 1..] == rest;
      assert Split(s, c) == [p] + Split(rest, c);
    }
  }

  lemma SplitFirst(p: string, b: string, c: char)
    requires c !in p
    ensures Split(p + [c] + b, c) == [p] + Split(b, c)
  {
    var s := p + [c] + b;
    IndexAfter(p, c, b);
    assert s[..|p|] == p && s[|p| + 1..] == b;
  }

  lemma JoinParts(p: string, rest: seq<string>, c: char)
    ensures Join([p] + rest, c) == if rest == [] then p else p + [c] + Join(rest, c)
  {
    assert ([p] + rest)[1..] == rest;
  }

  lemma {:induction false} JoinSplit(s: string, c: char)
    ensures Join(Split(s, c), c) == s
  {
    var i := IndexOf(s, c);
    if i < |s| {
      var first, rest := s[..i], s[i + 1..];
      assert s == first + [c] + rest;
      JoinSplit(rest, c);
      JoinParts(first, Split(rest, c), c);
    }
  }

  lemma AppendLater(p: string, c: char, x: string, y: string)
    ensures p + [c] + (x + y) == p + [c] + x + y
  {
  }

  lemma {:induction false} JoinConcat(ps: seq<string>, qs: seq<string>, c: char)
    requires ps != [] && qs != []
    ensures Join(ps + qs, c) == Join(ps, c) + ([c] + Join(qs, c))
  {
    var p, rest := ps[0], ps[1..];
    assert ps == [p] + rest;
    JoinParts(p, rest, c);
    JoinParts(p, rest + qs, c);
    if rest == [] {
      assert ps + qs == [p] + qs && rest + qs == qs;
    } else {
      JoinConcat(rest, qs, c);
      AppendLater(p, c, Join(rest, c), [c] + Join(qs, c));
      assert ps + qs == [p] + (rest + qs);
    }
  }

  lemma SplitConcat(a: string, b: string, c: char)
    ensures Split(a + [c] + b, c) == Split(a, c) + Split(b, c)
  {
    JoinSplit(a, c);
    JoinSplit(b, c);
    JoinConcat(Split(a, c), Split(b, c), c);
    assert a + [c] + b == a + ([c] + b);
    SplitFacts(a, c);
    SplitFacts(b, c);
    SplitJoin(Split(a, c) + Split(b, c), c);
  }

  /** Some whole pieces and the head of the next. */
  function CutAfter(pieces: seq<string>, j: nat, r: nat): seq<string>
    requires j < |pieces| && r <= |pieces[j]|
  {
    pieces[..j] + [pieces[j][..r]]
  }

  lemma CutConcat(p: string, c: char, tail: string, left: nat)
    requires left <= |tail|
    ensures (p + [c] + tail)[..|p| + 1 + left] == p + [c] + tail[..left]
  {
  }

  /** A joined text that is cut is a cut list that is joined. */
  lemma {:induction false} JoinCut(pieces: seq<string>, c: char, at: nat) returns (j: nat, r: nat)
    requires pieces != [] && at <= |Join(pieces, c)|
    ensures j < |pieces| && r <= |pieces[j]| && Join(pieces, c)[..at] == Join(CutAfter(pieces, j, r), c)
  {
    var p, rest := pieces[0], pieces[1..];
    assert pieces == [p] + rest;
    JoinParts(p, rest, c);
    if at <= |p| {
      j, r := 0, at;
      assert Join(pieces, c)[..at] == p[..at];
    } else {
      j, r := JoinCut(rest, c, at - |p| - 1);
      assert CutAfter(pieces, j + 1, r) == [p] + CutAfter(rest, j, r);
      JoinParts(p, CutAfter(rest, j, r), c);
      CutConcat(p, c, Join(rest, c), at - |p| - 1);
      j := j + 1;
    }
  }

  lemma SplitCut(pieces: seq<string>, c: char, at: nat) returns (j: nat, r: nat)
    requires pieces != [] && (forall p | p in pieces :: c !in p) && at <= |Join(pieces, c)|
    ensures j < |pieces| && r <= |pieces[j]| && Split(Join(pieces, c)[..at], c) == CutAfter(pieces, j, r)
  {
    j, r := JoinCut(pieces, c, at);
    forall p | p in CutAfter(pieces, j, r) ensures c !in p {
      assert pieces[j] in pieces && (p in pieces || p == pieces[j][..r]);
    }
    SplitJoin(CutAfter(pieces, j, r), c);
  }

  predicate HasSuffix(s: string, suffix: string) {
    |suffix| <= |s| && s[|s| - |suffix|..] == suffix
  }

  predicate Contains(s: string, sub: string) {
    sub <= s || (s != [] && Contains(s[1..], sub))
  }

  function TrimPrefix(s: string, prefix: string): string {
    if prefix <= s then s[|prefix|..] else s
  }

  function LowerChar(c: char): char {
    if 'A' <= c <= 'Z' then (c as int + 32) as char else c
  }

  /** ToLower, on ASCII letters. */
  function Lower(s: string): (t: string)
    ensures |t| == |s| && forall i | 0 <= i < |s| :: t[i] == LowerChar(s[i])
  {
    seq(|s|, i requires 0 <= i < |s| => LowerChar(s[i]))
  }

  lemma {:induction false} ContainsLower(s: string, sub: string)
    requires Contains(s, sub)
    ensures Contains(Lower(s), Lower(sub))
  {
    if sub <= s {
      assert forall i | 0 <= i < |sub| :: Lower(s)[i] == Lower(sub)[i];
    } else {
      ContainsLower(s[1..], sub);
      assert Lower(s)[1..] == Lower(s[1..]);
    }
  }

  lemma {:induction false} ContainsPrefix(s: string, sub: string, prefix: string)
    requires Contains(s, sub) && prefix <= sub
    ensures Contains(s, prefix)
  {
    if !(sub <= s) {
      ContainsPrefix(s[1..], sub, prefix);
    }
  }
}
