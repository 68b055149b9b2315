/** Text as words between runs of blanks. */
module Words {
  type Blank = char -> bool

  function SkipBlanks(s: string, blank: Blank): (t: string)
    ensures |t| <= |s| && (t != "" ==> !blank(t[0]))
  {
    if s != "" && blank(s[0]) then SkipBlanks(s[1..], blank) else s
  }

  function Word(s: string, blank: Blank): (w: string)
    ensures w <= s && (s != "" && !blank(s[0]) ==> w != "")
  {
    if s == "" || blank(s[0]) then "" else [s[0]] + Word(s[1..], blank)
  }

  /** The words of a text, without the blanks around them. */
  function WordsOf(s: string, blank: Blank): seq<string>
    decreases |s|
  {
    var t := SkipBlanks(s, blank);
    if t == "" then [] else [Word(t, blank)] + WordsOf(t[|Word(t, blank)|..], blank)
  }

  predicate IsWord(w: string, blank: Blank) {
    w != "" && forall i | 0 <= i < |w| :: !blank(w[i])
  }

  lemma {:induction false} WordFacts(s: string, blank: Blank)
    requires s != "" && !blank(s[0])
    ensures var w := Word(s, blank);
            IsWord(w, blank) && (|w| == |s| || blank(s[|w|]))
  {
    if |s| > 1 && !blank(s[1]) {
      WordFacts(s[1..], blank);
    }
  }

  lemma {:induction false} WordsAreWords(s: string, blank: Blank)
    ensures forall w | w in WordsOf(s, blank) :: IsWord(w, blank)
    decreases |s|
  {
    var t := SkipBlanks(s, blank);
    if t != "" {
      WordFacts(t, blank);
      WordsAreWords(t[|Word(t, blank)|..], blank);
    }
  }

  /** Words joined by single spaces. */
  function Joined(ws: seq<string>): string {
    if ws == [] then "" else if |ws| == 1 then ws[0] else ws[0] + (" " + Joined(ws[1..]))
  }

  lemma {:induction false} WordThen(w: string, rest: string, blank: Blank)
    requires forall i | 0 <= i < |w| :: !blank(w[i])
    requires rest == "" || blank(rest[0])
    ensures Word(w + rest, blank) == w
  {
    if w == "" {
      assert w + rest == rest;
    } else {
      assert (w + rest)[1..] == w[1..] + rest;
      WordThen(w[1..], rest, blank);
    }
  }

  lemma WordsOfWord(w: string, rest: string, blank: Blank)
    requires IsWord(w, blank) && (rest == "" || blank(rest[0]))
    ensures WordsOf(w + rest, blank) == [w] + WordsOf(rest, blank)
  {
    assert !blank((w + rest)[0]);
    WordThen(w, rest, blank);
    assert (w + rest)[|w|..] == rest;
  }

  /** Joining loses nothing. */
  lemma {:induction false} WordsOfJoined(ws: seq<string>, blank: Blank)
    requires blank(' ') && forall w | w in ws :: IsWord(w, blank)
    ensures WordsOf(Joined(ws), blank) == ws
  {
    if ws != [] {
      var w := ws[0];
      assert w in ws;
      if |ws| == 1 {
        WordsOfWord(w, "", blank);
        assert w + "" == w;
      } else {
        var rest := " " + Joined(ws[1..]);
        assert Joined(ws) == w + rest && rest[1..] == Joined(ws[1..]);
        WordsOfWord(w, rest, blank);
        WordsOfJoined(ws[1..], blank);
      }
    }
  }

  // ---------------------------------------------------------------- collapsing blanks

  /** s.replace(/\s+/g, " "). */
  function Collapse(s: string, blank: Blank): string
    decreases |s|
  {
    if s == "" then ""
    else if blank(s[0]) then " " + Collapse(SkipBlanks(s[1..], blank), blank)
    else [s[0]] + Collapse(s[1..], blank)
  }

  function DropTrailing(s: string, blank: Blank): string {
    if s != "" && blank(s[|s| - 1]) then DropTrailing(s[..|s| - 1], blank) else s
  }

  /** s.trim(). */
  function TrimBlanks(s: string, blank: Blank): string {
    DropTrailing(SkipBlanks(s, blank), blank)
  }

  function Normalize(s: string, blank: Blank): string {
    TrimBlanks(Collapse(s, blank), blank)
  }

  lemma {:induction false} CollapseWord(w: string, rest: string, blank: Blank)
    requires forall i | 0 <= i < |w| :: !blank(w[i])
    ensures Collapse(w + rest, blank) == w + Collapse(rest, blank)
  {
    if w == "" {
      assert w + rest == rest;
    } else {
      assert (w + rest)[1..] == w[1..] + rest;
      CollapseWord(w[1..], rest, blank);
    }
  }

  lemma {:induction false} DropTrailingAfter(w: string, s: string, blank: Blank)
    requires IsWord(w, blank)
    ensures DropTrailing(w + s, blank) == w + DropTrailing(s, blank)
  {
    if s == "" {
      assert w + s == w;
    } else if blank(s[|s| - 1]) {
      assert (w + s)[..|w + s| - 1] == w + s[..|s| - 1];
      DropTrailingAfter(w, s[..|s| - 1], blank);
    }
  }

  lemma {:induction false} DropTrailingKeeps(a: string, s: string, blank: Blank)
    requires DropTrailing(s, blank) != ""
    ensures DropTrailing(a + s, blank) == a + DropTrailing(s, blank)
  {
    if s != "" && blank(s[|s| - 1]) {
      assert (a + s)[..|a + s| - 1] == a + s[..|s| - 1];
      DropTrailingKeeps(a, s[..|s| - 1], blank);
    }
  }

  /** From the first word on, normalizing joins the words by single spaces. */
  lemma {:induction false} NormalizedFromWord(t: string, blank: Blank)
    requires blank(' ') && t != "" && !blank(t[0])
    ensures DropTrailing(Collapse(t, blank), blank) == Joined(WordsOf(t, blank)) != ""
    decreases |t|
  {
    var w := Word(t, blank);
    var rest := t[|w|..];
    WordFacts(t, blank);
    assert t == w + rest;
    CollapseWord(w, rest, blank);
    DropTrailingAfter(w, Collapse(rest, blank), blank);
    assert WordsOf(t, blank) == [w] + WordsOf(rest, blank);
    if rest == "" {
      assert Collapse(rest, blank) == "";
    } else {
      var next := SkipBlanks(rest[1..], blank);
      assert Collapse(rest, blank) == " " + Collapse(next, blank);
      if next == "" {
        assert DropTrailing(" ", blank) == DropTrailing("", blank) == "";
      } else {
        NormalizedFromWord(next, blank);
        DropTrailingKeeps(" ", Collapse(next, blank), blank);
        assert ([w] + WordsOf(rest, blank))[1..] == WordsOf(next, blank);
      }
    }
  }

  lemma NormalizeJoinsWords(s: string, blank: Blank)
    requires blank(' ')
    ensures Normalize(s, blank) == Joined(WordsOf(s, blank))
  {
    var t := SkipBlanks(s, blank);
    if s != "" && blank(s[0]) {
      assert SkipBlanks(s[1..], blank) == t;
      assert Collapse(s, blank) == " " + Collapse(t, blank);
      assert (" " + Collapse(t, blank))[1..] == Collapse(t, blank);
      assert SkipBlanks(Collapse(s, blank), blank) == SkipBlanks(Collapse(t, blank), blank);
    }
    if t != "" {
      assert Collapse(t, blank)[0] == t[0];
      NormalizedFromWord(t, blank);
    }
  }

  /** Two texts normalize alike exactly when they have the same words: only runs of blanks may differ. */
  lemma NormalizeIff(s: string, t: string, blank: Blank)
    requires blank(' ')
    ensures Normalize(s, blank) == Normalize(t, blank) <==> WordsOf(s, blank) == WordsOf(t, blank)
  {
    NormalizeJoinsWords(s, blank);
    NormalizeJoinsWords(t, blank);
    WordsAreWords(s, blank);
    WordsAreWords(t, blank);
    WordsOfJoined(WordsOf(s, blank), blank);
    WordsOfJoined(WordsOf(t, blank), blank);
  }

  lemma {:induction false} SkipKeeps(s: string, c: char, blank: Blank)
    requires !blank(c)
    ensures c in SkipBlanks(s, blank) <==> c in s
  {
    if s != "" && blank(s[0]) {
      SkipKeeps(s[1..], c, blank);
      assert s == [s[0]] + s[1..];
    }
  }

  lemma {:induction false} CollapseKeeps(s: string, c: char, blank: Blank)
    requires !blank(c) && blank(' ')
    ensures c in Collapse(s, blank) <==> c in s
    decreases |s|
  {
    if s != "" {
      assert s == [s[0]] + s[1..];
      if blank(s[0]) {
        CollapseKeeps(SkipBlanks(s[1..], blank), c, blank);
        SkipKeeps(s[1..], c, blank);
      } else {
        CollapseKeeps(s[1..], c, blank);
      }
    }
  }

  lemma {:induction false} DropKeeps(s: string, c: char, blank: Blank)
    requires !blank(c)
    ensures c in DropTrailing(s, blank) <==> c in s
  {
    if s != "" && blank(s[|s| - 1]) {
      DropKeeps(s[..|s| - 1], c, blank);
      assert s == s[..|s| - 1] + [s[|s| - 1]];
    }
  }

  /** Normalizing keeps every letter that is no blank. */
  lemma NormalizeKeeps(s: string, c: char, blank: Blank)
    requires !blank(c) && blank(' ')
    ensures c in Normalize(s, blank) <==> c in s
  {
    var t := Collapse(s, blank);
    CollapseKeeps(s, c, blank);
    SkipKeeps(t, c, blank);
    DropKeeps(SkipBlanks(t, blank), c, blank);
  }
}
