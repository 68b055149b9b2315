/** JavaScript's orders of strings: by UTF-16 code units, and the order in which an object lists its keys. */
module JsOrder {
  import opened Orders

  /** Orders characters as their UTF-16 encodings: those outside the basic plane come before U+E000 to U+FFFF. */
  function Rank(c: char): int {
    if 0xE000 <= c as int <= 0xFFFF then c as int + 0x11_0000 else c as int
  }

  /** a < b. */
  predicate Less(a: string, b: string) {
    Lex(a, b, Rank)
  }

  // ---------------------------------------------------------------- keys of objects

  /** An array index: a decimal numeral below 2^32 - 1. */
  predicate IsIndex(k: string) {
    && k != "" && (forall i | 0 <= i < |k| :: '0' <= k[i] <= '9')
    && (k[0] == '0' ==> |k| == 1)
    && (|k| < 10 || (|k| == 10 && Less(k, "4294967295")))
  }

  /** Objects list index keys first, by value, and then the others in the order of creation; this is the order of an
      object filled in the sorted order of its keys. */
  predicate KeyLess(a: string, b: string) {
    if IsIndex(a) != IsIndex(b) then IsIndex(a)
    else if IsIndex(a) && |a| != |b| then |a| < |b|
    else Less(a, b)
  }

  lemma KeyLessTotal(a: string, b: string)
    ensures a == b || KeyLess(a, b) || KeyLess(b, a)
    ensures !(KeyLess(a, b) && KeyLess(b, a)) && !KeyLess(a, a)
  {
    LexTotal(a, b, Rank);
    LexTotal(a, a, Rank);
  }

  lemma KeyLessTransitive(a: string, b: string, c: string)
    requires KeyLess(a, b) && KeyLess(b, c)
    ensures KeyLess(a, c)
  {
    if Less(a, b) && Less(b, c) {
      LexTransitive(a, b, c, Rank);
    }
  }

  lemma LessIsStrict()
    ensures Strict(Less)
  {
    forall a, b ensures (a == b || Less(a, b) || Less(b, a)) && !(Less(a, b) && Less(b, a)) {
      LexTotal(a, b, Rank);
    }
    forall a, b, c | Less(a, b) && Less(b, c) ensures Less(a, c) {
      LexTransitive(a, b, c, Rank);
    }
  }

  lemma KeyLessIsStrict()
    ensures Strict(KeyLess)
  {
    forall a, b ensures (a == b || KeyLess(a, b) || KeyLess(b, a)) && !(KeyLess(a, b) && KeyLess(b, a)) {
      KeyLessTotal(a, b);
    }
    forall a, b, c | KeyLess(a, b) && KeyLess(b, c) ensures KeyLess(a, c) {
      KeyLessTransitive(a, b, c);
    }
  }
}
