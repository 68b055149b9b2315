/** Strict total orders of strings. */
module Orders {
  import opened Base

  type Order = (string, string) -> bool

  ghost predicate Strict(less: Order) {
    && (forall a, b :: a == b || less(a, b) || less(b, a))
    && (forall a, b :: !(less(a, b) && less(b, a)))
    && (forall a, b, c :: less(a, b) && less(b, c) ==> less(a, c))
  }

  /** Lexicographic order, by a rank of characters. */
  predicate Lex(a: string, b: string, rank: char -> int) {
    b != "" && (a == "" || rank(a[0]) < rank(b[0]) || (a[0] == b[0] && Lex(a[1..], b[1..], rank)))
  }

  ghost predicate Injective(rank: char -> int) {
    forall c, d :: rank(c) == rank(d) ==> c == d
  }

  lemma {:induction false} LexTotal(a: string, b: string, rank: char -> int)
    requires Injective(rank)
    ensures a == b || Lex(a, b, rank) || Lex(b, a, rank)
    ensures !(Lex(a, b, rank) && Lex(b, a, rank)) && !Lex(a, a, rank)
  {
    if a != "" && b != "" && a[0] == b[0] {
      LexTotal(a[1..], b[1..], rank);
    }
    if a != "" {
      LexTotal(a[1..], a[1..], rank);
    }
  }

  lemma {:induction false} LexTransitive(a: string, b: string, c: string, rank: char -> int)
    requires Injective(rank) && Lex(a, b, rank) && Lex(b, c, rank)
    ensures Lex(a, c, rank)
  {
    if a != "" && a[0] == b[0] == c[0] {
      LexTransitive(a[1..], b[1..], c[1..], rank);
    }
  }

  // ---------------------------------------------------------------- Go's order

  function Code(c: char): int {
    c as int
  }

  /** Go compares bytes; on UTF-8 this is the order of the characters' codes. */
  predicate GoLess(a: string, b: string) {
    Lex(a, b, Code)
  }

  lemma GoLessIsStrict()
    ensures Strict(GoLess)
  {
    forall a, b ensures (a == b || GoLess(a, b) || GoLess(b, a)) && !(GoLess(a, b) && GoLess(b, a)) {
      LexTotal(a, b, Code);
    }
    forall a, b, c | GoLess(a, b) && GoLess(b, c) ensures GoLess(a, c) {
      LexTransitive(a, b, c, Code);
    }
  }

  // ---------------------------------------------------------------- sorting in place

  ghost predicate InOrder(s: seq<string>, less: Order) {
    forall p, q | 0 <= p < q < |s| :: !less(s[q], s[p])
  }

  /** In order, except that the element at j may come too late. */
  ghost predicate InOrderBut(s: seq<string>, j: int, less: Order) {
    forall p, q | 0 <= p < q < |s| && q != j :: !less(s[q], s[p])
  }

  lemma SwapKeepsOrder(s: seq<string>, j: int, less: Order)
    requires Strict(less) && 0 < j < |s| && InOrderBut(s, j, less) && less(s[j], s[j - 1])
    ensures InOrderBut(s[j := s[j - 1]][j - 1 := s[j]], j - 1, less)
  {
  }

  lemma InPlace(s: seq<string>, j: int, less: Order)
    requires Strict(less) && 0 <= j < |s| && InOrderBut(s, j, less) && (j == 0 || !less(s[j], s[j - 1]))
    ensures InOrder(s, less)
  {
    forall p | 0 <= p < j ensures !less(s[j], s[p]) {
      if p < j - 1 {
        assert !less(s[j - 1], s[p]);
      }
    }
  }

  /** sortStrings: an insertion sort, giving an ordered permutation. */
  method SortStrings(s: array<string>, less: Order)
    requires Strict(less)
    modifies s
    ensures InOrder(s[..], less) && multiset(s[..]) == multiset(old(s[..]))
  {
    if s.Length == 0 {
      return;
    }
    for i := 1 to s.Length
      invariant InOrder(s[..i], less) && multiset(s[..]) == multiset(old(s[..]))
    {
      var j := i;
      while j > 0 && less(s[j], s[j - 1])
        invariant 0 <= j <= i && InOrderBut(s[..i + 1], j, less) && multiset(s[..]) == multiset(old(s[..]))
      {
        SwapKeepsOrder(s[..i + 1], j, less);
        ghost var before := s[..i + 1];
        s[j - 1], s[j] := s[j], s[j - 1];
        assert s[..i + 1] == before[j := before[j - 1]][j - 1 := before[j]];
        j := j - 1;
      }
      InPlace(s[..i + 1], j, less);
    }
    assert s[..s.Length] == s[..];
  }

  // ---------------------------------------------------------------- uniqueness

  /** An ordered list of distinct names is determined by the set of its names. */
  lemma {:induction false} OrderedUnique(a: seq<string>, b: seq<string>, less: Order)
    requires Strict(less) && InOrder(a, less) && InOrder(b, less) && Distinct(a) && Distinct(b)
    requires forall k :: k in a <==> k in b
    ensures a == b
  {
    assert a != [] ==> a[0] in b;
    assert b != [] ==> b[0] in a;
    if a != [] && b != [] {
      FirstOfBoth(a, b, less);
      var x, y := a[1..], b[1..];
      assert a == [a[0]] + x && b == [b[0]] + y;
      forall k ensures k in x <==> k in y {
        InTail(a, k);
        InTail(b, k);
      }
      OrderedUnique(x, y, less);
    }
  }

  lemma InTail(a: seq<string>, k: string)
    requires a != [] && Distinct(a)
    ensures k in a[1..] <==> k in a && k != a[0]
  {
    assert a == [a[0]] + a[1..];
    assert forall i | 0 <= i < |a[1..]| :: a[1..][i] == a[i + 1];
  }

  lemma FirstOfBoth(a: seq<string>, b: seq<string>, less: Order)
    requires Strict(less) && InOrder(a, less) && InOrder(b, less) && a != [] && b != [] && a[0] in b && b[0] in a
    ensures a[0] == b[0]
  {
    var i :| 0 <= i < |b| && b[i] == a[0];
    var j :| 0 <= j < |a| && a[j] == b[0];
    assert i == 0 || !less(b[i], b[0]);
    assert j == 0 || !less(a[j], a[0]);
  }
}
