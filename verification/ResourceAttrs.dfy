/** OTEL_RESOURCE_ATTRIBUTES: comma-separated key=value pairs; the controller adds one and takes it out again. */
module ResourceAttrs {
  import opened Base
  import opened Text
  import opened EnvEdits

  /** The pieces trimmed, without the blank ones. */
  function Clean(pieces: seq<string>): seq<string> {
    if pieces == [] then []
    else (if Trim(pieces[0]) == "" then [] else [Trim(pieces[0])]) + Clean(pieces[1..])
  }

  function Pieces(value: string): seq<string> {
    Clean(Split(value, ','))
  }

  predicate IsPiece(p: string) {
    ',' !in p && p != "" && Trimmed(p)
  }

  lemma {:induction false} CleanFacts(pieces: seq<string>)
    requires forall p | p in pieces :: ',' !in p
    ensures forall p | p in Clean(pieces) :: IsPiece(p)
  {
    if pieces != [] {
      assert pieces[0] in pieces;
      TrimFacts(pieces[0]);
      CleanFacts(pieces[1..]);
    }
  }

  lemma PiecesFacts(value: string)
    ensures forall p | p in Pieces(value) :: IsPiece(p)
  {
    SplitFacts(value, ',');
    CleanFacts(Split(value, ','));
  }

  function Replaced(ps: seq<string>, key: Key, pair: string): (rs: seq<string>)
    ensures |rs| == |ps| && forall i | 0 <= i < |ps| :: rs[i] == if KeyOf(ps[i]) == Some(key) then pair else ps[i]
  {
    seq(|ps|, i requires 0 <= i < |ps| => if KeyOf(ps[i]) == Some(key) then pair else ps[i])
  }

  predicate Present(ps: seq<string>, key: Key) {
    exists i | 0 <= i < |ps| :: KeyOf(ps[i]) == Some(key)
  }

  function MergedPieces(ps: seq<string>, key: Key, pair: string): seq<string> {
    Replaced(ps, key, pair) + if Present(ps, key) then [] else [pair]
  }

  /** mergeResourceAttrValue. */
  function Merge(existing: string, key: Key, value: string): string {
    Join(MergedPieces(Pieces(existing), key, Entry(key, value)), ',')
  }

  function Without(ps: seq<string>, key: Key): (rs: seq<string>)
    ensures forall p | p in rs :: p in ps && KeyOf(p) != Some(key)
  {
    if ps == [] then [] else (if KeyOf(ps[0]) == Some(key) then [] else [ps[0]]) + Without(ps[1..], key)
  }

  /** removeResourceAttrKey. */
  function Remove(existing: string, key: Key): string {
    Join(Without(Pieces(existing), key), ',')
  }

  // ---------------------------------------------------------------- what a merged pair is read back as

  /** The pieces that a pair is cut into: the pair up to the first comma of the value, and the rest of the value. */
  function PairPieces(key: Key, value: string): seq<string> {
    Pieces(Entry(key, value))
  }

  /** The pieces of a value after its first comma. */
  function Extras(value: string): seq<string> {
    Clean(Split(value, ',')[1..])
  }

  /** A key of resource attributes: not empty, and free of blanks, commas and equals signs. */
  predicate PlainKey(key: Key) {
    key != "" && Trimmed(key) && ',' !in key
  }

  lemma TrimPair(key: Key, value: string)
    requires PlainKey(key)
    ensures Trim(Entry(key, value)) == Entry(key, TrimRight(value))
  {
    TrimLeftFacts(Entry(key, value));
    TrimRightAfter(key + "=", value);
  }

  lemma CleanPair(key: Key, value: string, rest: seq<string>)
    requires PlainKey(key)
    ensures Clean([Entry(key, value)] + rest) == [Entry(key, TrimRight(value))] + Clean(rest)
  {
    TrimPair(key, value);
    assert ([Entry(key, value)] + rest)[1..] == rest;
  }

  lemma SplitPair(key: Key, value: string)
    requires PlainKey(key)
    ensures Split(Entry(key, value), ',') == [Entry(key, Split(value, ',')[0])] + Split(value, ',')[1..]
  {
    var i := IndexOf(value, ',');
    if i == |value| {
      assert ',' !in Entry(key, value);
      assert Split(value, ',') == [value] && Split(Entry(key, value), ',') == [Entry(key, value)];
    } else {
      var first, rest := value[..i], value[i + 1..];
      assert value == first + [','] + rest;
      assert Entry(key, value) == Entry(key, first) + [','] + rest;
      SplitFirst(Entry(key, first), rest, ',');
      assert Split(value, ',') == [first] + Split(rest, ',');
    }
  }

  lemma PairPiecesFacts(key: Key, value: string)
    requires PlainKey(key)
    ensures PairPieces(key, value) == [Entry(key, TrimRight(Split(value, ',')[0]))] + Extras(value)
  {
    SplitPair(key, value);
    CleanPair(key, Split(value, ',')[0], Split(value, ',')[1..]);
  }

  lemma {:induction false} CleanConcat(a: seq<string>, b: seq<string>)
    ensures Clean(a + b) == Clean(a) + Clean(b)
  {
    if a == [] {
      assert a + b == b;
    } else {
      assert (a + b)[1..] == a[1..] + b;
      CleanConcat(a[1..], b);
    }
  }

  function PiecesOfAll(ps: seq<string>): seq<string> {
    if ps == [] then [] else Pieces(ps[0]) + PiecesOfAll(ps[1..])
  }

  /** Reading back what was joined, piece by piece. */
  lemma {:induction false} PiecesOfJoined(ps: seq<string>)
    ensures Pieces(Join(ps, ',')) == PiecesOfAll(ps)
  {
    if ps == [] {
      assert Split("", ',') == [""] && Trim("") == "" && Clean([""]) == [];
    } else if |ps| == 1 {
      assert PiecesOfAll(ps) == Pieces(ps[0]) + [] == Pieces(ps[0]);
    } else {
      var rest := Join(ps[1..], ',');
      SplitConcat(ps[0], rest, ',');
      CleanConcat(Split(ps[0], ','), Split(rest, ','));
      PiecesOfJoined(ps[1..]);
    }
  }

  lemma PieceAlone(p: string)
    requires IsPiece(p)
    ensures Pieces(p) == [p]
  {
    TrimFacts(p);
    assert Split(p, ',') == [p] && Clean([p]) == [p] + Clean([p][1..]);
  }

  /** Joining pieces loses nothing. */
  lemma {:induction false} PiecesAlone(ps: seq<string>)
    requires forall p | p in ps :: IsPiece(p)
    ensures PiecesOfAll(ps) == ps && Pieces(Join(ps, ',')) == ps
  {
    PiecesOfJoined(ps);
    if ps != [] {
      assert ps[0] in ps;
      PieceAlone(ps[0]);
      PiecesAlone(ps[1..]);
    }
  }

  /** Every piece of the key replaced by these. */
  function Expanded(ps: seq<string>, key: Key, xs: seq<string>): seq<string> {
    if ps == [] then [] else (if KeyOf(ps[0]) == Some(key) then xs else [ps[0]]) + Expanded(ps[1..], key, xs)
  }

  lemma {:induction false} PiecesOfReplaced(ps: seq<string>, key: Key, pair: string)
    requires forall p | p in ps :: IsPiece(p)
    ensures PiecesOfAll(Replaced(ps, key, pair)) == Expanded(ps, key, Pieces(pair))
  {
    if ps != [] {
      assert ps[0] in ps && Replaced(ps, key, pair)[1..] == Replaced(ps[1..], key, pair);
      PieceAlone(ps[0]);
      PiecesOfReplaced(ps[1..], key, pair);
    }
  }

  lemma {:induction false} PiecesOfAllSnoc(ps: seq<string>, p: string)
    ensures PiecesOfAll(ps + [p]) == PiecesOfAll(ps) + Pieces(p)
  {
    if ps == [] {
      assert ps + [p] == [p] && [p][1..] == [];
    } else {
      assert (ps + [p])[1..] == ps[1..] + [p];
      PiecesOfAllSnoc(ps[1..], p);
    }
  }

  /** The pieces after a merge, for every value: those of the pair in the place of each old pair of the key, or at the
      end, and all others as they were. */
  lemma PiecesOfMerge(existing: string, key: Key, value: string)
    ensures var ps, xs := Pieces(existing), PairPieces(key, value);
            Pieces(Merge(existing, key, value)) == Expanded(ps, key, xs) + if Present(ps, key) then [] else xs
  {
    var ps, pair := Pieces(existing), Entry(key, value);
    var replaced := Replaced(ps, key, pair);
    PiecesFacts(existing);
    PiecesOfReplaced(ps, key, pair);
    PiecesOfJoined(MergedPieces(ps, key, pair));
    if Present(ps, key) {
      assert replaced + [] == replaced;
    } else {
      PiecesOfAllSnoc(replaced, pair);
    }
  }

  lemma {:induction false} WithoutConcat(a: seq<string>, b: seq<string>, key: Key)
    ensures Without(a + b, key) == Without(a, key) + Without(b, key)
  {
    if a == [] {
      assert a + b == b;
    } else {
      assert (a + b)[1..] == a[1..] + b;
      WithoutConcat(a[1..], b, key);
    }
  }

  lemma {:induction false} WithoutExpanded(ps: seq<string>, key: Key, xs: seq<string>)
    ensures |Without(Expanded(ps, key, xs), key)| >= |Without(ps, key)|
    ensures Without(xs, key) == [] ==> Without(Expanded(ps, key, xs), key) == Without(ps, key)
    ensures Without(xs, key) != [] && Present(ps, key) ==> |Without(Expanded(ps, key, xs), key)| > |Without(ps, key)|
  {
    if ps != [] {
      var first, rest := if KeyOf(ps[0]) == Some(key) then xs else [ps[0]], ps[1..];
      WithoutConcat(first, Expanded(rest, key, xs), key);
      WithoutExpanded(rest, key, xs);
      assert Without([ps[0]], key) == Without([ps[0]] + [], key);
      if Present(ps, key) && KeyOf(ps[0]) != Some(key) {
        var i :| 0 <= i < |ps| && KeyOf(ps[i]) == Some(key);
        assert KeyOf(rest[i - 1]) == Some(key);
      }
    }
  }

  lemma {:induction false} WithoutNone(ps: seq<string>, key: Key)
    requires !Present(ps, key)
    ensures Without(ps, key) == ps
  {
    if ps != [] {
      assert KeyOf(ps[0]) != Some(key);
      assert forall i | 0 <= i < |ps[1..]| :: ps[1..][i] == ps[i + 1];
      WithoutNone(ps[1..], key);
    }
  }

  /** After its first comma the value holds only blanks and pieces of the key itself. */
  predicate Removable(value: string, key: Key) {
    forall i | 1 <= i < |Split(value, ',')| ::
      Trim(Split(value, ',')[i]) == "" || KeyOf(Trim(Split(value, ',')[i])) == Some(key)
  }

  lemma {:induction false} NothingLeftIff(pieces: seq<string>, key: Key)
    ensures Without(Clean(pieces), key) == [] <==>
            forall i | 0 <= i < |pieces| :: Trim(pieces[i]) == "" || KeyOf(Trim(pieces[i])) == Some(key)
  {
    if pieces != [] {
      NothingLeftIff(pieces[1..], key);
      var first := if Trim(pieces[0]) == "" then [] else [Trim(pieces[0])];
      WithoutConcat(first, Clean(pieces[1..]), key);
      assert forall i | 0 <= i < |pieces[1..]| :: pieces[1..][i] == pieces[i + 1];
      assert forall i | 1 <= i < |pieces| :: pieces[i] == pieces[1..][i - 1];
    }
  }

  lemma RemovableTail(parts: seq<string>, key: Key)
    requires parts != []
    ensures Without(Clean(parts[1..]), key) == [] <==>
            forall i | 1 <= i < |parts| :: Trim(parts[i]) == "" || KeyOf(Trim(parts[i])) == Some(key)
  {
    var rest := parts[1..];
    NothingLeftIff(rest, key);
    assert forall i | 1 <= i < |parts| :: parts[i] == rest[i - 1];
    assert forall i | 0 <= i < |rest| :: rest[i] == parts[i + 1];
  }

  lemma RemovableIff(value: string, key: Key)
    requires PlainKey(key)
    ensures Removable(value, key) <==> Without(PairPieces(key, value), key) == []
  {
    var parts := Split(value, ',');
    var pair := Entry(key, TrimRight(parts[0]));
    RemovableTail(parts, key);
    PairPiecesFacts(key, value);
    EntryParts(key, TrimRight(parts[0]));
    WithoutConcat([pair], Extras(value), key);
    assert Without([pair], key) == [];
  }

  /** Taking a merged pair out gives what taking it out of the old value would exactly when nothing but blanks and
      pieces of the key come after the first comma of its value. */
  lemma RemoveAfterMergeIff(existing: string, key: Key, value: string)
    requires PlainKey(key)
    ensures Remove(Merge(existing, key, value), key) == Remove(existing, key) <==> Removable(value, key)
  {
    var ps, xs := Pieces(existing), PairPieces(key, value);
    var left, kept := Without(Pieces(Merge(existing, key, value)), key), Without(ps, key);
    PiecesOfMerge(existing, key, value);
    WithoutExpanded(ps, key, xs);
    WithoutConcat(Expanded(ps, key, xs), if Present(ps, key) then [] else xs, key);
    assert kept + [] == kept;
    RemovableIff(value, key);
    assert left == kept <==> Removable(value, key);
    PiecesFacts(existing);
    PiecesFacts(Merge(existing, key, value));
    PiecesAlone(left);
    PiecesAlone(kept);
  }

  // ---------------------------------------------------------------- merging twice

  lemma ReplacedTwice(ps: seq<string>, key: Key, pair: string, pair': string)
    requires KeyOf(pair) == Some(key)
    ensures Replaced(Replaced(ps, key, pair), key, pair') == Replaced(ps, key, pair')
    ensures Present(Replaced(ps, key, pair), key) <==> Present(ps, key)
  {
    var once := Replaced(ps, key, pair);
    assert forall i | 0 <= i < |ps| :: KeyOf(once[i]) == Some(key) <==> KeyOf(ps[i]) == Some(key);
  }

  lemma MergedPiecesTwice(ps: seq<string>, key: Key, pair: string, pair': string)
    requires KeyOf(pair) == Some(key)
    ensures MergedPieces(MergedPieces(ps, key, pair), key, pair') == MergedPieces(ps, key, pair')
  {
    var once := Replaced(ps, key, pair);
    ReplacedTwice(ps, key, pair, pair');
    if Present(ps, key) {
      assert once + [] == once;
    } else {
      ReplacedSnoc(once, pair, key, pair');
    }
  }

  lemma {:induction false} ExpandedByOne(ps: seq<string>, key: Key, p: string)
    ensures Expanded(ps, key, [p]) == Replaced(ps, key, p)
  {
    if ps != [] {
      ExpandedByOne(ps[1..], key, p);
    }
  }

  lemma {:induction false} ExpandedGrows(ps: seq<string>, key: Key, xs: seq<string>)
    requires xs != []
    ensures |Expanded(ps, key, xs)| >= |ps|
    ensures |xs| > 1 && Present(ps, key) ==> |Expanded(ps, key, xs)| > |ps|
  {
    if ps != [] {
      ExpandedGrows(ps[1..], key, xs);
      if Present(ps, key) && KeyOf(ps[0]) != Some(key) {
        var i :| 0 <= i < |ps| && KeyOf(ps[i]) == Some(key);
        assert KeyOf(ps[1..][i - 1]) == Some(key);
      }
    }
  }

  lemma {:induction false} ExpandedPresent(ps: seq<string>, key: Key, xs: seq<string>)
    requires xs != [] && KeyOf(xs[0]) == Some(key) && Present(ps, key)
    ensures Present(Expanded(ps, key, xs), key)
  {
    ExpandedHolds(ps, key, xs, xs[0]);
    var e := Expanded(ps, key, xs);
    var i :| 0 <= i < |e| && e[i] == xs[0];
  }

  lemma MergedPresent(existing: string, key: Key, value: string)
    requires PlainKey(key)
    ensures Present(Pieces(Merge(existing, key, value)), key)
  {
    var ps, xs := Pieces(existing), PairPieces(key, value);
    PiecesOfMerge(existing, key, value);
    PairPiecesFacts(key, value);
    EntryParts(key, TrimRight(Split(value, ',')[0]));
    if Present(ps, key) {
      ExpandedPresent(ps, key, xs);
      assert Expanded(ps, key, xs) + [] == Expanded(ps, key, xs);
    } else {
      assert (Expanded(ps, key, xs) + xs)[|Expanded(ps, key, xs)|] == xs[0];
    }
  }

  /** Merging the same pair again changes nothing exactly when only blanks come after the first comma of its value. */
  lemma MergeTwiceIff(existing: string, key: Key, value: string)
    requires PlainKey(key)
    ensures Merge(Merge(existing, key, value), key, value) == Merge(existing, key, value) <==> Extras(value) == []
  {
    var ps, qs, xs := Pieces(existing), Pieces(Merge(existing, key, value)), PairPieces(key, value);
    var pair := Entry(key, TrimRight(Split(value, ',')[0]));
    PiecesOfMerge(existing, key, value);
    PairPiecesFacts(key, value);
    if Extras(value) == [] {
      assert xs == [pair];
      EntryParts(key, TrimRight(Split(value, ',')[0]));
      ExpandedByOne(ps, key, pair);
      assert qs == MergedPieces(ps, key, pair);
      MergedPiecesTwice(ps, key, pair, Entry(key, value));
    } else {
      PiecesOfMerge(Merge(existing, key, value), key, value);
      MergedPresent(existing, key, value);
      ExpandedGrows(qs, key, xs);
    }
  }

  lemma {:induction false} ExpandedHolds(ps: seq<string>, key: Key, xs: seq<string>, p: string)
    requires if Present(ps, key) then p in xs else false
    ensures p in Expanded(ps, key, xs)
  {
    if KeyOf(ps[0]) != Some(key) {
      var i :| 0 <= i < |ps| && KeyOf(ps[i]) == Some(key);
      assert KeyOf(ps[1..][i - 1]) == Some(key);
      ExpandedHolds(ps[1..], key, xs, p);
    }
  }

  lemma {:induction false} ExpandedKeeps(ps: seq<string>, key: Key, xs: seq<string>, p: string)
    requires p in ps && KeyOf(p) != Some(key)
    ensures p in Expanded(ps, key, xs)
  {
    if p != ps[0] {
      ExpandedKeeps(ps[1..], key, xs, p);
    }
  }

  /** After a merge the pair is among the pieces, its value up to the first comma, and so is every piece of another
      key that was. */
  lemma MergeHolds(existing: string, key: Key, value: string)
    requires PlainKey(key)
    ensures Entry(key, TrimRight(Split(value, ',')[0])) in Pieces(Merge(existing, key, value))
    ensures forall p | p in Pieces(existing) && KeyOf(p) != Some(key) :: p in Pieces(Merge(existing, key, value))
  {
    var ps, xs := Pieces(existing), PairPieces(key, value);
    PiecesOfMerge(existing, key, value);
    PairPiecesFacts(key, value);
    if Present(ps, key) {
      ExpandedHolds(ps, key, xs, xs[0]);
    }
    forall p | p in ps && KeyOf(p) != Some(key) ensures p in Pieces(Merge(existing, key, value)) {
      ExpandedKeeps(ps, key, xs, p);
    }
  }

  /** A removal leaves the pieces of other keys, and an empty text exactly if there are none. */
  lemma RemoveLeaves(existing: string, key: Key)
    ensures Pieces(Remove(existing, key)) == Without(Pieces(existing), key)
    ensures Remove(existing, key) == "" <==> Without(Pieces(existing), key) == []
  {
    PiecesFacts(existing);
    PiecesAlone(Without(Pieces(existing), key));
    MergeEmpty(key, "");
  }

  lemma PairIsPiece(key: Key, a: string)
    requires PlainKey(key) && IsPiece(a)
    ensures IsPiece(Entry(key, a)) && KeyOf(Entry(key, a)) == Some(key)
  {
    EntryParts(key, a);
    assert Entry(key, a)[0] == key[0] && Entry(key, a)[|Entry(key, a)| - 1] == a[|a| - 1];
  }

  lemma JoinTwo(p: string, q: string)
    ensures Join([p, q], ',') == p + [','] + q
  {
    assert [p, q][1..] == [q];
  }

  lemma SecondStays(p: string, b: string, key: Key)
    requires IsPiece(p) && IsPiece(b) && KeyOf(p) == Some(key) && KeyOf(b) == None
    ensures Remove(p + [','] + b, key) == b
  {
    JoinTwo(p, b);
    PiecesAlone([p, b]);
    assert [p, b][1..] == [b] && [b][1..] == [];
    assert Without([b], key) == [b] + Without([], key);
    assert Without([p, b], key) == Without([b], key);
  }

  /** For instance, of a value "a,b" the second half stays. */
  lemma CommaLeavesResidue(key: Key, a: string, b: string)
    requires PlainKey(key) && IsPiece(a) && IsPiece(b) && '=' !in b
    ensures Remove(Merge("", key, a + [','] + b), key) == b
  {
    MergeEmpty(key, a + [','] + b);
    assert Entry(key, a + [','] + b) == Entry(key, a) + [','] + b;
    PairIsPiece(key, a);
    SecondStays(Entry(key, a), b, key);
  }

  lemma MergeEmpty(key: Key, value: string)
    ensures Pieces("") == [] && Merge("", key, value) == Entry(key, value) && Remove("", key) == ""
  {
    assert Split("", ',') == [""] && Trim("") == "" && Clean([""]) == [];
    assert MergedPieces([], key, Entry(key, value)) == [Entry(key, value)];
  }

  // ---------------------------------------------------------------- the loops

  lemma {:induction false} CleanSnoc(parts: seq<string>, i: nat)
    requires i < |parts|
    ensures Trim(parts[i]) == "" ==> Clean(parts[..i + 1]) == Clean(parts[..i])
    ensures Trim(parts[i]) != "" ==> Clean(parts[..i + 1]) == Clean(parts[..i]) + [Trim(parts[i])]
  {
    if i == 0 {
      assert parts[..1] == [parts[0]] && parts[..0] == [] && Clean([parts[0]][1..]) == [];
    } else {
      assert parts[..i + 1][1..] == parts[1..][..i] && parts[..i][1..] == parts[1..][..i - 1];
      CleanSnoc(parts[1..], i - 1);
    }
  }

  lemma ReplacedSnoc(ps: seq<string>, p: string, key: Key, pair: string)
    ensures Replaced(ps + [p], key, pair) == Replaced(ps, key, pair) + [if KeyOf(p) == Some(key) then pair else p]
    ensures Present(ps + [p], key) <==> Present(ps, key) || KeyOf(p) == Some(key)
  {
    var qs := ps + [p];
    assert qs[|ps|] == p && forall i | 0 <= i < |ps| :: qs[i] == ps[i];
  }

  /** mergeResourceAttrValue as it runs. */
  method MergeResourceAttrValue(existing: string, key: Key, value: string) returns (merged: string)
    ensures merged == Merge(existing, key, value)
  {
    var pair := Entry(key, value);
    if existing == "" {
      MergeEmpty(key, value);
      return pair;
    }
    var parts := Split(existing, ',');
    var out: seq<string> := [];
    var replaced := false;
    ghost var seen: seq<string> := [];
    for i := 0 to |parts|
      invariant seen == Clean(parts[..i]) && out == Replaced(seen, key, pair) && replaced == Present(seen, key)
    {
      CleanSnoc(parts, i);
      var trimmed := Trim(parts[i]);
      if trimmed == "" {
        continue;
      }
      ReplacedSnoc(seen, trimmed, key, pair);
      seen := seen + [trimmed];
      if KeyOf(trimmed) == Some(key) {
        out := out + [pair];
        replaced := true;
        continue;
      }
      out := out + [trimmed];
    }
    assert parts[..|parts|] == parts;
    if !replaced {
      out := out + [pair];
    }
    assert out == MergedPieces(seen, key, pair);
    merged := Join(out, ',');
  }

  /** removeResourceAttrKey as it runs. */
  method RemoveResourceAttrKey(existing: string, key: Key) returns (left: string)
    ensures left == Remove(existing, key)
  {
    if existing == "" {
      MergeEmpty(key, "");
      return "";
    }
    var parts := Split(existing, ',');
    var out: seq<string> := [];
    ghost var seen: seq<string> := [];
    for i := 0 to |parts|
      invariant seen == Clean(parts[..i]) && out == Without(seen, key)
    {
      CleanSnoc(parts, i);
      var trimmed := Trim(parts[i]);
      if trimmed == "" {
        continue;
      }
      WithoutConcat(seen, [trimmed], key);
      seen := seen + [trimmed];
      if KeyOf(trimmed) == Some(key) {
        continue;
      }
      out := out + [trimmed];
    }
    assert parts[..|parts|] == parts;
    left := Join(out, ',');
  }
}
