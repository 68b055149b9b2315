/** JSON values, and the stable sort of named ones. */
module JsonValues {
  import opened Orders

  datatype Json = JNull | JBool(b: bool) | JNum(n: real) | JStr(s: string) | JArr(items: seq<Json>)
                | JObj(fields: seq<Field>)
  datatype Field = Field(key: string, value: Json)

  ghost predicate DistinctFields(fs: seq<Field>) {
    forall i, j | 0 <= i < j < |fs| :: fs[i].key != fs[j].key
  }

  // ---------------------------------------------------------------- sorting by name

  function Insert(f: Field, fs: seq<Field>, less: Order): seq<Field> {
    if fs == [] || !less(fs[0].key, f.key) then [f] + fs else [fs[0]] + Insert(f, fs[1..], less)
  }

  /** A stable sort: of equal names, the one that comes first stays first. */
  function SortBy(fs: seq<Field>, less: Order): seq<Field> {
    if fs == [] then [] else Insert(fs[0], SortBy(fs[1..], less), less)
  }

  ghost predicate Sorted(fs: seq<Field>, less: Order) {
    forall i, j | 0 <= i < j < |fs| :: less(fs[i].key, fs[j].key)
  }

  lemma {:induction false} InsertFacts(f: Field, fs: seq<Field>, less: Order)
    requires Strict(less)
    ensures |Insert(f, fs, less)| == |fs| + 1
    ensures forall g :: g in Insert(f, fs, less) <==> g == f || g in fs
    ensures Sorted(fs, less) && (forall g | g in fs :: g.key != f.key) ==> Sorted(Insert(f, fs, less), less)
  {
    if fs != [] && less(fs[0].key, f.key) {
      var rest := fs[1..];
      InsertFacts(f, rest, less);
      assert fs == [fs[0]] + rest;
      if Sorted(fs, less) && (forall g | g in fs :: g.key != f.key) {
        InsertAfterFirst(f, fs, less);
      }
    } else if fs != [] && Sorted(fs, less) && (forall g | g in fs :: g.key != f.key) {
      assert fs[0] in fs && less(f.key, fs[0].key);
    }
  }

  lemma InsertAfterFirst(f: Field, fs: seq<Field>, less: Order)
    requires Strict(less) && fs != [] && less(fs[0].key, f.key) && Sorted(fs, less)
    requires Sorted(Insert(f, fs[1..], less), less)
    requires forall g :: g in Insert(f, fs[1..], less) <==> g == f || g in fs[1..]
    ensures Sorted(Insert(f, fs, less), less)
  {
    var rest := Insert(f, fs[1..], less);
    forall j | 0 <= j < |rest| ensures less(fs[0].key, rest[j].key) {
      assert rest[j] in rest;
      if rest[j] != f {
        var k :| 0 <= k < |fs[1..]| && fs[1..][k] == rest[j];
        assert fs[k + 1] == rest[j];
      }
    }
  }

  lemma {:induction false} SortFacts(fs: seq<Field>, less: Order)
    requires Strict(less)
    ensures |SortBy(fs, less)| == |fs|
    ensures forall g :: g in SortBy(fs, less) <==> g in fs
    ensures DistinctFields(fs) ==> Sorted(SortBy(fs, less), less)
  {
    if fs != [] {
      var rest := fs[1..];
      SortFacts(rest, less);
      InsertFacts(fs[0], SortBy(rest, less), less);
      assert fs == [fs[0]] + rest;
      if DistinctFields(fs) {
        forall g | g in SortBy(rest, less) ensures g.key != fs[0].key {
          var k :| 0 <= k < |rest| && rest[k] == g;
          assert fs[k + 1] == g;
        }
        assert forall i | 0 <= i < |rest| :: rest[i] == fs[i + 1];
      }
    }
  }

  // ---------------------------------------------------------------- the values of each name

  /** The values named k, in their order. */
  function Values(fs: seq<Field>, k: string): seq<Json> {
    if fs == [] then [] else (if fs[0].key == k then [fs[0].value] else []) + Values(fs[1..], k)
  }

  /** No name comes before an earlier one. */
  ghost predicate FieldsInOrder(fs: seq<Field>, less: Order) {
    forall i, j | 0 <= i < j < |fs| :: !less(fs[j].key, fs[i].key)
  }

  lemma {:induction false} InsertInOrder(f: Field, fs: seq<Field>, less: Order)
    requires Strict(less) && FieldsInOrder(fs, less)
    ensures FieldsInOrder(Insert(f, fs, less), less)
  {
    if fs != [] && less(fs[0].key, f.key) {
      var rest := Insert(f, fs[1..], less);
      InsertInOrder(f, fs[1..], less);
      InsertFacts(f, fs[1..], less);
      forall j | 0 <= j < |rest| ensures !less(rest[j].key, fs[0].key) {
        assert rest[j] in rest;
        if rest[j] != f {
          var k :| 0 <= k < |fs[1..]| && fs[1..][k] == rest[j];
          assert fs[k + 1] == rest[j];
        }
      }
    }
  }

  lemma {:induction false} InsertValues(f: Field, fs: seq<Field>, less: Order, k: string)
    requires Strict(less)
    ensures Values(Insert(f, fs, less), k) == Values([f] + fs, k)
  {
    assert ([f] + fs)[1..] == fs;
    if fs != [] && less(fs[0].key, f.key) {
      InsertValues(f, fs[1..], less, k);
      assert ([f] + fs[1..])[1..] == fs[1..];
    }
  }

  /** Sorting puts names in order and keeps the values of each name, in their order. */
  lemma {:induction false} SortIsStable(fs: seq<Field>, less: Order, k: string)
    requires Strict(less)
    ensures FieldsInOrder(SortBy(fs, less), less)
    ensures Values(SortBy(fs, less), k) == Values(fs, k)
  {
    if fs != [] {
      var sorted := SortBy(fs[1..], less);
      SortIsStable(fs[1..], less, k);
      InsertInOrder(fs[0], sorted, less);
      InsertValues(fs[0], sorted, less, k);
      assert ([fs[0]] + sorted)[1..] == sorted;
    }
  }

  lemma {:induction false} ValuesPresent(fs: seq<Field>, i: nat)
    requires i < |fs|
    ensures Values(fs, fs[i].key) != []
  {
    if i > 0 {
      ValuesPresent(fs[1..], i - 1);
    }
  }

  lemma {:induction false} ValuesAbsent(fs: seq<Field>, k: string)
    requires Values(fs, k) != []
    ensures exists i :: 0 <= i < |fs| && fs[i].key == k
  {
    if fs[0].key == k {
      assert 0 <= 0 < |fs| && fs[0].key == k;
    } else {
      ValuesAbsent(fs[1..], k);
      var i :| 0 <= i < |fs[1..]| && fs[1..][i].key == k;
      assert fs[i + 1].key == k;
    }
  }

  /** Of two ordered lists with the same names, the first names are equal. */
  lemma FirstNames(a: seq<Field>, b: seq<Field>, less: Order)
    requires Strict(less) && FieldsInOrder(a, less) && FieldsInOrder(b, less) && a != [] && b != []
    requires Values(b, a[0].key) != [] && Values(a, b[0].key) != []
    ensures a[0].key == b[0].key
  {
    ValuesAbsent(b, a[0].key);
    ValuesAbsent(a, b[0].key);
    var i :| 0 <= i < |b| && b[i].key == a[0].key;
    var j :| 0 <= j < |a| && a[j].key == b[0].key;
    assert i == 0 || !less(b[i].key, b[0].key);
    assert j == 0 || !less(a[j].key, a[0].key);
  }

  /** A list in order is determined by the values of each name. */
  lemma {:induction false} InOrderUnique(a: seq<Field>, b: seq<Field>, less: Order)
    requires Strict(less) && FieldsInOrder(a, less) && FieldsInOrder(b, less)
    requires forall k :: Values(a, k) == Values(b, k)
    ensures a == b
  {
    if a == [] || b == [] {
      if a != [] {
        ValuesPresent(a, 0);
      }
      if b != [] {
        ValuesPresent(b, 0);
      }
    } else {
      ValuesPresent(a, 0);
      ValuesPresent(b, 0);
      FirstNames(a, b, less);
      var x, y := a[1..], b[1..];
      assert Values(a, a[0].key)[0] == Values(b, a[0].key)[0];
      forall k ensures Values(x, k) == Values(y, k) {
        var p := if a[0].key == k then [a[0].value] else [];
        assert Values(a, k) == p + Values(x, k) && Values(b, k) == p + Values(y, k);
        assert (p + Values(x, k))[|p|..] == Values(x, k) && (p + Values(y, k))[|p|..] == Values(y, k);
      }
      assert FieldsInOrder(x, less) by {
        assert forall i | 0 <= i < |x| :: x[i] == a[i + 1];
      }
      assert FieldsInOrder(y, less) by {
        assert forall i | 0 <= i < |y| :: y[i] == b[i + 1];
      }
      InOrderUnique(x, y, less);
      assert a == [a[0]] + x && b == [b[0]] + y;
    }
  }

  /** With distinct names each has at most its one value. */
  lemma {:induction false} ValuesOfDistinct(fs: seq<Field>, i: nat)
    requires DistinctFields(fs) && i < |fs|
    ensures Values(fs, fs[i].key) == [fs[i].value]
  {
    var rest := fs[1..];
    assert forall j | 0 <= j < |rest| :: rest[j] == fs[j + 1];
    if i > 0 {
      ValuesOfDistinct(rest, i - 1);
    } else if Values(rest, fs[0].key) != [] {
      ValuesAbsent(rest, fs[0].key);
    }
  }

  /** Lists of the same, distinctly named fields sort alike, whatever their order. */
  lemma SameFieldsSameValues(a: seq<Field>, b: seq<Field>, k: string)
    requires DistinctFields(a) && DistinctFields(b) && forall g :: g in a <==> g in b
    ensures Values(a, k) == Values(b, k)
  {
    if Values(a, k) != [] {
      ValuesAbsent(a, k);
      var i :| 0 <= i < |a| && a[i].key == k;
      assert a[i] in b;
      var j :| 0 <= j < |b| && b[j] == a[i];
      ValuesOfDistinct(a, i);
      ValuesOfDistinct(b, j);
    } else if Values(b, k) != [] {
      ValuesAbsent(b, k);
      var j :| 0 <= j < |b| && b[j].key == k;
      assert b[j] in a;
      var i :| 0 <= i < |a| && a[i] == b[j];
      ValuesPresent(a, i);
    }
  }

  lemma SortSame(a: seq<Field>, b: seq<Field>, less: Order)
    requires Strict(less) && forall k :: Values(a, k) == Values(b, k)
    ensures SortBy(a, less) == SortBy(b, less)
  {
    forall k ensures Values(SortBy(a, less), k) == Values(SortBy(b, less), k) {
      SortIsStable(a, less, k);
      SortIsStable(b, less, k);
    }
    SortIsStable(a, less, "");
    SortIsStable(b, less, "");
    InOrderUnique(SortBy(a, less), SortBy(b, less), less);
  }

  /** A sorted list is determined by its elements. */
  lemma SortedUnique(a: seq<Field>, b: seq<Field>, less: Order)
    requires Strict(less) && Sorted(a, less) && Sorted(b, less) && forall g :: g in a <==> g in b
    ensures a == b
  {
    forall k ensures Values(a, k) == Values(b, k) {
      SameFieldsSameValues(a, b, k);
    }
    InOrderUnique(a, b, less);
  }
}
