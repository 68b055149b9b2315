/** JSON values and the canonical form of the fingerprint: object keys sorted at every depth. */
module CanonicalJson {
  import opened JsOrder
  import opened JsonValues

  /** No object has a key twice. */
  ghost predicate WellFormed(j: Json) {
    match j
    case JArr(items) => forall i | 0 <= i < |items| :: WellFormed(items[i])
    case JObj(fields) => DistinctFields(fields) && forall i | 0 <= i < |fields| :: WellFormed(fields[i].value)
    case _ => true
  }

  /** As an object lists its keys. */
  function Sort(fs: seq<Field>): seq<Field> {
    SortBy(fs, KeyLess)
  }

  // ---------------------------------------------------------------- the canonical form

  /** Assigning to this key sets a prototype and adds no property. */
  const PROTO := "__proto__"

  /** Without the fields of this key. */
  function Without(fs: seq<Field>, key: string): seq<Field> {
    if fs == [] then [] else (if fs[0].key == key then [] else [fs[0]]) + Without(fs[1..], key)
  }

  lemma {:induction false} WithoutMembers(fs: seq<Field>, key: string)
    ensures forall f :: f in Without(fs, key) <==> f in fs && f.key != key
  {
    if fs != [] {
      WithoutMembers(fs[1..], key);
      assert fs == [fs[0]] + fs[1..];
    }
  }

  lemma {:induction false} WithoutDistinct(fs: seq<Field>, key: string)
    requires DistinctFields(fs)
    ensures DistinctFields(Without(fs, key))
  {
    if fs != [] {
      var rest := Without(fs[1..], key);
      assert forall i | 0 <= i < |fs[1..]| :: fs[1..][i] == fs[i + 1];
      WithoutDistinct(fs[1..], key);
      WithoutMembers(fs[1..], key);
      forall i | 0 <= i < |rest| ensures rest[i].key != fs[0].key {
        assert rest[i] in fs[1..];
        var k :| 0 <= k < |fs[1..]| && fs[1..][k] == rest[i];
        assert fs[k + 1] == rest[i];
      }
    }
  }

  lemma {:induction false} WithoutNone(fs: seq<Field>, key: string)
    requires forall i | 0 <= i < |fs| :: fs[i].key != key
    ensures Without(fs, key) == fs
  {
    if fs != [] {
      WithoutNone(fs[1..], key);
    }
  }

  function Kept(fs: seq<Field>): seq<Field> {
    Without(fs, PROTO)
  }

  lemma KeptFacts(fs: seq<Field>)
    ensures forall f :: f in Kept(fs) <==> f in fs && f.key != PROTO
    ensures DistinctFields(fs) ==> DistinctFields(Kept(fs))
  {
    WithoutMembers(fs, PROTO);
    if DistinctFields(fs) {
      WithoutDistinct(fs, PROTO);
    }
  }

  function Canonical(j: Json): Json {
    match j
    case JArr(items) => JArr(seq(|items|, i requires 0 <= i < |items| => Canonical(items[i])))
    case JObj(fields) => JObj(Sort(Kept(CanonicalFields(fields))))
    case _ => j
  }

  function CanonicalFields(fields: seq<Field>): (cs: seq<Field>)
    ensures |cs| == |fields|
    ensures forall i | 0 <= i < |fields| :: cs[i] == Field(fields[i].key, Canonical(fields[i].value))
  {
    seq(|fields|, i requires 0 <= i < |fields| => Field(fields[i].key, Canonical(fields[i].value)))
  }

  /** obj[k] = v for a new key: an index key goes to its place among the index keys, any other key to the end. */
  function SetProperty(obj: seq<Field>, f: Field): seq<Field> {
    if f.key == PROTO then obj else if IsIndex(f.key) then Insert(f, obj, KeyLess) else obj + [f]
  }

  /** Setting a key that is Less-greater than those before keeps an object's keys in their order. */
  lemma SetPropertyFacts(obj: seq<Field>, f: Field)
    requires Sorted(obj, KeyLess) && forall g | g in obj :: Less(g.key, f.key)
    ensures Sorted(SetProperty(obj, f), KeyLess)
    ensures forall g :: g in SetProperty(obj, f) <==> g in obj || (g == f && f.key != PROTO)
  {
    KeyLessIsStrict();
    LessIsStrict();
    if IsIndex(f.key) {
      InsertFacts(f, obj, KeyLess);
    } else {
      forall i | 0 <= i < |obj| ensures KeyLess(obj[i].key, f.key) {
        assert obj[i] in obj;
      }
    }
  }

  lemma FilledIsSorted(filled: seq<Field>, cs: seq<Field>)
    requires DistinctFields(cs) && Sorted(filled, KeyLess)
    requires forall g :: g in filled <==> g in SortBy(cs, Less) && g.key != PROTO
    ensures filled == Sort(Kept(cs))
  {
    LessIsStrict();
    KeyLessIsStrict();
    KeptFacts(cs);
    SortFacts(cs, Less);
    SortFacts(Kept(cs), KeyLess);
    SortedUnique(filled, Sort(Kept(cs)), KeyLess);
  }

  /** The loop of the canonical form: an empty object filled in the sorted order of the keys. */
  method FillSorted(fields: seq<Field>) returns (filled: seq<Field>)
    requires DistinctFields(fields)
    ensures filled == Sort(Kept(CanonicalFields(fields)))
  {
    var cs := CanonicalFields(fields);
    var inOrder := SortBy(cs, Less);
    LessIsStrict();
    SortFacts(cs, Less);
    filled := [];
    for i := 0 to |inOrder|
      invariant Sorted(filled, KeyLess) && forall g :: g in filled <==> g in inOrder[..i] && g.key != PROTO
    {
      var f := inOrder[i];
      assert inOrder[..i + 1] == inOrder[..i] + [f];
      forall g | g in filled ensures Less(g.key, f.key) {
        var k :| 0 <= k < i && inOrder[k] == g;
      }
      SetPropertyFacts(filled, f);
      filled := SetProperty(filled, f);
    }
    assert inOrder[..|inOrder|] == inOrder;
    FilledIsSorted(filled, cs);
  }

  /** The same value up to the order of the keys of objects and properties named PROTO, at every depth. */
  ghost predicate Same(a: Json, b: Json)
    decreases a, 1
  {
    match (a, b)
    case (JArr(xs), JArr(ys)) => |xs| == |ys| && forall i | 0 <= i < |xs| :: Same(xs[i], ys[i])
    case (JObj(fs), JObj(gs)) =>
      && (forall i | 0 <= i < |fs| && fs[i].key != PROTO :: SameIn(fs[i], gs))
      && (forall j | 0 <= j < |gs| && gs[j].key != PROTO :: InSame(a, gs[j]))
    case _ => a == b
  }

  /** Some field of `gs` has f's key and the same value. */
  ghost predicate SameIn(f: Field, gs: seq<Field>)
    decreases f, 0
  {
    exists j | 0 <= j < |gs| :: f.key == gs[j].key && Same(f.value, gs[j].value)
  }

  /** Some field of the object has g's key and the same value. */
  ghost predicate InSame(a: Json, g: Field)
    requires a.JObj?
    decreases a, 0
  {
    exists i | 0 <= i < |a.fields| :: a.fields[i].key == g.key && Same(a.fields[i].value, g.value)
  }

  /** Some field of `gs` has f's key and canonical value. */
  ghost predicate HasTwin(f: Field, gs: seq<Field>) {
    exists j | 0 <= j < |gs| :: f.key == gs[j].key && Canonical(f.value) == Canonical(gs[j].value)
  }

  lemma TwinIff(fs: seq<Field>, i: nat, gs: seq<Field>)
    requires i < |fs|
    ensures HasTwin(fs[i], gs) <==> CanonicalFields(fs)[i] in CanonicalFields(gs)
  {
    var c, ds := CanonicalFields(fs)[i], CanonicalFields(gs);
    if HasTwin(fs[i], gs) {
      var j :| 0 <= j < |gs| && fs[i].key == gs[j].key && Canonical(fs[i].value) == Canonical(gs[j].value);
      assert ds[j] == c;
    }
    if c in ds {
      var j :| 0 <= j < |ds| && ds[j] == c;
    }
  }

  lemma SortedAlikeIff(cs: seq<Field>, ds: seq<Field>)
    requires DistinctFields(cs) && DistinctFields(ds)
    ensures Sort(cs) == Sort(ds) <==>
            (forall i | 0 <= i < |cs| :: cs[i] in ds) && (forall j | 0 <= j < |ds| :: ds[j] in cs)
  {
    KeyLessIsStrict();
    SortFacts(cs, KeyLess);
    SortFacts(ds, KeyLess);
    if (forall i | 0 <= i < |cs| :: cs[i] in ds) && (forall j | 0 <= j < |ds| :: ds[j] in cs) {
      SortedUnique(Sort(cs), Sort(ds), KeyLess);
    }
    if Sort(cs) == Sort(ds) {
      forall i | 0 <= i < |cs| ensures cs[i] in ds {
        assert cs[i] in Sort(cs);
      }
      forall j | 0 <= j < |ds| ensures ds[j] in cs {
        assert ds[j] in Sort(ds);
      }
    }
  }

  lemma KeptWithin(cs: seq<Field>, ds: seq<Field>, key: string)
    ensures (forall i | 0 <= i < |cs| && cs[i].key != key :: cs[i] in ds) <==>
            (forall i | 0 <= i < |Without(cs, key)| :: Without(cs, key)[i] in Without(ds, key))
  {
    var ks, ls := Without(cs, key), Without(ds, key);
    WithoutMembers(cs, key);
    WithoutMembers(ds, key);
    if forall i | 0 <= i < |ks| :: ks[i] in ls {
      forall i | 0 <= i < |cs| && cs[i].key != key ensures cs[i] in ds {
        assert cs[i] in ks;
      }
    }
    if forall i | 0 <= i < |cs| && cs[i].key != key :: cs[i] in ds {
      forall i | 0 <= i < |ks| ensures ks[i] in ls {
        assert ks[i] in cs;
      }
    }
  }

  lemma KeptAlikeIff(cs: seq<Field>, ds: seq<Field>)
    requires DistinctFields(cs) && DistinctFields(ds)
    ensures Sort(Kept(cs)) == Sort(Kept(ds)) <==>
            (forall i | 0 <= i < |cs| && cs[i].key != PROTO :: cs[i] in ds) &&
            (forall j | 0 <= j < |ds| && ds[j].key != PROTO :: ds[j] in cs)
  {
    KeptFacts(cs);
    KeptFacts(ds);
    SortedAlikeIff(Kept(cs), Kept(ds));
    KeptWithin(cs, ds, PROTO);
    KeptWithin(ds, cs, PROTO);
  }

  /** Every field of either has its twin in the other. */
  ghost predicate Twins(fs: seq<Field>, gs: seq<Field>) {
    && (forall i | 0 <= i < |fs| && fs[i].key != PROTO :: HasTwin(fs[i], gs))
    && (forall j | 0 <= j < |gs| && gs[j].key != PROTO :: HasTwin(gs[j], fs))
  }

  /** Objects have the same canonical form exactly when their fields are twins. */
  lemma CanonicalObjects(fs: seq<Field>, gs: seq<Field>)
    requires DistinctFields(fs) && DistinctFields(gs)
    ensures Canonical(JObj(fs)) == Canonical(JObj(gs)) <==> Twins(fs, gs)
  {
    var cs, ds := CanonicalFields(fs), CanonicalFields(gs);
    KeptAlikeIff(cs, ds);
    forall i | 0 <= i < |fs| ensures HasTwin(fs[i], gs) <==> cs[i] in ds {
      TwinIff(fs, i, gs);
    }
    forall j | 0 <= j < |gs| ensures HasTwin(gs[j], fs) <==> ds[j] in cs {
      TwinIff(gs, j, fs);
    }
  }

  /** Two values have the same canonical form exactly when they differ only in the order of keys, and in properties
      named PROTO. */
  lemma {:induction false} CanonicalIff(a: Json, b: Json)
    requires WellFormed(a) && WellFormed(b)
    ensures Canonical(a) == Canonical(b) <==> Same(a, b)
    decreases a
  {
    match (a, b) {
      case (JArr(xs), JArr(ys)) =>
        forall i | 0 <= i < |xs| && i < |ys| ensures Canonical(xs[i]) == Canonical(ys[i]) <==> Same(xs[i], ys[i]) {
          CanonicalIff(xs[i], ys[i]);
        }
        CanonicalArrays(xs, ys);
      case (JObj(fs), JObj(gs)) =>
        forall i, j | 0 <= i < |fs| && 0 <= j < |gs|
          ensures Canonical(fs[i].value) == Canonical(gs[j].value) <==> Same(fs[i].value, gs[j].value)
        {
          CanonicalIff(fs[i].value, gs[j].value);
        }
        CanonicalObjects(fs, gs);
        SameObjects(fs, gs);
      case _ =>
    }
  }

  lemma CanonicalArrays(xs: seq<Json>, ys: seq<Json>)
    ensures Canonical(JArr(xs)) == Canonical(JArr(ys)) <==>
            |xs| == |ys| && forall i | 0 <= i < |xs| :: Canonical(xs[i]) == Canonical(ys[i])
  {
    var cs, ds := Canonical(JArr(xs)).items, Canonical(JArr(ys)).items;
    assert |cs| == |xs| && forall i | 0 <= i < |xs| :: cs[i] == Canonical(xs[i]);
    assert |ds| == |ys| && forall i | 0 <= i < |ys| :: ds[i] == Canonical(ys[i]);
    if cs == ds {
      assert forall i | 0 <= i < |xs| :: cs[i] == ds[i];
    }
  }

  lemma TwinSame(f: Field, gs: seq<Field>)
    requires forall j | 0 <= j < |gs| :: Canonical(f.value) == Canonical(gs[j].value) <==> Same(f.value, gs[j].value)
    ensures HasTwin(f, gs) <==> SameIn(f, gs)
  {
  }

  lemma SameTwin(fs: seq<Field>, g: Field)
    requires forall i | 0 <= i < |fs| :: Canonical(fs[i].value) == Canonical(g.value) <==> Same(fs[i].value, g.value)
    ensures HasTwin(g, fs) <==> InSame(JObj(fs), g)
  {
  }

  lemma SameObjects(fs: seq<Field>, gs: seq<Field>)
    requires forall i, j | 0 <= i < |fs| && 0 <= j < |gs| ::
               Canonical(fs[i].value) == Canonical(gs[j].value) <==> Same(fs[i].value, gs[j].value)
    ensures Same(JObj(fs), JObj(gs)) <==> Twins(fs, gs)
  {
    forall i | 0 <= i < |fs| ensures HasTwin(fs[i], gs) <==> SameIn(fs[i], gs) {
      TwinSame(fs[i], gs);
    }
    forall j | 0 <= j < |gs| ensures HasTwin(gs[j], fs) <==> InSame(JObj(fs), gs[j]) {
      SameTwin(fs, gs[j]);
    }
  }

  lemma IdempotentObject(fields: seq<Field>)
    requires DistinctFields(fields)
    requires forall i | 0 <= i < |fields| ::
               Canonical(Canonical(fields[i].value)) == Canonical(fields[i].value) &&
               WellFormed(Canonical(fields[i].value))
    ensures var c := Canonical(JObj(fields)); Canonical(c) == c && WellFormed(c)
  {
    var cs := CanonicalFields(fields);
    var sorted := Sort(Kept(cs));
    KeyLessIsStrict();
    KeptFacts(cs);
    SortFacts(Kept(cs), KeyLess);
    forall i | 0 <= i < |sorted|
      ensures Canonical(sorted[i].value) == sorted[i].value && WellFormed(sorted[i].value) && sorted[i].key != PROTO
    {
      assert sorted[i] in Kept(cs);
      var k :| 0 <= k < |cs| && cs[k] == sorted[i];
    }
    forall i, k | 0 <= i < k < |sorted| ensures sorted[i].key != sorted[k].key {
      assert KeyLess(sorted[i].key, sorted[k].key);
    }
    assert CanonicalFields(sorted) == sorted;
    WithoutNone(sorted, PROTO);
    SortFacts(sorted, KeyLess);
    SortedUnique(Sort(sorted), sorted, KeyLess);
  }

  /** The canonical form is its own canonical form, and the same value. */
  lemma {:induction false} CanonicalIdempotent(j: Json)
    requires WellFormed(j)
    ensures Canonical(Canonical(j)) == Canonical(j) && WellFormed(Canonical(j))
  {
    match j {
      case JArr(items) =>
        forall i | 0 <= i < |items|
          ensures Canonical(Canonical(items[i])) == Canonical(items[i]) && WellFormed(Canonical(items[i]))
        {
          CanonicalIdempotent(items[i]);
        }
        assert Canonical(Canonical(j)).items == Canonical(j).items;
      case JObj(fields) =>
        forall i | 0 <= i < |fields|
          ensures Canonical(Canonical(fields[i].value)) == Canonical(fields[i].value)
          ensures WellFormed(Canonical(fields[i].value))
        {
          CanonicalIdempotent(fields[i].value);
        }
        IdempotentObject(fields);
      case _ =>
    }
  }
}
