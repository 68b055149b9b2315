/** What the fingerprint depends on: exactly when two calls hash the same value. */
module FingerprintLaws {
  import opened Base
  import opened CanonicalJson
  import opened Fingerprint
  import opened JsonValues
  import opened JsOrder
  import opened Words

  // ---------------------------------------------------------------- the tools

  /** For each name, the schemas so named are the same in order, up to the order of their keys. */
  ghost predicate SameTools(ts: seq<Field>, us: seq<Field>) {
    forall k :: SameSchemas(Values(ts, k), Values(us, k))
  }

  ghost predicate SameSchemas(xs: seq<Json>, ys: seq<Json>) {
    |xs| == |ys| && forall i | 0 <= i < |xs| :: Same(xs[i], ys[i])
  }

  ghost predicate Regular(ts: seq<Field>) {
    forall i | 0 <= i < |ts| :: WellFormed(ts[i].value)
  }

  lemma {:induction false} CanonicalValues(ts: seq<Field>, k: string)
    ensures |Values(CanonicalFields(ts), k)| == |Values(ts, k)|
    ensures forall i | 0 <= i < |Values(ts, k)| :: Values(CanonicalFields(ts), k)[i] == Canonical(Values(ts, k)[i])
  {
    if ts != [] {
      assert CanonicalFields(ts)[1..] == CanonicalFields(ts[1..]);
      CanonicalValues(ts[1..], k);
    }
  }

  lemma {:induction false} RegularValues(ts: seq<Field>, k: string)
    requires Regular(ts)
    ensures forall i | 0 <= i < |Values(ts, k)| :: WellFormed(Values(ts, k)[i])
  {
    if ts != [] {
      assert forall i | 0 <= i < |ts[1..]| :: ts[1..][i] == ts[i + 1];
      RegularValues(ts[1..], k);
    }
  }

  lemma SchemasIff(ts: seq<Field>, us: seq<Field>, k: string)
    requires Regular(ts) && Regular(us)
    ensures Values(CanonicalFields(ts), k) == Values(CanonicalFields(us), k) <==>
            SameSchemas(Values(ts, k), Values(us, k))
  {
    var xs, ys := Values(ts, k), Values(us, k);
    CanonicalValues(ts, k);
    CanonicalValues(us, k);
    RegularValues(ts, k);
    RegularValues(us, k);
    forall i | 0 <= i < |xs| && i < |ys| ensures Canonical(xs[i]) == Canonical(ys[i]) <==> Same(xs[i], ys[i]) {
      CanonicalIff(xs[i], ys[i]);
    }
    var cs, ds := Values(CanonicalFields(ts), k), Values(CanonicalFields(us), k);
    if cs == ds {
      assert forall i | 0 <= i < |xs| :: cs[i] == ds[i];
    }
  }

  lemma ToolsIff(ts: seq<Field>, us: seq<Field>)
    requires Regular(ts) && Regular(us)
    ensures SortBy(CanonicalFields(ts), Less) == SortBy(CanonicalFields(us), Less) <==> SameTools(ts, us)
  {
    var cs, ds := CanonicalFields(ts), CanonicalFields(us);
    LessIsStrict();
    forall k ensures Values(cs, k) == Values(ds, k) <==> SameSchemas(Values(ts, k), Values(us, k)) {
      SchemasIff(ts, us, k);
    }
    if SortBy(cs, Less) == SortBy(ds, Less) {
      forall k ensures Values(cs, k) == Values(ds, k) {
        SortIsStable(cs, Less, k);
        SortIsStable(ds, Less, k);
      }
    } else if SameTools(ts, us) {
      SortSame(cs, ds, Less);
    }
  }

  lemma PartsCanonical(a: Args, c: Codec)
    requires Regular(Tools(a, c))
    ensures CanonicalTools(PartsOf(a, c))
  {
    var ts := Tools(a, c);
    var cs := CanonicalFields(ts);
    LessIsStrict();
    SortFacts(cs, Less);
    var sorted := SortBy(cs, Less);
    forall i | 0 <= i < |sorted| ensures Canonical(sorted[i].value) == sorted[i].value {
      assert sorted[i] in cs;
      var j :| 0 <= j < |cs| && cs[j] == sorted[i];
      CanonicalIdempotent(ts[j].value);
    }
  }

  /** Two calls hash the same value exactly when they agree on the words of the prompt, the tools up to the order of
      names and of schema keys, the model, the rounded numbers and the provider. */
  lemma PayloadIff(a: Args, b: Args, c: Codec)
    requires Regular(Tools(a, c)) && Regular(Tools(b, c))
    ensures Payload(a, c) == Payload(b, c) <==>
            && WordsOf(TextOf(a.instructions, c), JsSpace) == WordsOf(TextOf(b.instructions, c), JsSpace)
            && SameTools(Tools(a, c), Tools(b, c))
            && a.model == b.model
            && Rounded(SettingsOf(a).temperature) == Rounded(SettingsOf(b).temperature)
            && Rounded(SettingsOf(a).topP) == Rounded(SettingsOf(b).topP)
            && Truncated(SettingsOf(a).maxTokens) == Truncated(SettingsOf(b).maxTokens)
            && Provider(a) == Provider(b)
  {
    NormalizeIff(TextOf(a.instructions, c), TextOf(b.instructions, c), JsSpace);
    ToolsIff(Tools(a, c), Tools(b, c));
    PartsCanonical(a, c);
    PartsCanonical(b, c);
    PartsIff(PartsOf(a, c), PartsOf(b, c));
  }

  lemma PartsIff(p: Parts, q: Parts)
    requires CanonicalTools(p) && CanonicalTools(q)
    ensures PayloadOf(p) == PayloadOf(q) <==> p == q
  {
    if PayloadOf(p) == PayloadOf(q) {
      PayloadInjective(p, q);
    }
  }

  // ---------------------------------------------------------------- reordering tools

  function Listed(j: Json): seq<Field> {
    var t := ToolOf(j);
    if t.Some? then [t.value] else []
  }

  lemma {:induction false} TakeTool(list: seq<Json>, i: nat)
    requires i < |list|
    ensures multiset(ToolsOf(list)) == multiset(Listed(list[i])) + multiset(ToolsOf(list[..i] + list[i + 1..]))
  {
    var rest := list[..i] + list[i + 1..];
    assert ToolsOf(list) == Listed(list[0]) + ToolsOf(list[1..]);
    if i == 0 {
      assert rest == list[1..];
    } else {
      TakeTool(list[1..], i - 1);
      assert rest[1..] == list[1..][..i - 1] + list[1..][i..];
      assert ToolsOf(rest) == Listed(rest[0]) + ToolsOf(rest[1..]);
    }
  }

  lemma RestOfReordered<T>(list: seq<T>, other: seq<T>) returns (i: nat)
    requires list != [] && multiset(list) == multiset(other)
    ensures i < |other| && other[i] == list[0] && multiset(other[..i] + other[i + 1..]) == multiset(list[1..])
  {
    assert list[0] in multiset(other);
    i :| 0 <= i < |other| && other[i] == list[0];
    assert other == other[..i] + [other[i]] + other[i + 1..];
    assert list == [list[0]] + list[1..];
    assert multiset(other[..i] + other[i + 1..]) == multiset(other) - multiset{list[0]};
  }

  lemma {:induction false} ToolsOfReordered(list: seq<Json>, other: seq<Json>)
    requires multiset(list) == multiset(other)
    ensures multiset(ToolsOf(list)) == multiset(ToolsOf(other))
  {
    if list == [] {
      assert |other| == |multiset(other)| == 0;
    } else {
      var i := RestOfReordered(list, other);
      ToolsOfReordered(list[1..], other[..i] + other[i + 1..]);
      TakeTool(other, i);
      assert ToolsOf(list) == Listed(list[0]) + ToolsOf(list[1..]);
    }
  }

  lemma CountFirst<T>(xs: seq<T>, x: T)
    requires xs != []
    ensures multiset(xs)[x] == multiset(xs[1..])[x] + if xs[0] == x then 1 else 0
  {
    assert xs == [xs[0]] + xs[1..];
  }

  lemma {:induction false} CountValues(fs: seq<Field>, k: string, v: Json)
    ensures multiset(Values(fs, k))[v] == multiset(fs)[Field(k, v)]
  {
    if fs != [] {
      CountValues(fs[1..], k, v);
      CountFirst(fs, Field(k, v));
      if fs[0].key == k {
        assert Values(fs, k)[1..] == Values(fs[1..], k);
        CountFirst(Values(fs, k), v);
      }
    }
  }

  lemma FewValues(fs: seq<Field>, k: string)
    requires DistinctFields(fs)
    ensures |Values(fs, k)| <= 1
  {
    if Values(fs, k) != [] {
      ValuesAbsent(fs, k);
      var i :| 0 <= i < |fs| && fs[i].key == k;
      ValuesOfDistinct(fs, i);
    }
  }

  lemma OnlyOrder<T>(xs: seq<T>, ys: seq<T>)
    requires multiset(xs) == multiset(ys) && |xs| <= 1
    ensures xs == ys
  {
    assert |xs| == |multiset(xs)| && |ys| == |multiset(ys)|;
    if |xs| == 1 {
      assert ys[0] in multiset(xs);
    }
  }

  lemma ReorderedValues(ts: seq<Field>, us: seq<Field>, k: string)
    requires multiset(ts) == multiset(us) && DistinctFields(ts)
    ensures Values(ts, k) == Values(us, k)
  {
    var xs, ys := Values(ts, k), Values(us, k);
    forall v ensures multiset(xs)[v] == multiset(ys)[v] {
      CountValues(ts, k, v);
      CountValues(us, k, v);
    }
    FewValues(ts, k);
    OnlyOrder(xs, ys);
  }

  /** Distinctly named tools count in any order. */
  lemma ReorderedTools(list: seq<Json>, other: seq<Json>)
    requires multiset(list) == multiset(other) && DistinctFields(ToolsOf(list)) && Regular(ToolsOf(list))
    ensures SameTools(ToolsOf(list), ToolsOf(other))
  {
    var ts, us := ToolsOf(list), ToolsOf(other);
    ToolsOfReordered(list, other);
    forall k ensures SameSchemas(Values(ts, k), Values(us, k)) {
      ReorderedValues(ts, us, k);
      RegularValues(ts, k);
      forall i | 0 <= i < |Values(ts, k)| ensures Same(Values(ts, k)[i], Values(ts, k)[i]) {
        CanonicalIff(Values(ts, k)[i], Values(ts, k)[i]);
      }
    }
  }

  // ---------------------------------------------------------------- reordering providers

  lemma {:induction false} CountNamed(names: seq<string>, k: string)
    ensures Values(Named(names), k) == seq(multiset(names)[k], _ => JNull)
  {
    if names != [] {
      CountNamed(names[1..], k);
      assert Named(names)[1..] == Named(names[1..]);
      assert names == [names[0]] + names[1..];
    }
  }

  lemma {:induction false} CountNonEmpty(names: seq<string>, n: string)
    ensures multiset(NonEmpty(names))[n] == if n == "" then 0 else multiset(names)[n]
  {
    if names != [] {
      CountNonEmpty(names[1..], n);
      assert names == [names[0]] + names[1..];
    }
  }

  /** Providers count in any order. */
  lemma ReorderedProviders(ps: seq<string>, qs: seq<string>)
    requires multiset(ps) == multiset(qs)
    ensures SortedProviders(ps) == SortedProviders(qs)
  {
    var xs, ys := NonEmpty(ps), NonEmpty(qs);
    forall k ensures Values(Named(xs), k) == Values(Named(ys), k) {
      CountNonEmpty(ps, k);
      CountNonEmpty(qs, k);
      CountNamed(xs, k);
      CountNamed(ys, k);
    }
    LessIsStrict();
    SortSame(Named(xs), Named(ys), Less);
  }

  /** Reordering distinctly named tools and providers, and passing the tools as text instead, change nothing. */
  lemma PresentationIsIrrelevant(a: Args, b: Args, c: Codec, list: seq<Json>, other: seq<Json>)
    requires a.tools == Structured(JArr(list)) && b.tools == Plain((c.stringify)(JArr(other)))
    requires (c.parse)((c.stringify)(JArr(other))) == Some(JArr(other))
    requires multiset(list) == multiset(other) && multiset(a.providers) == multiset(b.providers)
    requires DistinctFields(ToolsOf(list)) && Regular(ToolsOf(list)) && Regular(ToolsOf(other))
    requires a.instructions == b.instructions && a.model == b.model && a.config == b.config
    ensures Payload(a, c) == Payload(b, c)
  {
    ReorderedTools(list, other);
    ReorderedProviders(a.providers, b.providers);
    assert ToolList(a.tools, c) == list && ToolList(b.tools, c) == other;
    PayloadIff(a, b, c);
  }
}
