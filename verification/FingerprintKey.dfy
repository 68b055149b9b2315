/** The key under which a fingerprint is remembered: when it determines what is hashed. */
module FingerprintKey {
  import opened Base
  import opened Fingerprint
  import opened JsonValues
  import opened JsOrder
  import opened Text
  import Words

  function ConfigText(a: Args, c: Codec): string {
    if a.config.Some? then (c.settingsText)(a.config.value) else ""
  }

  function ProvidersText(a: Args): string {
    Join(SortedProviders(a.providers), ',')
  }

  function Tail(a: Args, c: Codec): seq<string> {
    [ConfigText(a, c), ProvidersText(a)]
  }

  /** The five parts, joined by bars. */
  function CacheKey(a: Args, c: Codec): string {
    Join([TextOf(a.instructions, c), TextOf(a.tools, c), a.model] + Tail(a, c), '|')
  }

  // ---------------------------------------------------------------- what is assumed of JSON

  /** JSON texts read back, are not empty and do not start with a bar. */
  ghost predicate Readable(a: Args, c: Codec) {
    && (c.parse)("") == None
    && (a.tools.Structured? ==> (c.parse)((c.stringify)(a.tools.value)) == Some(a.tools.value))
    && (a.config.Some? ==> ConfigText(a, c) != "" && ConfigText(a, c)[0] != '|')
  }

  /** No JSON text of an object starts another one. */
  ghost predicate Apart(a: Args, b: Args, c: Codec) {
    a.config.Some? && b.config.Some? && (ConfigText(a, c) <= ConfigText(b, c) || ConfigText(b, c) <= ConfigText(a, c))
    ==> a.config == b.config
  }

  // ---------------------------------------------------------------- keys that determine the payload

  predicate BarFree(a: Args, c: Codec) {
    '|' !in TextOf(a.instructions, c) && '|' !in TextOf(a.tools, c) && '|' !in a.model
  }

  predicate CommaFree(a: Args) {
    SettingsOf(a).provider != "" || forall p | p in a.providers :: ',' !in p
  }

  lemma HeadAndRest(p: string, q: string, r: seq<string>, s: seq<string>)
    requires '|' !in p && '|' !in q && r != [] && s != [] && Join([p] + r, '|') == Join([q] + s, '|')
    ensures p == q && Join(r, '|') == Join(s, '|')
  {
    var x, y := Join(r, '|'), Join(s, '|');
    assert ([p] + r)[1..] == r && ([q] + s)[1..] == s;
    IndexAfter(p, '|', x);
    IndexAfter(q, '|', y);
    var k := p + ['|'] + x;
    assert k == q + ['|'] + y;
    assert k[..|p|] == p && k[..|q|] == q && k[|p| + 1..] == x && k[|q| + 1..] == y;
  }

  lemma AroundBar(x: string, p: string, y: string, q: string)
    requires x + ['|'] + p == y + ['|'] + q && (x != "" ==> x[0] != '|') && (y != "" ==> y[0] != '|')
    ensures x == "" <==> y == ""
    ensures (x <= y || y <= x) && (x == y ==> p == q)
  {
    var k := x + ['|'] + p;
    assert k[..|x|] == x && k[..|y|] == y && k[|x| + 1..] == p && k[|y| + 1..] == q;
    assert k[..|x|] <= k[..|y|] || k[..|y|] <= k[..|x|];
  }

  lemma ConfigOfTail(a: Args, b: Args, c: Codec)
    requires Readable(a, c) && Readable(b, c) && Apart(a, b, c) && Join(Tail(a, c), '|') == Join(Tail(b, c), '|')
    ensures a.config == b.config && ProvidersText(a) == ProvidersText(b)
  {
    assert Tail(a, c)[1..] == [ProvidersText(a)] && Tail(b, c)[1..] == [ProvidersText(b)];
    AroundBar(ConfigText(a, c), ProvidersText(a), ConfigText(b, c), ProvidersText(b));
  }

  lemma SortedProvidersFacts(ps: seq<string>)
    ensures forall p | p in SortedProviders(ps) :: p in ps && p != ""
  {
    var kept := NonEmpty(ps);
    LessIsStrict();
    SortFacts(Named(kept), Less);
    var sorted := SortBy(Named(kept), Less);
    forall p | p in SortedProviders(ps) ensures p in ps && p != "" {
      var i :| 0 <= i < |sorted| && sorted[i].key == p;
      assert sorted[i] in Named(kept);
      var j :| 0 <= j < |kept| && Named(kept)[j] == sorted[i];
      assert kept[j] in kept;
    }
  }

  lemma ProvidersOfText(a: Args, b: Args)
    requires ProvidersText(a) == ProvidersText(b)
    requires forall p | p in a.providers + b.providers :: ',' !in p
    ensures SortedProviders(a.providers) == SortedProviders(b.providers)
  {
    var x, y := SortedProviders(a.providers), SortedProviders(b.providers);
    SortedProvidersFacts(a.providers);
    SortedProvidersFacts(b.providers);
    assert (x != [] ==> x[0] in x) && (y != [] ==> y[0] in y);
    if x != [] && y != [] {
      SplitJoin(x, ',');
      SplitJoin(y, ',');
    }
  }

  lemma PartsOfKey(a: Args, b: Args, c: Codec)
    requires Readable(a, c) && Readable(b, c) && Apart(a, b, c) && BarFree(a, c) && BarFree(b, c)
    requires CacheKey(a, c) == CacheKey(b, c)
    ensures TextOf(a.instructions, c) == TextOf(b.instructions, c) && TextOf(a.tools, c) == TextOf(b.tools, c)
    ensures a.model == b.model && a.config == b.config && ProvidersText(a) == ProvidersText(b)
  {
    var s, t := TextOf(a.instructions, c), TextOf(b.instructions, c);
    var u, v := TextOf(a.tools, c), TextOf(b.tools, c);
    assert [s, u, a.model] + Tail(a, c) == [s] + ([u] + ([a.model] + Tail(a, c)));
    assert [t, v, b.model] + Tail(b, c) == [t] + ([v] + ([b.model] + Tail(b, c)));
    HeadAndRest(s, t, [u] + ([a.model] + Tail(a, c)), [v] + ([b.model] + Tail(b, c)));
    HeadAndRest(u, v, [a.model] + Tail(a, c), [b.model] + Tail(b, c));
    HeadAndRest(a.model, b.model, Tail(a, c), Tail(b, c));
    ConfigOfTail(a, b, c);
  }

  /** Equal keys mean equal payloads when no bar is in the instructions, the tools' text or the model, and no comma in
      a provider that matters. Bars in the configuration and in providers do no harm. */
  lemma KeyDeterminesPayload(a: Args, b: Args, c: Codec)
    requires Readable(a, c) && Readable(b, c) && Apart(a, b, c)
    requires BarFree(a, c) && BarFree(b, c) && CommaFree(a) && CommaFree(b)
    requires CacheKey(a, c) == CacheKey(b, c)
    ensures Payload(a, c) == Payload(b, c)
  {
    PartsOfKey(a, b, c);
    if SettingsOf(a).provider == "" {
      ProvidersOfText(a, b);
    }
    assert PartsOf(a, c) == PartsOf(b, c);
  }

  // ---------------------------------------------------------------- keys that do not

  lemma {:induction false} JoinMerged(l: seq<string>, x: string, y: string, r: seq<string>)
    ensures Join(l + [x + ['|'] + y] + r, '|') == Join(l + [x, y] + r, '|')
  {
    if l == [] {
      var m := x + ['|'] + y;
      assert l + [m] + r == [m] + r && l + [x, y] + r == [x] + ([y] + r);
      assert ([x] + ([y] + r))[1..] == [y] + r;
      assert ([y] + r)[1..] == r && ([m] + r)[1..] == r;
      if r != [] {
        assert m + ['|'] + Join(r, '|') == x + ['|'] + (y + ['|'] + Join(r, '|'));
      }
    } else {
      assert (l + [x + ['|'] + y] + r)[1..] == l[1..] + [x + ['|'] + y] + r;
      assert (l + [x, y] + r)[1..] == l[1..] + [x, y] + r;
      JoinMerged(l[1..], x, y, r);
    }
  }

  /** The parts of a key can be cut elsewhere: at a bar within one. */
  lemma Recut(p: string, q: string, x: string, y: string, r: seq<string>)
    ensures Join([p + ['|'] + q, x, y] + r, '|') == Join([p, q + ['|'] + x, y] + r, '|')
  {
    JoinMerged([], p, q, [x, y] + r);
    JoinMerged([p], q, x, [y] + r);
    assert [] + [p + ['|'] + q] + ([x, y] + r) == [p + ['|'] + q, x, y] + r;
    assert [] + [p, q] + ([x, y] + r) == [p] + [q, x] + ([y] + r);
    assert [p] + [q + ['|'] + x] + ([y] + r) == [p, q + ['|'] + x, y] + r;
  }

  lemma RecutModel(p: string, x: string, q: string, y: string, r: seq<string>)
    ensures Join([p, x, q + ['|'] + y] + r, '|') == Join([p + ['|'] + x, q, y] + r, '|')
  {
    JoinMerged([p, x], q, y, r);
    JoinMerged([], p, x, [q, y] + r);
    assert [] + [p, x] + ([q, y] + r) == [p, x] + [q, y] + r;
    assert [p, x] + [q + ['|'] + y] + r == [p, x, q + ['|'] + y] + r;
    assert [] + [p + ['|'] + x] + ([q, y] + r) == [p + ['|'] + x, q, y] + r;
  }

  lemma BarTells(a: Args, b: Args, c: Codec)
    requires '|' in TextOf(a.instructions, c) <==> '|' !in TextOf(b.instructions, c)
    ensures Payload(a, c) != Payload(b, c)
  {
    Words.NormalizeKeeps(TextOf(a.instructions, c), '|', JsSpace);
    Words.NormalizeKeeps(TextOf(b.instructions, c), '|', JsSpace);
    if Payload(a, c) == Payload(b, c) {
      PromptShows(PartsOf(a, c), PartsOf(b, c));
    }
  }

  /** Every call with a bar in one of those parts shares its key with a call that hashes something else. */
  lemma BarsCollide(a: Args, c: Codec) returns (b: Args)
    requires !BarFree(a, c)
    ensures CacheKey(a, c) == CacheKey(b, c) && Payload(a, c) != Payload(b, c)
  {
    var s, t, m, r := TextOf(a.instructions, c), TextOf(a.tools, c), a.model, Tail(a, c);
    if '|' in s {
      var i := IndexOf(s, '|');
      assert s == s[..i] + ['|'] + s[i + 1..];
      Recut(s[..i], s[i + 1..], t, m, r);
      b := a.(instructions := Plain(s[..i]), tools := Plain(s[i + 1..] + ['|'] + t));
    } else if '|' in t {
      var i := IndexOf(t, '|');
      assert t == t[..i] + ['|'] + t[i + 1..];
      Recut(s, t[..i], t[i + 1..], m, r);
      b := a.(instructions := Plain(s + ['|'] + t[..i]), tools := Plain(t[i + 1..]));
    } else {
      var i := IndexOf(m, '|');
      assert m == m[..i] + ['|'] + m[i + 1..];
      RecutModel(s, t, m[..i], m[i + 1..], r);
      b := a.(instructions := Plain(s + ['|'] + t), tools := Plain(m[..i]), model := m[i + 1..]);
    }
    BarTells(a, b, c);
  }

  /** Nor do keys tell a list of providers from one provider with commas: every call whose provider is the first of
      several shares its key with the call that names their join, and hashes something else. */
  lemma CommasCollide(a: Args, c: Codec) returns (b: Args)
    requires SettingsOf(a).provider == "" && |NonEmpty(a.providers)| >= 2
    ensures b == a.(providers := [ProvidersText(a)])
    ensures CacheKey(a, c) == CacheKey(b, c) && Payload(a, c) != Payload(b, c)
  {
    var sorted, joined := SortedProviders(a.providers), ProvidersText(a);
    b := a.(providers := [joined]);
    LessIsStrict();
    SortFacts(Named(NonEmpty(a.providers)), Less);
    assert joined == sorted[0] + [','] + Join(sorted[1..], ',');
    assert NonEmpty([joined]) == [joined];
    assert SortBy(Named([joined]), Less) == [Field(joined, JNull)];
    assert SortedProviders(b.providers) == [joined];
    assert Provider(a) == sorted[0] && Provider(b) == joined && |joined| > |sorted[0]|;
    if Payload(a, c) == Payload(b, c) {
      ProviderShows(PartsOf(a, c), PartsOf(b, c));
    }
  }

  lemma {:induction false} NonEmptyKeeps(ps: seq<string>, p: string)
    requires p in ps && p != ""
    ensures p in NonEmpty(ps)
  {
    if p != ps[0] {
      NonEmptyKeeps(ps[1..], p);
    }
  }

  /** The provider that is hashed: the configured one, or else the least of those given that are not empty. */
  lemma ProviderIs(a: Args)
    ensures SettingsOf(a).provider != "" ==> Provider(a) == SettingsOf(a).provider
    ensures SettingsOf(a).provider == "" ==>
              if exists p | p in a.providers :: p != ""
              then Provider(a) in a.providers && Provider(a) != "" &&
                   forall p | p in a.providers && p != "" :: !Less(p, Provider(a))
              else Provider(a) == ""
  {
    var kept, sorted := NonEmpty(a.providers), SortBy(Named(NonEmpty(a.providers)), Less);
    LessIsStrict();
    SortFacts(Named(kept), Less);
    SortIsStable(Named(kept), Less, "");
    SortedProvidersFacts(a.providers);
    forall p | p in a.providers && p != "" ensures kept != [] && !Less(p, SortedProviders(a.providers)[0]) {
      NonEmptyKeeps(a.providers, p);
      var i :| 0 <= i < |kept| && kept[i] == p;
      assert Named(kept)[i] in sorted;
      var j :| 0 <= j < |sorted| && sorted[j] == Named(kept)[i];
    }
    assert SortedProviders(a.providers) != [] ==> SortedProviders(a.providers)[0] in SortedProviders(a.providers);
  }
}
