/** Prices of tokens, over the reals. */
module Pricing {
  import opened Text

  /** Dollars for a million tokens. */
  datatype Rate = Rate(input: real, output: real, cachedRead: real, cacheCreation: real)

  /** A row of the table: the rate of every model whose name contains one of the patterns. */
  datatype Row = Row(patterns: seq<string>, rate: Rate)

  const ZERO := Rate(0.0, 0.0, 0.0, 0.0)
  const MILLION := 1_000_000.0

  // ---------------------------------------------------------------- finding the rate

  predicate AnyIn(patterns: seq<string>, model: string) {
    patterns != [] && (Contains(model, patterns[0]) || AnyIn(patterns[1..], model))
  }

  function Lookup(model: string, table: seq<Row>): Rate {
    if table == [] then ZERO
    else if AnyIn(table[0].patterns, Lower(model)) then table[0].rate
    else Lookup(model, table[1..])
  }

  lemma {:induction false} AnyInIff(patterns: seq<string>, model: string)
    ensures AnyIn(patterns, model) <==> exists i :: 0 <= i < |patterns| && Contains(model, patterns[i])
  {
    if patterns != [] {
      AnyInIff(patterns[1..], model);
      assert forall i | 0 <= i < |patterns[1..]| :: patterns[1..][i] == patterns[i + 1];
      if i :| 0 <= i < |patterns| && Contains(model, patterns[i]) {
        assert i == 0 || patterns[1..][i - 1] == patterns[i];
      }
    }
  }

  ghost predicate Applies(r: Row, model: string) {
    exists i :: 0 <= i < |r.patterns| && Contains(Lower(model), r.patterns[i])
  }

  lemma {:induction false} LookupAt(model: string, table: seq<Row>, i: nat)
    requires i < |table| && Applies(table[i], model) && forall j | 0 <= j < i :: !Applies(table[j], model)
    ensures Lookup(model, table) == table[i].rate
  {
    AnyInIff(table[0].patterns, Lower(model));
    if i > 0 {
      var rest := table[1..];
      assert !Applies(table[0], model);
      assert forall j | 0 <= j < i - 1 :: rest[j] == table[j + 1];
      LookupAt(model, rest, i - 1);
    }
  }

  lemma {:induction false} LookupNone(model: string, table: seq<Row>)
    requires forall i | 0 <= i < |table| :: !Applies(table[i], model)
    ensures Lookup(model, table) == ZERO
  {
    if table != [] {
      AnyInIff(table[0].patterns, Lower(model));
      assert forall i | 0 <= i < |table[1..]| :: table[1..][i] == table[i + 1];
      LookupNone(model, table[1..]);
    }
  }

  /** The first row that applies gives the rate; with none, everything is free. */
  lemma LookupIsFirst(model: string, table: seq<Row>)
    ensures forall i | 0 <= i < |table| && Applies(table[i], model)
                       && (forall j | 0 <= j < i :: !Applies(table[j], model)) ::
              Lookup(model, table) == table[i].rate
    ensures (forall i | 0 <= i < |table| :: !Applies(table[i], model)) ==> Lookup(model, table) == ZERO
  {
    forall i | 0 <= i < |table| && Applies(table[i], model) && (forall j | 0 <= j < i :: !Applies(table[j], model))
      ensures Lookup(model, table) == table[i].rate
    {
      LookupAt(model, table, i);
    }
    if forall i | 0 <= i < |table| :: !Applies(table[i], model) {
      LookupNone(model, table);
    }
  }

  // ---------------------------------------------------------------- the cost

  /** Tokens of one request; the input includes what was read from and written to the cache. */
  datatype Tokens = Tokens(input: int, output: int, cacheRead: int, cacheCreation: int)

  function ReadRate(r: Rate): real {
    if r.cachedRead != 0.0 then r.cachedRead else r.input
  }

  function CreationRate(r: Rate, cacheCreation: int): real {
    if r.cacheCreation == 0.0 && cacheCreation > 0 then r.input else r.cacheCreation
  }

  function FreshInput(t: Tokens): (n: int)
    ensures n >= 0
  {
    var n := t.input - t.cacheRead - t.cacheCreation;
    if n > 0 then n else 0
  }

  function Cost(r: Rate, t: Tokens): real {
    if r.input == 0.0 && r.output == 0.0 then 0.0
    else (FreshInput(t) as real * r.input + t.cacheRead as real * ReadRate(r)
          + t.cacheCreation as real * CreationRate(r, t.cacheCreation) + t.output as real * r.output) / MILLION
  }

  datatype Breakdown = Breakdown(uncached: real, read: real, creation: real, output: real, total: real)

  function CostBreakdown(r: Rate, t: Tokens): Breakdown {
    var uncached := FreshInput(t) as real * r.input / MILLION;
    var read := t.cacheRead as real * ReadRate(r) / MILLION;
    var creation := t.cacheCreation as real * CreationRate(r, t.cacheCreation) / MILLION;
    var output := t.output as real * r.output / MILLION;
    Breakdown(uncached, read, creation, output, uncached + read + creation + output)
  }

  /** The breakdown sums to the cost exactly when the rate is not free of input and output, or nothing is due for the
      cache: a rate of cache prices alone is broken down, but costs nothing. */
  lemma BreakdownIsCostIff(r: Rate, t: Tokens)
    ensures CostBreakdown(r, t).total == Cost(r, t) <==>
            !(r.input == 0.0 && r.output == 0.0)
            || t.cacheRead as real * r.cachedRead + t.cacheCreation as real * r.cacheCreation == 0.0
  {
    var f, c := FreshInput(t) as real * r.input, t.cacheRead as real * ReadRate(r);
    var w, o := t.cacheCreation as real * CreationRate(r, t.cacheCreation), t.output as real * r.output;
    SumOfParts(f, c, w, o);
    if r.input == 0.0 && r.output == 0.0 {
      assert f == 0.0 && o == 0.0;
      assert c == t.cacheRead as real * r.cachedRead;
      assert w == t.cacheCreation as real * r.cacheCreation;
    }
  }

  lemma SumOfParts(f: real, c: real, w: real, o: real)
    ensures f / MILLION + c / MILLION + w / MILLION + o / MILLION == (f + c + w + o) / MILLION
    ensures (f + c + w + o) / MILLION == 0.0 <==> f + c + w + o == 0.0
  {
  }

  /** No premium for long contexts: the costs of requests whose input covers their cache tokens add up. */
  lemma CostIsAdditive(r: Rate, s: Tokens, t: Tokens)
    requires s.input >= s.cacheRead + s.cacheCreation && t.input >= t.cacheRead + t.cacheCreation
    requires s.cacheCreation >= 0 && t.cacheCreation >= 0
    ensures Cost(r, Tokens(s.input + t.input, s.output + t.output, s.cacheRead + t.cacheRead,
                           s.cacheCreation + t.cacheCreation)) == Cost(r, s) + Cost(r, t)
  {
    var u := Tokens(s.input + t.input, s.output + t.output, s.cacheRead + t.cacheRead,
                    s.cacheCreation + t.cacheCreation);
    assert FreshInput(u) == FreshInput(s) + FreshInput(t);
    if !(r.input == 0.0 && r.output == 0.0) {
      Distribute(FreshInput(s), FreshInput(t), r.input);
      Distribute(s.cacheRead, t.cacheRead, ReadRate(r));
      Distribute(s.output, t.output, r.output);
    }
  }

  lemma Distribute(m: int, n: int, x: real)
    ensures (m + n) as real * x == m as real * x + n as real * x
  {
    assert (m + n) as real == m as real + n as real;
  }

  /** Each kind of token is charged its own rate, by the million: fresh input and output at theirs, cache reads at the
      cached rate or, if there is none, as input, and cache writes likewise. */
  lemma CostOfEachKind(r: Rate, n: nat)
    requires !(r.input == 0.0 && r.output == 0.0)
    ensures Cost(r, Tokens(n, 0, 0, 0)) == n as real * r.input / 1000000.0
    ensures Cost(r, Tokens(0, n, 0, 0)) == n as real * r.output / 1000000.0
    ensures Cost(r, Tokens(n, 0, n, 0)) ==
            n as real * (if r.cachedRead != 0.0 then r.cachedRead else r.input) / 1000000.0
    ensures Cost(r, Tokens(n, 0, 0, n)) ==
            n as real * (if r.cacheCreation != 0.0 then r.cacheCreation else r.input) / 1000000.0
  {
  }

  /** The parts of the breakdown are the costs of the four kinds alone. */
  lemma BreakdownByKind(r: Rate, t: Tokens)
    requires !(r.input == 0.0 && r.output == 0.0) && t.cacheRead >= 0 && t.cacheCreation >= 0
    ensures var b := CostBreakdown(r, t);
            && b.uncached == Cost(r, Tokens(FreshInput(t), 0, 0, 0))
            && b.read == Cost(r, Tokens(t.cacheRead, 0, t.cacheRead, 0))
            && b.creation == Cost(r, Tokens(t.cacheCreation, 0, 0, t.cacheCreation))
            && b.output == Cost(r, Tokens(0, t.output, 0, 0))
  {
  }
}
