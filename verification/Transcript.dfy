/** The turns of a transcript and what they cost. */
module Transcript {
  import opened Base
  import opened Pricing

  /** A line that is an object; missing texts are "" and missing numbers 0. */
  datatype Line = Line(kind: string, requestId: string, uuid: string, model: string, input: int, output: int,
                       cacheCreation: int, cacheRead: int)

  datatype Turn = Turn(model: string, uncached: int, output: int, cacheCreation: int, cacheRead: int, requestId: string,
                       uuid: string)

  const ASSISTANT := "assistant"

  function KeyOf(o: Line): string {
    if o.requestId != "" then o.requestId else "uuid:" + o.uuid
  }

  function TurnOf(o: Line): Turn {
    Turn(o.model, o.input, o.output, o.cacheCreation, o.cacheRead, o.requestId, o.uuid)
  }

  predicate Counts(o: Line) {
    o.kind == ASSISTANT
  }

  /** The keys of the assistant's lines, each once, in the order first seen. */
  function Keys(lines: seq<Line>): seq<string> {
    if lines == [] then []
    else
      var before, o := Keys(lines[..|lines| - 1]), lines[|lines| - 1];
      if Counts(o) && KeyOf(o) !in before then before + [KeyOf(o)] else before
  }

  /** The last of the assistant's lines with this key. */
  function Last(lines: seq<Line>, k: string): Option<Line> {
    if lines == [] then None
    else
      var o := lines[|lines| - 1];
      if Counts(o) && KeyOf(o) == k then Some(o) else Last(lines[..|lines| - 1], k)
  }

  lemma {:induction false} KeysIff(lines: seq<Line>, k: string)
    ensures k in Keys(lines) <==> Last(lines, k).Some?
    ensures k in Keys(lines) <==> exists o | o in lines :: Counts(o) && KeyOf(o) == k
  {
    if lines != [] {
      var init, o := lines[..|lines| - 1], lines[|lines| - 1];
      assert lines == init + [o];
      KeysIff(init, k);
    }
  }

  lemma KeysHaveLast(lines: seq<Line>)
    ensures forall i | 0 <= i < |Keys(lines)| :: Last(lines, Keys(lines)[i]).Some?
  {
    forall i | 0 <= i < |Keys(lines)| ensures Last(lines, Keys(lines)[i]).Some? {
      KeysIff(lines, Keys(lines)[i]);
    }
  }

  /** One turn for each key, from the last line with that key. */
  function Turns(lines: seq<Line>): (ts: seq<Turn>)
    ensures |ts| == |Keys(lines)|
    ensures forall i | 0 <= i < |ts| :: Last(lines, Keys(lines)[i]).Some?
                                        && ts[i] == TurnOf(Last(lines, Keys(lines)[i]).value)
  {
    KeysHaveLast(lines);
    seq(|Keys(lines)|, i requires 0 <= i < |Keys(lines)| && Last(lines, Keys(lines)[i]).Some? =>
      TurnOf(Last(lines, Keys(lines)[i]).value))
  }

  /** A line of the file as it parses. */
  datatype RawLine = NotJson | NotAnObject | Object(line: Line)

  function Parsed(raw: seq<RawLine>): seq<Line> {
    if raw == [] then []
    else
      var before, last := Parsed(raw[..|raw| - 1]), raw[|raw| - 1];
      if last.Object? then before + [last.line] else before
  }

  /** Some line is JSON but no object, on which the source raises. */
  predicate Raises(raw: seq<RawLine>) {
    NotAnObject in raw
  }

  /** The first loop skips lines that are no JSON. */
  method ParseLines(raw: seq<RawLine>) returns (lines: seq<RawLine>)
    ensures Parsed(lines) == Parsed(raw) && (Raises(lines) <==> Raises(raw)) && NotJson !in lines
  {
    lines := [];
    for i := 0 to |raw|
      invariant Parsed(lines) == Parsed(raw[..i]) && (Raises(lines) <==> Raises(raw[..i])) && NotJson !in lines
    {
      assert raw[..i + 1][..i] == raw[..i] && raw[..i + 1] == raw[..i] + [raw[i]];
      if raw[i].NotJson? {
        continue;
      }
      assert (lines + [raw[i]])[..|lines|] == lines;
      lines := lines + [raw[i]];
    }
    assert raw[..|raw|] == raw;
  }

  /** The second loop: the keys in order, and the last line of each. */
  method GroupByKey(lines: seq<RawLine>) returns (raised: bool, byKey: map<string, Line>, order: seq<string>)
    requires NotJson !in lines
    ensures raised <==> Raises(lines)
    ensures !raised ==> order == Keys(Parsed(lines))
    ensures !raised ==> forall k | k in order :: k in byKey && Last(Parsed(lines), k) == Some(byKey[k])
  {
    byKey, order := map[], [];
    for i := 0 to |lines|
      invariant !Raises(lines[..i]) && order == Keys(Parsed(lines[..i]))
      invariant forall k :: k in byKey <==> k in order
      invariant forall k | k in byKey :: Last(Parsed(lines[..i]), k) == Some(byKey[k])
    {
      assert lines[..i + 1][..i] == lines[..i] && lines[..i + 1] == lines[..i] + [lines[i]];
      if lines[i].NotAnObject? {
        return true, byKey, order;
      }
      var o := lines[i].line;
      ghost var before := Parsed(lines[..i]);
      assert Parsed(lines[..i + 1]) == before + [o] && (before + [o])[..|before|] == before;
      if o.kind != ASSISTANT {
        continue;
      }
      var key := KeyOf(o);
      if key !in byKey {
        order := order + [key];
      }
      byKey := byKey[key := o];
    }
    assert lines[..|lines|] == lines;
    raised := false;
  }

  /** _coalesce; a missing file has no turns. */
  method Coalesce(file: Option<seq<RawLine>>) returns (raised: bool, turns: seq<Turn>)
    ensures raised <==> file.Some? && Raises(file.value)
    ensures !raised ==> turns == if file.None? then [] else Turns(Parsed(file.value))
  {
    if file.None? {
      return false, [];
    }
    var lines := ParseLines(file.value);
    var byKey, order;
    raised, byKey, order := GroupByKey(lines);
    turns := [];
    if raised {
      return;
    }
    for i := 0 to |order|
      invariant |turns| == i && forall j | 0 <= j < i :: turns[j] == TurnOf(byKey[order[j]])
    {
      assert order[i] in order;
      turns := turns + [TurnOf(byKey[order[i]])];
    }
  }

  // ---------------------------------------------------------------- one turn for each request

  lemma {:induction false} KeysDistinct(lines: seq<Line>)
    ensures Distinct(Keys(lines))
  {
    if lines != [] {
      KeysDistinct(lines[..|lines| - 1]);
    }
  }

  /** Keys that were seen before stay where they are. */
  lemma {:induction false} KeysGrow(a: seq<Line>, b: seq<Line>)
    ensures Keys(a) <= Keys(a + b)
  {
    if b == [] {
      assert a + b == a;
    } else {
      assert (a + b)[..|a + b| - 1] == a + b[..|b| - 1];
      KeysGrow(a, b[..|b| - 1]);
    }
  }

  lemma {:induction false} LastOfConcat(a: seq<Line>, b: seq<Line>, k: string)
    ensures Last(a + b, k) == if Last(b, k).Some? then Last(b, k) else Last(a, k)
  {
    if b == [] {
      assert a + b == a;
    } else {
      assert (a + b)[..|a + b| - 1] == a + b[..|b| - 1];
      LastOfConcat(a, b[..|b| - 1], k);
    }
  }

  /** A line whose key was seen before adds no key. */
  lemma {:induction false} KeysOfInserted(a: seq<Line>, o: Line, b: seq<Line>)
    requires Counts(o) ==> KeyOf(o) in Keys(a)
    ensures Keys(a + [o] + b) == Keys(a + b)
  {
    if b == [] {
      assert a + [o] + b == a + [o] && a + b == a && (a + [o])[..|a|] == a;
    } else {
      var init := b[..|b| - 1];
      assert (a + [o] + b)[..|a + [o] + b| - 1] == a + [o] + init;
      assert (a + b)[..|a + b| - 1] == a + init;
      KeysOfInserted(a, o, init);
    }
  }

  lemma LastOfInserted(a: seq<Line>, o: Line, b: seq<Line>, k: string)
    ensures Last(a + [o] + b, k) ==
            if Last(b, k).Some? then Last(b, k) else if Counts(o) && KeyOf(o) == k then Some(o) else Last(a, k)
  {
    LastOfConcat(a + [o], b, k);
    LastOfConcat(a, [o], k);
  }

  /** Another fragment of a request already seen changes nothing exactly when a later one of the request follows, or it
      says the same as the last one. */
  lemma RepeatIsIdleIff(a: seq<Line>, o: Line, b: seq<Line>)
    requires Counts(o) && KeyOf(o) in Keys(a)
    ensures Turns(a + [o] + b) == Turns(a + b) <==>
            Last(b, KeyOf(o)).Some? || (Last(a, KeyOf(o)).Some? && TurnOf(o) == TurnOf(Last(a, KeyOf(o)).value))
  {
    var k, with, without := KeyOf(o), a + [o] + b, a + b;
    var keys := Keys(without);
    KeysOfInserted(a, o, b);
    KeysIff(a, k);
    var idle := Last(b, k).Some? || TurnOf(o) == TurnOf(Last(a, k).value);
    LastOfInserted(a, o, b, k);
    LastOfConcat(a, b, k);
    forall i | 0 <= i < |keys| ensures Turns(with)[i] == Turns(without)[i] <==> keys[i] != k || idle {
      LastOfInserted(a, o, b, keys[i]);
      LastOfConcat(a, b, keys[i]);
    }
    KeysIff(without, k);
    var i :| 0 <= i < |keys| && keys[i] == k;
    assert Turns(with) == Turns(without) <==> forall j | 0 <= j < |keys| :: Turns(with)[j] == Turns(without)[j];
  }

  // ---------------------------------------------------------------- billing

  function TokensOf(t: Turn): Tokens {
    Tokens(t.uncached + t.cacheRead + t.cacheCreation, t.output, t.cacheRead, t.cacheCreation)
  }

  datatype Metrics = Metrics(requestId: string, model: string, uncached: int, tokens: Tokens, total: int, cost: real)

  function TurnMetrics(t: Turn, table: seq<Row>): Metrics {
    var n := TokensOf(t);
    Metrics(if t.requestId != "" then t.requestId else t.uuid, t.model, t.uncached, n, n.input + n.output,
            Cost(Lookup(t.model, table), n))
  }

  /** The metrics of the turns that carry usage. */
  function AgentMetrics(turns: seq<Turn>, table: seq<Row>): seq<Metrics> {
    if turns == [] then []
    else
      var before, m := AgentMetrics(turns[..|turns| - 1], table), TurnMetrics(turns[|turns| - 1], table);
      if m.tokens.input + m.tokens.output > 0 then before + [m] else before
  }

  function TotalCost(ms: seq<Metrics>): real {
    if ms == [] then 0.0 else TotalCost(ms[..|ms| - 1]) + ms[|ms| - 1].cost
  }

  function TotalTokens(ms: seq<Metrics>): int {
    if ms == [] then 0 else TotalTokens(ms[..|ms| - 1]) + ms[|ms| - 1].total
  }

  predicate NonNegative(t: Turn) {
    t.uncached >= 0 && t.output >= 0 && t.cacheCreation >= 0 && t.cacheRead >= 0
  }

  /** The four tiers of a turn at their rates; nothing at a rate without input and output prices. */
  function Tiers(t: Turn, r: Rate): real {
    if r.input == 0.0 && r.output == 0.0 then 0.0
    else (t.uncached as real * r.input + t.cacheRead as real * ReadRate(r)
          + t.cacheCreation as real * CreationRate(r, t.cacheCreation) + t.output as real * r.output) / MILLION
  }

  function SumOfTiers(turns: seq<Turn>, table: seq<Row>): real {
    if turns == [] then 0.0
    else
      var t := turns[|turns| - 1];
      SumOfTiers(turns[..|turns| - 1], table) + Tiers(t, Lookup(t.model, table))
  }

  function SumOfTokens(turns: seq<Turn>): int {
    if turns == [] then 0
    else
      var t := turns[|turns| - 1];
      SumOfTokens(turns[..|turns| - 1]) + t.uncached + t.cacheRead + t.cacheCreation + t.output
  }

  /** What is billed as uncached input is what the turn says, exactly when that is not negative. */
  lemma NeverClampedIff(t: Turn)
    ensures FreshInput(TokensOf(t)) == t.uncached <==> t.uncached >= 0
  {
  }

  lemma CostOfTurn(t: Turn, r: Rate)
    requires NonNegative(t)
    ensures Cost(r, TokensOf(t)) == Tiers(t, r)
    ensures TokensOf(t).input + t.output == 0 ==> Tiers(t, r) == 0.0
  {
    NeverClampedIff(t);
  }

  /** The cost of an agent is the sum of the tiers of all its turns, also of those dropped for carrying no usage, and
      every token counts once. */
  lemma {:induction false} CostIsSumOfTiers(turns: seq<Turn>, table: seq<Row>)
    requires forall i | 0 <= i < |turns| :: NonNegative(turns[i])
    ensures TotalCost(AgentMetrics(turns, table)) == SumOfTiers(turns, table)
    ensures TotalTokens(AgentMetrics(turns, table)) == SumOfTokens(turns)
  {
    if turns != [] {
      var init, t := turns[..|turns| - 1], turns[|turns| - 1];
      CostIsSumOfTiers(init, table);
      CostOfTurn(t, Lookup(t.model, table));
      AddMetrics(AgentMetrics(init, table), TurnMetrics(t, table));
    }
  }

  lemma AddMetrics(ms: seq<Metrics>, m: Metrics)
    ensures TotalCost(ms + [m]) == TotalCost(ms) + m.cost && TotalTokens(ms + [m]) == TotalTokens(ms) + m.total
  {
    assert (ms + [m])[..|ms|] == ms;
  }

  /** The cost of a transcript bills each request once, at the usage of its last fragment. */
  lemma TranscriptCost(lines: seq<Line>, table: seq<Row>)
    requires forall o | o in lines :: NonNegative(TurnOf(o))
    ensures TotalCost(AgentMetrics(Turns(lines), table)) == SumOfTiers(Turns(lines), table)
    ensures TotalTokens(AgentMetrics(Turns(lines), table)) == SumOfTokens(Turns(lines))
  {
    var turns := Turns(lines);
    forall i | 0 <= i < |turns| ensures NonNegative(turns[i]) {
      LastIn(lines, Keys(lines)[i]);
    }
    CostIsSumOfTiers(turns, table);
  }

  lemma {:induction false} LastIn(lines: seq<Line>, k: string)
    requires Last(lines, k).Some?
    ensures Last(lines, k).value in lines
  {
    var o := lines[|lines| - 1];
    if !(Counts(o) && KeyOf(o) == k) {
      LastIn(lines[..|lines| - 1], k);
    }
  }

  /** Every turn carries the numbers of its request's last line, kind by kind. */
  lemma TurnsCarryLines(lines: seq<Line>, i: nat)
    requires i < |Turns(lines)|
    ensures var t, o := Turns(lines)[i], Last(lines, Keys(lines)[i]);
            && o.Some? && o.value in lines && o.value.kind == "assistant"
            && t.model == o.value.model && t.requestId == o.value.requestId && t.uuid == o.value.uuid
            && t.uncached == o.value.input && t.output == o.value.output
            && t.cacheRead == o.value.cacheRead && t.cacheCreation == o.value.cacheCreation
            && Keys(lines)[i] == if t.requestId != "" then t.requestId else "uuid:" + t.uuid
  {
    LastIn(lines, Keys(lines)[i]);
    LastHasKey(lines, Keys(lines)[i]);
  }

  lemma {:induction false} LastHasKey(lines: seq<Line>, k: string)
    requires Last(lines, k).Some?
    ensures KeyOf(Last(lines, k).value) == k && Counts(Last(lines, k).value)
  {
    var o := lines[|lines| - 1];
    if !(Counts(o) && KeyOf(o) == k) {
      LastHasKey(lines[..|lines| - 1], k);
    }
  }

  /** The bill of one line: its tokens at the rates of its model. */
  function LineBill(o: Line, table: seq<Row>): real {
    var r := Lookup(o.model, table);
    if r.input == 0.0 && r.output == 0.0 then 0.0
    else
      var read := if r.cachedRead != 0.0 then r.cachedRead else r.input;
      var creation := if r.cacheCreation != 0.0 then r.cacheCreation else r.input;
      (o.input as real * r.input + o.output as real * r.output + o.cacheRead as real * read
       + o.cacheCreation as real * creation) / 1000000.0
  }

  function SumOfBills(lines: seq<Line>, keys: seq<string>, table: seq<Row>): real
    requires forall k | k in keys :: Last(lines, k).Some?
  {
    if keys == [] then 0.0
    else SumOfBills(lines, keys[..|keys| - 1], table) + LineBill(Last(lines, keys[|keys| - 1]).value, table)
  }

  lemma TiersOfLine(o: Line, table: seq<Row>)
    requires NonNegative(TurnOf(o))
    ensures Tiers(TurnOf(o), Lookup(o.model, table)) == LineBill(o, table)
  {
  }

  lemma {:induction false} SumOfTiersIsSumOfBills(lines: seq<Line>, ts: seq<Turn>, keys: seq<string>, table: seq<Row>)
    requires forall k | k in keys :: Last(lines, k).Some?
    requires |ts| == |keys| && forall i | 0 <= i < |ts| :: ts[i] == TurnOf(Last(lines, keys[i]).value)
    requires forall o | o in lines :: NonNegative(TurnOf(o))
    ensures SumOfTiers(ts, table) == SumOfBills(lines, keys, table)
  {
    if ts != [] {
      var n := |ts| - 1;
      LastIn(lines, keys[n]);
      TiersOfLine(Last(lines, keys[n]).value, table);
      SumOfTiersIsSumOfBills(lines, ts[..n], keys[..n], table);
    }
  }

  /** So the cost of a transcript is the sum of the bills of the last line of each request. */
  lemma TranscriptIsBilledByLine(lines: seq<Line>, table: seq<Row>)
    requires forall o | o in lines :: NonNegative(TurnOf(o))
    ensures forall k | k in Keys(lines) :: Last(lines, k).Some?
    ensures TotalCost(AgentMetrics(Turns(lines), table)) == SumOfBills(lines, Keys(lines), table)
  {
    KeysHaveLast(lines);
    TranscriptCost(lines, table);
    SumOfTiersIsSumOfBills(lines, Turns(lines), Keys(lines), table);
  }

  /** The metrics are those of the turns with tokens, in order, each under its request or else its uuid. */
  lemma {:induction false} MetricsCarryTurns(turns: seq<Turn>, table: seq<Row>)
    ensures forall m | m in AgentMetrics(turns, table) ::
              exists t | t in turns ::
                && m.requestId == (if t.requestId != "" then t.requestId else t.uuid)
                && m.model == t.model && m.uncached == t.uncached
                && m.tokens == Tokens(t.uncached + t.cacheRead + t.cacheCreation, t.output, t.cacheRead,
                                      t.cacheCreation)
                && m.total == t.uncached + t.cacheRead + t.cacheCreation + t.output > 0
    ensures (forall t | t in turns :: t.uncached + t.cacheRead + t.cacheCreation + t.output > 0) ==>
              |AgentMetrics(turns, table)| == |turns|
  {
    if turns != [] {
      var init, t := turns[..|turns| - 1], turns[|turns| - 1];
      MetricsCarryTurns(init, table);
      assert turns == init + [t];
    }
  }
}
