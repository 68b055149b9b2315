/** The memo of fingerprints: a JavaScript map in insertion order, used as a least-recently-used cache. */
module VersionCache {
  import opened Base
  import opened Fingerprint
  import opened FingerprintKey
  import opened JsonValues
  import Text

  const MAX := 256

  datatype Entry = Entry(key: string, value: string)

  /** A call: its cache key (None when the inputs have no text) and its uncached hash (None when computing it throws). */
  datatype Call = Call(key: Option<string>, hash: Option<string>)

  // ---------------------------------------------------------------- the map

  function Get(es: seq<Entry>, k: string): Option<string> {
    if es == [] then None else if es[0].key == k then Some(es[0].value) else Get(es[1..], k)
  }

  function Delete(es: seq<Entry>, k: string): seq<Entry> {
    if es == [] then [] else if es[0].key == k then es[1..] else [es[0]] + Delete(es[1..], k)
  }

  /** A present key keeps its place; a new one goes last. */
  function Put(es: seq<Entry>, k: string, v: string): seq<Entry> {
    if es == [] then [Entry(k, v)]
    else if es[0].key == k then [Entry(k, v)] + es[1..]
    else [es[0]] + Put(es[1..], k, v)
  }

  // ---------------------------------------------------------------- one call

  /** null and the empty key are both passed over. */
  predicate Usable(c: Call) {
    c.key.Some? && c.key.value != ""
  }

  predicate Hit(es: seq<Entry>, c: Call) {
    Usable(c) && Get(es, c.key.value).Some?
  }

  function Uncached(c: Call): string {
    if c.hash.Some? then c.hash.value else ""
  }

  function Result(es: seq<Entry>, c: Call): string {
    if Hit(es, c) then Get(es, c.key.value).value else Uncached(c)
  }

  function Next(es: seq<Entry>, c: Call): seq<Entry> {
    if Hit(es, c) then Put(Delete(es, c.key.value), c.key.value, Get(es, c.key.value).value)
    else if !Usable(c) || c.hash.None? then es
    else
      var added := Put(es, c.key.value, c.hash.value);
      if |added| > MAX then Delete(added, added[0].key) else added
  }

  class Helper {
    var versionHashCache: seq<Entry>

    constructor ()
      ensures versionHashCache == []
    {
      versionHashCache := [];
    }

    method ComputeAgentVersionHash(c: Call) returns (r: string)
      modifies this
      ensures versionHashCache == Next(old(versionHashCache), c)
      ensures r == Result(old(versionHashCache), c)
    {
      if Usable(c) {
        var cached := Get(versionHashCache, c.key.value);
        if cached.Some? {
          versionHashCache := Delete(versionHashCache, c.key.value);
          versionHashCache := Put(versionHashCache, c.key.value, cached.value);
          return cached.value;
        }
      }
      if c.hash.None? {
        return "";
      }
      if Usable(c) {
        versionHashCache := Put(versionHashCache, c.key.value, c.hash.value);
        if |versionHashCache| > MAX {
          versionHashCache := Delete(versionHashCache, versionHashCache[0].key);
        }
      }
      return c.hash.value;
    }
  }

  // ---------------------------------------------------------------- keys by last use

  function Without(ks: seq<string>, k: string): (r: seq<string>)
    ensures |r| <= |ks|
  {
    if ks == [] then [] else (if ks[0] == k then [] else [ks[0]]) + Without(ks[1..], k)
  }

  /** The keys used, each once, in the order of their last uses. */
  function LastUses(uses: seq<string>): seq<string> {
    if uses == [] then []
    else
      var k := uses[|uses| - 1];
      Without(LastUses(uses[..|uses| - 1]), k) + [k]
  }

  function LastOf(ks: seq<string>, n: nat): seq<string> {
    if |ks| <= n then ks else ks[|ks| - n..]
  }

  lemma {:induction false} WithoutFacts(ks: seq<string>, k: string)
    requires Distinct(ks)
    ensures Distinct(Without(ks, k)) && forall x :: x in Without(ks, k) <==> x in ks && x != k
    ensures k !in ks ==> Without(ks, k) == ks
    ensures k in ks ==> |Without(ks, k)| == |ks| - 1
  {
    if ks != [] {
      var rest := ks[1..];
      assert ks == [ks[0]] + rest && forall i | 0 <= i < |rest| :: rest[i] == ks[i + 1];
      assert Distinct(rest) && ks[0] !in rest;
      WithoutFacts(rest, k);
    }
  }

  lemma {:induction false} WithoutConcat(a: seq<string>, b: seq<string>, k: string)
    ensures Without(a + b, k) == Without(a, k) + Without(b, k)
  {
    if a == [] {
      assert a + b == b;
    } else {
      assert (a + b)[1..] == a[1..] + b;
      WithoutConcat(a[1..], b, k);
    }
  }

  /** The index of the last use of k. */
  function LastIndex(uses: seq<string>, k: string): (i: nat)
    requires k in uses
    ensures i < |uses| && uses[i] == k && forall j | i < j < |uses| :: uses[j] != k
  {
    if uses[|uses| - 1] == k then |uses| - 1
    else
      assert uses == uses[..|uses| - 1] + [uses[|uses| - 1]];
      LastIndex(uses[..|uses| - 1], k)
  }

  /** LastUses names the used keys, each once, ordered by their last uses. */
  lemma {:induction false} LastUsesFacts(uses: seq<string>)
    ensures Distinct(LastUses(uses)) && forall k :: k in LastUses(uses) <==> k in uses
    ensures forall i, j | 0 <= i < j < |LastUses(uses)| ::
              LastIndex(uses, LastUses(uses)[i]) < LastIndex(uses, LastUses(uses)[j])
  {
    if uses != [] {
      var init, k := uses[..|uses| - 1], uses[|uses| - 1];
      var before := LastUses(init);
      LastUsesFacts(init);
      WithoutFacts(before, k);
      assert uses == init + [k];
      var l := LastUses(uses);
      assert forall x :: x in l <==> x in uses;
      forall i, j | 0 <= i < j < |l| ensures LastIndex(uses, l[i]) < LastIndex(uses, l[j]) {
        WithoutOrder(init, before, k, i, j);
      }
    }
  }

  lemma WithoutOrder(init: seq<string>, before: seq<string>, k: string, i: nat, j: nat)
    requires Distinct(before) && (forall x :: x in before <==> x in init) && i < j < |Without(before, k) + [k]|
    requires forall p, q | 0 <= p < q < |before| :: LastIndex(init, before[p]) < LastIndex(init, before[q])
    ensures var l, uses := Without(before, k) + [k], init + [k];
            l[i] in uses && l[j] in uses && LastIndex(uses, l[i]) < LastIndex(uses, l[j])
  {
    var kept, uses := Without(before, k), init + [k];
    WithoutFacts(before, k);
    assert kept[i] in kept;
    assert uses[..|uses| - 1] == init;
    if j < |kept| {
      assert kept[j] in kept;
      var p, q := WithoutKeepsOrder(before, k, i, j);
    }
  }

  lemma {:induction false} WithoutKeepsOrder(ks: seq<string>, k: string, i: nat, j: nat) returns (p: nat, q: nat)
    requires i < j < |Without(ks, k)|
    ensures p < q < |ks| && ks[p] == Without(ks, k)[i] && ks[q] == Without(ks, k)[j]
  {
    var d := if ks[0] == k then 0 else 1;
    if i >= d {
      p, q := WithoutKeepsOrder(ks[1..], k, i - d, j - d);
      p, q := p + 1, q + 1;
    } else {
      p := 0;
      q := WithoutPlace(ks[1..], k, j - 1);
      q := q + 1;
    }
  }

  lemma {:induction false} WithoutPlace(ks: seq<string>, k: string, j: nat) returns (q: nat)
    requires j < |Without(ks, k)|
    ensures q < |ks| && ks[q] == Without(ks, k)[j]
  {
    var d := if ks[0] == k then 0 else 1;
    if j >= d {
      q := WithoutPlace(ks[1..], k, j - d);
      q := q + 1;
    } else {
      q := 0;
    }
  }

  // ---------------------------------------------------------------- the memo over whole runs

  function Keys(es: seq<Entry>): (ks: seq<string>)
    ensures |ks| == |es| && forall i | 0 <= i < |es| :: ks[i] == es[i].key
  {
    seq(|es|, i requires 0 <= i < |es| => es[i].key)
  }

  /** The memo after a run of calls. */
  function After(calls: seq<Call>): seq<Entry> {
    if calls == [] then [] else Next(After(calls[..|calls| - 1]), calls[|calls| - 1])
  }

  /** The keys of the calls that had a usable key and gave a hash. */
  function Uses(calls: seq<Call>): seq<string> {
    if calls == [] then []
    else
      var init, c := calls[..|calls| - 1], calls[|calls| - 1];
      Uses(init) + if Usable(c) && (c.hash.Some? || Hit(After(init), c)) then [c.key.value] else []
  }

  lemma {:induction false} GetIff(es: seq<Entry>, k: string)
    ensures Get(es, k).Some? <==> k in Keys(es)
  {
    if es != [] {
      GetIff(es[1..], k);
      assert Keys(es) == [es[0].key] + Keys(es[1..]);
    }
  }

  lemma {:induction false} DeleteKeys(es: seq<Entry>, k: string)
    requires Distinct(Keys(es))
    ensures Keys(Delete(es, k)) == Without(Keys(es), k)
  {
    if es != [] {
      var rest := es[1..];
      assert Keys(es) == [es[0].key] + Keys(rest);
      assert Distinct(Keys(rest)) by {
        assert forall i | 0 <= i < |rest| :: Keys(rest)[i] == Keys(es)[i + 1];
      }
      if es[0].key == k {
        assert k !in Keys(rest) by {
          assert forall i | 0 <= i < |rest| :: Keys(rest)[i] == Keys(es)[i + 1];
        }
        WithoutFacts(Keys(rest), k);
      } else {
        DeleteKeys(rest, k);
        assert Keys(Delete(es, k)) == [es[0].key] + Keys(Delete(rest, k));
      }
    }
  }

  lemma {:induction false} PutNew(es: seq<Entry>, k: string, v: string)
    requires Get(es, k).None?
    ensures Put(es, k, v) == es + [Entry(k, v)]
  {
    if es != [] {
      var rest, e := es[1..], Entry(k, v);
      PutNew(rest, k, v);
      assert es + [e] == [es[0]] + (rest + [e]);
    }
  }

  lemma DistinctLast(ks: seq<string>, n: nat)
    requires Distinct(ks)
    ensures Distinct(LastOf(ks, n))
  {
  }

  lemma LastOfConcat(a: seq<string>, b: seq<string>, n: nat)
    requires |b| >= n
    ensures LastOf(a + b, n) == LastOf(b, n)
  {
  }

  /** The older keys, and the last n. */
  lemma OlderAndRecent(ks: seq<string>, n: nat) returns (older: seq<string>, recent: seq<string>)
    requires Distinct(ks) && |ks| > n
    ensures ks == older + recent && |recent| == n && recent == LastOf(ks, n) && Distinct(older) && Distinct(recent)
    ensures forall k | k in recent :: k !in older
  {
    older, recent := ks[..|ks| - n], ks[|ks| - n..];
  }

  /** A key among the last n moves to the end of them. */
  lemma LastOfHit(ks: seq<string>, n: nat, k: string)
    requires Distinct(ks) && k in LastOf(ks, n)
    ensures LastOf(Without(ks, k) + [k], n) == Without(LastOf(ks, n), k) + [k]
  {
    WithoutFacts(ks, k);
    if |ks| > n {
      var older, recent := OlderAndRecent(ks, n);
      WithoutConcat(older, recent, k);
      WithoutFacts(older, k);
      WithoutFacts(recent, k);
      LastOfConcat(older, Without(recent, k) + [k], n);
      assert Without(ks, k) + [k] == older + (Without(recent, k) + [k]);
    }
  }

  /** A key not among the last n pushes the oldest of them out. */
  lemma LastOfMiss(ks: seq<string>, n: nat, k: string)
    requires Distinct(ks) && k !in LastOf(ks, n)
    ensures LastOf(Without(ks, k) + [k], n) == LastOf(LastOf(ks, n) + [k], n)
  {
    if |ks| > n {
      var older, recent := OlderAndRecent(ks, n);
      WithoutConcat(older, recent, k);
      WithoutFacts(recent, k);
      var kept := Without(older, k);
      assert Without(ks, k) == kept + recent;
      LastOfConcat(kept, recent + [k], n);
      assert kept + recent + [k] == kept + (recent + [k]);
    } else {
      WithoutFacts(ks, k);
    }
  }

  lemma HitMovesLast(es: seq<Entry>, c: Call)
    requires Distinct(Keys(es)) && Hit(es, c)
    ensures Keys(Next(es, c)) == Without(Keys(es), c.key.value) + [c.key.value]
  {
    var k := c.key.value;
    DeleteKeys(es, k);
    WithoutFacts(Keys(es), k);
    GetIff(Delete(es, k), k);
    PutNew(Delete(es, k), k, Get(es, k).value);
  }

  lemma MissAddsLast(es: seq<Entry>, c: Call)
    requires Distinct(Keys(es)) && Usable(c) && !Hit(es, c) && c.hash.Some? && |es| <= MAX
    ensures Keys(Next(es, c)) == LastOf(Keys(es) + [c.key.value], MAX)
  {
    var k := c.key.value;
    PutNew(es, k, c.hash.value);
    var added := es + [Entry(k, c.hash.value)];
    assert Keys(added) == Keys(es) + [k];
    if |added| > MAX {
      assert Delete(added, added[0].key) == added[1..];
    }
  }

  /** After every run the memo holds exactly the (at most 256) most recently used keys, by last use. */
  lemma {:induction false} MemoHoldsRecent(calls: seq<Call>)
    ensures Keys(After(calls)) == LastOf(LastUses(Uses(calls)), MAX)
  {
    if calls != [] {
      var init, c := calls[..|calls| - 1], calls[|calls| - 1];
      var es, ks := After(init), LastUses(Uses(init));
      MemoHoldsRecent(init);
      LastUsesFacts(Uses(init));
      DistinctLast(ks, MAX);
      if Usable(c) && (c.hash.Some? || Hit(es, c)) {
        var k := c.key.value;
        assert (Uses(init) + [k])[..|Uses(init)|] == Uses(init);
        GetIff(es, k);
        if Hit(es, c) {
          HitMovesLast(es, c);
          LastOfHit(ks, MAX, k);
        } else {
          MissAddsLast(es, c);
          LastOfMiss(ks, MAX, k);
        }
      } else {
        assert Uses(init) + [] == Uses(init);
      }
    }
  }

  // ---------------------------------------------------------------- transparency

  ghost predicate Stored(e: Entry, calls: seq<Call>) {
    exists i | 0 <= i < |calls| :: calls[i] == Call(Some(e.key), Some(e.value))
  }

  lemma {:induction false} GetIn(es: seq<Entry>, k: string)
    requires Get(es, k).Some?
    ensures Entry(k, Get(es, k).value) in es
  {
    if es[0].key != k {
      GetIn(es[1..], k);
    }
  }

  lemma {:induction false} DeleteIn(es: seq<Entry>, k: string)
    ensures forall e | e in Delete(es, k) :: e in es
  {
    if es != [] && es[0].key != k {
      DeleteIn(es[1..], k);
    }
  }

  lemma {:induction false} PutIn(es: seq<Entry>, k: string, v: string)
    ensures forall e | e in Put(es, k, v) :: e in es || e == Entry(k, v)
  {
    if es != [] && es[0].key != k {
      PutIn(es[1..], k, v);
    }
  }

  lemma NextIn(es: seq<Entry>, c: Call, e: Entry)
    requires e in Next(es, c)
    ensures e in es || (Usable(c) && c == Call(Some(e.key), Some(e.value)))
  {
    if Hit(es, c) {
      var k := c.key.value;
      GetIn(es, k);
      DeleteIn(es, k);
      PutIn(Delete(es, k), k, Get(es, k).value);
    } else if Usable(c) && c.hash.Some? {
      PutIn(es, c.key.value, c.hash.value);
      var added := Put(es, c.key.value, c.hash.value);
      if |added| > MAX {
        DeleteIn(added, added[0].key);
      }
    }
  }

  /** Whatever the memo holds, some earlier call computed for that key. */
  lemma {:induction false} EntriesAreStored(calls: seq<Call>)
    ensures forall e | e in After(calls) :: e.key != "" && Stored(e, calls)
  {
    if calls != [] {
      var init, c := calls[..|calls| - 1], calls[|calls| - 1];
      EntriesAreStored(init);
      forall e | e in After(calls) ensures e.key != "" && Stored(e, calls) {
        NextIn(After(init), c, e);
        if e in After(init) {
          var i :| 0 <= i < |init| && init[i] == Call(Some(e.key), Some(e.value));
          assert calls[i] == init[i];
        }
      }
    }
  }

  /** Calls with the same usable key have the same hash. */
  ghost predicate KeysDetermineHashes(calls: seq<Call>) {
    forall i, j | 0 <= i < |calls| && 0 <= j < |calls| && Usable(calls[i]) && calls[i].key == calls[j].key ::
      calls[i].hash == calls[j].hash
  }

  /** Then every call returns what it would without the memo. */
  lemma Transparent(calls: seq<Call>, n: nat)
    requires KeysDetermineHashes(calls) && n < |calls|
    ensures Result(After(calls[..n]), calls[n]) == Uncached(calls[n])
  {
    var es, c := After(calls[..n]), calls[n];
    if Hit(es, c) {
      GetIn(es, c.key.value);
      EntriesAreStored(calls[..n]);
      var e := Entry(c.key.value, Get(es, c.key.value).value);
      assert Stored(e, calls[..n]);
      var i :| 0 <= i < n && calls[..n][i] == Call(Some(e.key), Some(e.value));
      assert calls[i].key == calls[n].key;
    }
  }

  /** A second call with the first one's key returns the first one's hash, whatever its own. */
  lemma SecondCallIsFirst(a: Call, b: Call)
    requires Usable(a) && a.hash.Some? && b.key == a.key
    ensures Result(After([a]), b) == a.hash.value
  {
    assert [a][..0] == [];
    assert After([]) == [];
    assert After([a]) == [Entry(a.key.value, a.hash.value)];
  }

  // ---------------------------------------------------------------- fingerprints

  /** The call for these arguments; `digest` stands for the hash of a value's text. */
  function CallOf(a: Args, c: Codec, digest: Json -> string): Call {
    Call(Some(CacheKey(a, c)), Some(digest(Payload(a, c))))
  }

  lemma KeyIsUsable(a: Args, c: Codec, digest: Json -> string)
    ensures Usable(CallOf(a, c, digest))
  {
    var pieces := [TextOf(a.instructions, c), TextOf(a.tools, c), a.model] + Tail(a, c);
    assert CacheKey(a, c) == pieces[0] + ['|'] + Text.Join(pieces[1..], '|');
  }

  ghost predicate Delimited(args: seq<Args>, c: Codec) {
    && (forall i | 0 <= i < |args| :: Readable(args[i], c) && BarFree(args[i], c) && CommaFree(args[i]))
    && (forall i, j | 0 <= i < |args| && 0 <= j < |args| :: Apart(args[i], args[j], c))
  }

  /** Over any run of calls with delimiter-free parts, every returned hash is the uncached one. */
  lemma DelimitedCallsAreTransparent(args: seq<Args>, c: Codec, digest: Json -> string, calls: seq<Call>, n: nat)
    requires Delimited(args, c) && n < |args| == |calls|
    requires forall i | 0 <= i < |calls| :: calls[i] == CallOf(args[i], c, digest)
    ensures Result(After(calls[..n]), calls[n]) == digest(Payload(args[n], c))
  {
    forall i, j | 0 <= i < |calls| && 0 <= j < |calls| && Usable(calls[i]) && calls[i].key == calls[j].key
      ensures calls[i].hash == calls[j].hash
    {
      assert calls[i] == CallOf(args[i], c, digest) && calls[j] == CallOf(args[j], c, digest);
      KeyDeterminesPayload(args[i], args[j], c);
    }
    Transparent(calls, n);
  }

  /** After a call with a bar in its instructions, tools or model, some call that hashes another value gets its hash. */
  lemma BarsGoStale(a: Args, c: Codec, digest: Json -> string) returns (b: Args)
    requires !BarFree(a, c)
    ensures Payload(a, c) != Payload(b, c)
    ensures Result(After([CallOf(a, c, digest)]), CallOf(b, c, digest)) == digest(Payload(a, c))
  {
    b := BarsCollide(a, c);
    KeyIsUsable(a, c, digest);
    SecondCallIsFirst(CallOf(a, c, digest), CallOf(b, c, digest));
  }
}
