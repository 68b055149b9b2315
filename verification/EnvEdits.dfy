/** A container environment is a list of "KEY=value" entries.  An edit looks at the first entry of one key and replaces,
    drops or appends it; this module has the algebra of such edits. */
module EnvEdits {
  import opened Base
  import opened Text

  /** strings.Cut(entry, "="): the key, if there is a "=". */
  function KeyOf(entry: string): Option<string> {
    var i := IndexOf(entry, '=');
    if i == |entry| then None else Some(entry[..i])
  }

  function ValueOf(entry: string): string
    requires KeyOf(entry).Some?
  {
    entry[IndexOf(entry, '=') + 1..]
  }

  function Entry(key: string, value: string): string {
    key + "=" + value
  }

  /** A key that can be one: no "=" in it. */
  type Key = k: string | '=' !in k witness ""

  lemma EntryParts(key: Key, value: string)
    ensures KeyOf(Entry(key, value)) == Some(key) && ValueOf(Entry(key, value)) == value
  {
    IndexAfter(key, '=', value);
    var entry := key + ['='] + value;
    assert Entry(key, value) == entry && entry[..|key|] == key && entry[|key| + 1..] == value;
  }

  lemma PartsOf(entry: string)
    requires KeyOf(entry).Some?
    ensures '=' !in KeyOf(entry).value && entry == Entry(KeyOf(entry).value, ValueOf(entry))
  {
  }

  /** What becomes of the value of a key: None means the entry is absent. */
  type Change = Option<string> -> Option<string>

  datatype Edit = Edit(key: Key, change: Change)

  function Apply(env: seq<string>, e: Edit): seq<string> {
    if env == [] then
      match e.change(None)
      case None => []
      case Some(v) => [Entry(e.key, v)]
    else if KeyOf(env[0]) == Some(e.key) then
      match e.change(Some(ValueOf(env[0])))
      case None => env[1..]
      case Some(v) => [Entry(e.key, v)] + env[1..]
    else [env[0]] + Apply(env[1..], e)
  }

  function ApplyAll(env: seq<string>, edits: seq<Edit>): seq<string>
    decreases |edits|
  {
    if edits == [] then env else ApplyAll(Apply(env, edits[0]), edits[1..])
  }

  function Lookup(env: seq<string>, key: Key): Option<string> {
    if env == [] then None
    else if KeyOf(env[0]) == Some(key) then Some(ValueOf(env[0]))
    else Lookup(env[1..], key)
  }

  /** No two entries have the same key. */
  ghost predicate DistinctKeys(env: seq<string>) {
    forall i, j | 0 <= i < j < |env| && KeyOf(env[i]).Some? :: KeyOf(env[i]) != KeyOf(env[j])
  }

  /** The edit never drops an entry. */
  ghost predicate Keeps(e: Edit) {
    forall v :: e.change(Some(v)).Some?
  }

  /** The edit never brings an absent entry in. */
  predicate BringsNothing(e: Edit) {
    e.change(None) == None
  }

  lemma {:induction false} LookupAfter(env: seq<string>, e: Edit, key: Key)
    requires key == e.key ==> Keeps(e) || DistinctKeys(env)
    ensures Lookup(Apply(env, e), key) == if key == e.key then e.change(Lookup(env, key)) else Lookup(env, key)
  {
    if env == [] || KeyOf(env[0]) == Some(e.key) {
      if env != [] && key == e.key && e.change(Some(ValueOf(env[0]))).None? {
        LookupAbsent(env[1..], key);
      }
      forall v ensures KeyOf(Entry(e.key, v)) == Some(e.key) && ValueOf(Entry(e.key, v)) == v {
        EntryParts(e.key, v);
      }
    } else {
      LookupAfter(env[1..], e, key);
    }
  }

  lemma {:induction false} LookupAbsent(env: seq<string>, key: Key)
    requires forall i | 0 <= i < |env| :: KeyOf(env[i]) != Some(key)
    ensures Lookup(env, key) == None
  {
    if env != [] {
      LookupAbsent(env[1..], key);
    }
  }

  /** An edit that has nothing to change changes nothing. */
  lemma {:induction false} ApplyNothing(env: seq<string>, e: Edit)
    requires e.change(Lookup(env, e.key)) == Lookup(env, e.key)
    ensures Apply(env, e) == env
  {
    if env != [] {
      if KeyOf(env[0]) == Some(e.key) {
        PartsOf(env[0]);
      } else {
        ApplyNothing(env[1..], e);
      }
    }
  }

  /** Edits of different keys commute when the second one brings nothing in. */
  lemma {:induction false} Commute(env: seq<string>, e: Edit, d: Edit)
    requires e.key != d.key && BringsNothing(d)
    ensures Apply(Apply(env, e), d) == Apply(Apply(env, d), e)
  {
    if env == [] {
      if e.change(None).Some? {
        EntryParts(e.key, e.change(None).value);
      }
    } else {
      var x, rest := env[0], env[1..];
      assert env == [x] + rest;
      if KeyOf(x) == Some(e.key) {
        if e.change(Some(ValueOf(x))).Some? {
          EntryParts(e.key, e.change(Some(ValueOf(x))).value);
        }
      } else if KeyOf(x) == Some(d.key) {
        if d.change(Some(ValueOf(x))).Some? {
          EntryParts(d.key, d.change(Some(ValueOf(x))).value);
        }
      } else {
        Commute(rest, e, d);
      }
    }
  }

  function Then(e: Edit, d: Edit): Edit {
    Edit(e.key, o => d.change(e.change(o)))
  }

  /** Two edits of one key make one. */
  lemma {:induction false} Compose(env: seq<string>, e: Edit, d: Edit)
    requires e.key == d.key && Keeps(e)
    ensures Apply(Apply(env, e), d) == Apply(env, Then(e, d))
  {
    if env == [] {
      if e.change(None).Some? {
        EntryParts(e.key, e.change(None).value);
      }
    } else if KeyOf(env[0]) == Some(e.key) {
      var v := e.change(Some(ValueOf(env[0]))).value;
      EntryParts(e.key, v);
    } else {
      Compose(env[1..], e, d);
    }
  }

  // ---------------------------------------------------------------- lists of edits

  ghost predicate DistinctEdits(edits: seq<Edit>) {
    forall i, j | 0 <= i < j < |edits| :: edits[i].key != edits[j].key
  }

  predicate Edits(edits: seq<Edit>, key: Key) {
    exists i | 0 <= i < |edits| :: edits[i].key == key
  }

  /** `d` moved into the edit of its key. */
  function Absorb(edits: seq<Edit>, d: Edit): seq<Edit> {
    if edits == [] then [] else [if edits[0].key == d.key then Then(edits[0], d) else edits[0]] + Absorb(edits[1..], d)
  }

  function AbsorbAll(edits: seq<Edit>, ds: seq<Edit>): seq<Edit>
    decreases |ds|
  {
    if ds == [] then edits else AbsorbAll(Absorb(edits, ds[0]), ds[1..])
  }

  /** Those of `ds` that no edit absorbs. */
  function Unabsorbed(edits: seq<Edit>, ds: seq<Edit>): seq<Edit> {
    if ds == [] then []
    else (if Edits(edits, ds[0].key) then [] else [ds[0]]) + Unabsorbed(edits, ds[1..])
  }

  lemma {:induction false} AbsorbShape(edits: seq<Edit>, d: Edit)
    ensures |Absorb(edits, d)| == |edits|
    ensures forall i | 0 <= i < |edits| ::
              Absorb(edits, d)[i] == if edits[i].key == d.key then Then(edits[i], d) else edits[i]
  {
    if edits != [] {
      AbsorbShape(edits[1..], d);
    }
  }

  /** One removing edit moves to the front of a list that does not touch its key. */
  lemma {:induction false} MoveFirst(env: seq<string>, edits: seq<Edit>, d: Edit)
    requires BringsNothing(d) && !Edits(edits, d.key)
    ensures Apply(ApplyAll(env, edits), d) == ApplyAll(Apply(env, d), edits)
    decreases |edits|
  {
    if edits != [] {
      assert edits[0].key != d.key;
      assert forall i | 0 <= i < |edits[1..]| :: edits[1..][i] == edits[i + 1];
      MoveFirst(Apply(env, edits[0]), edits[1..], d);
      Commute(env, edits[0], d);
    }
  }

  /** ... and into the edit of its key otherwise. */
  lemma {:induction false} MoveInto(env: seq<string>, edits: seq<Edit>, d: Edit)
    requires BringsNothing(d) && Edits(edits, d.key) && DistinctEdits(edits)
    requires forall e | e in edits && e.key == d.key :: Keeps(e)
    ensures Apply(ApplyAll(env, edits), d) == ApplyAll(env, Absorb(edits, d))
    decreases |edits|
  {
    var e, rest := edits[0], edits[1..];
    assert forall i | 0 <= i < |rest| :: rest[i] == edits[i + 1];
    if e.key == d.key {
      assert e in edits && !Edits(rest, d.key);
      MoveFirst(Apply(env, e), rest, d);
      Compose(env, e, d);
      AbsorbShape(rest, d);
      var merged := [Then(e, d)] + rest;
      assert Absorb(rest, d) == rest && Absorb(edits, d) == merged && merged[1..] == rest;
      assert ApplyAll(env, merged) == ApplyAll(Apply(env, Then(e, d)), rest);
    } else {
      var merged := [e] + Absorb(rest, d);
      assert Absorb(edits, d) == merged && merged[1..] == Absorb(rest, d);
      assert Edits(rest, d.key) by {
        var i :| 0 <= i < |edits| && edits[i].key == d.key;
        assert rest[i - 1].key == d.key;
      }
      MoveInto(Apply(env, e), rest, d);
    }
  }

  /** Nothing but the edit of d's key changes, and the removals still to come do not concern that one. */
  lemma AbsorbReady(edits: seq<Edit>, ds: seq<Edit>)
    requires ds != [] && DistinctEdits(edits) && DistinctEdits(ds)
    requires forall e | e in edits && Edits(ds, e.key) :: Keeps(e)
    ensures DistinctEdits(ds[1..]) && DistinctEdits(Absorb(edits, ds[0]))
    ensures forall e | e in Absorb(edits, ds[0]) && Edits(ds[1..], e.key) :: Keeps(e)
    ensures !Edits(edits, ds[0].key) ==> Absorb(edits, ds[0]) == edits
  {
    var d, rest := ds[0], ds[1..];
    AbsorbShape(edits, d);
    assert forall i | 0 <= i < |rest| :: rest[i] == ds[i + 1];
    forall e | e in Absorb(edits, d) && Edits(rest, e.key) ensures Keeps(e) {
      var i :| 0 <= i < |edits| && Absorb(edits, d)[i] == e;
      var j :| 0 <= j < |rest| && rest[j].key == e.key;
      assert ds[j + 1].key == e.key && edits[i] == e;
    }
  }

  /** A list of edits followed by a list of removing edits is one list of edits, each absorbing the removal of its key,
      after the removals that concern none of them. */
  lemma {:induction false} UndoAll(env: seq<string>, edits: seq<Edit>, ds: seq<Edit>)
    requires DistinctEdits(edits) && DistinctEdits(ds)
    requires forall d | d in ds :: BringsNothing(d)
    requires forall e | e in edits && Edits(ds, e.key) :: Keeps(e)
    ensures ApplyAll(ApplyAll(env, edits), ds) == ApplyAll(ApplyAll(env, Unabsorbed(edits, ds)), AbsorbAll(edits, ds))
    decreases |ds|
  {
    if ds != [] {
      var d, rest, edited := ds[0], ds[1..], ApplyAll(env, edits);
      AbsorbReady(edits, ds);
      assert ApplyAll(edited, ds) == ApplyAll(Apply(edited, d), rest);
      assert AbsorbAll(edits, ds) == AbsorbAll(Absorb(edits, d), rest);
      if Edits(edits, d.key) {
        MoveInto(env, edits, d);
        AbsorbShape(edits, d);
        SameUnabsorbed(edits, Absorb(edits, d), rest);
        UndoAll(env, Absorb(edits, d), rest);
        assert Unabsorbed(edits, ds) == Unabsorbed(edits, rest);
      } else {
        MoveFirst(env, edits, d);
        UndoAll(Apply(env, d), edits, rest);
        var kept := Unabsorbed(edits, rest);
        assert Unabsorbed(edits, ds) == [d] + kept && ([d] + kept)[1..] == kept;
        assert ApplyAll(env, [d] + kept) == ApplyAll(Apply(env, d), kept);
      }
    }
  }

  lemma {:induction false} SameUnabsorbed(a: seq<Edit>, b: seq<Edit>, ds: seq<Edit>)
    requires |a| == |b| && forall i | 0 <= i < |a| :: a[i].key == b[i].key
    ensures Unabsorbed(a, ds) == Unabsorbed(b, ds)
  {
    if ds != [] {
      SameUnabsorbed(a, b, ds[1..]);
    }
  }

  // ---------------------------------------------------------------- looking at the result

  /** What a list of edits makes of the value of one key. */
  function Changed(edits: seq<Edit>, key: Key, o: Option<string>): Option<string> {
    if edits == [] then o
    else Changed(edits[1..], key, if edits[0].key == key then edits[0].change(o) else o)
  }

  lemma {:induction false} LookupAfterAll(env: seq<string>, edits: seq<Edit>, key: Key)
    requires DistinctKeys(env)
    ensures DistinctKeys(ApplyAll(env, edits))
    ensures Lookup(ApplyAll(env, edits), key) == Changed(edits, key, Lookup(env, key))
    decreases |edits|
  {
    if edits != [] {
      LookupAfter(env, edits[0], key);
      ApplyDistinct(env, edits[0]);
      LookupAfterAll(Apply(env, edits[0]), edits[1..], key);
    }
  }

  lemma {:induction false} ChangedElsewhere(edits: seq<Edit>, key: Key, o: Option<string>)
    requires !Edits(edits, key)
    ensures Changed(edits, key, o) == o
  {
    if edits != [] {
      assert edits[0].key != key;
      assert forall i | 0 <= i < |edits[1..]| :: edits[1..][i] == edits[i + 1];
      ChangedElsewhere(edits[1..], key, o);
    }
  }

  lemma {:induction false} ChangedAt(edits: seq<Edit>, i: nat, o: Option<string>)
    requires DistinctEdits(edits) && i < |edits|
    ensures Changed(edits, edits[i].key, o) == edits[i].change(o)
  {
    var rest := edits[1..];
    assert forall k | 0 <= k < |rest| :: rest[k] == edits[k + 1];
    if i == 0 {
      ChangedElsewhere(rest, edits[0].key, edits[0].change(o));
    } else {
      assert edits[0].key != edits[i].key;
      ChangedAt(rest, i - 1, o);
    }
  }

  /** An absorbing edit does what its edit and the removals do. */
  lemma {:induction false} AbsorbAllShape(edits: seq<Edit>, ds: seq<Edit>, i: nat)
    requires i < |edits|
    ensures |AbsorbAll(edits, ds)| == |edits| && AbsorbAll(edits, ds)[i].key == edits[i].key
    ensures forall o :: AbsorbAll(edits, ds)[i].change(o) == Changed(ds, edits[i].key, edits[i].change(o))
    decreases |ds|
  {
    if ds != [] {
      AbsorbShape(edits, ds[0]);
      AbsorbAllShape(Absorb(edits, ds[0]), ds[1..], i);
    }
  }

  predicate Idle(env: seq<string>, e: Edit) {
    e.change(Lookup(env, e.key)) == Lookup(env, e.key)
  }

  lemma {:induction false} AllIdle(env: seq<string>, edits: seq<Edit>)
    requires forall e | e in edits :: Idle(env, e)
    ensures ApplyAll(env, edits) == env
    decreases |edits|
  {
    if edits != [] {
      assert edits[0] in edits;
      ApplyNothing(env, edits[0]);
      AllIdle(env, edits[1..]);
    }
  }

  lemma {:induction false} ApplyAllSplit(env: seq<string>, edits: seq<Edit>, i: nat)
    requires i <= |edits|
    ensures ApplyAll(env, edits) == ApplyAll(ApplyAll(env, edits[..i]), edits[i..])
    ensures i < |edits| ==> ApplyAll(env, edits[..i + 1]) == Apply(ApplyAll(env, edits[..i]), edits[i])
    decreases |edits|
  {
    if i == 0 {
      assert edits[..0] == [] && edits[0..] == edits;
      if edits != [] {
        assert edits[..1] == [edits[0]] && [edits[0]][1..] == [];
        assert ApplyAll(Apply(env, edits[0]), []) == Apply(env, edits[0]);
      }
    } else {
      var rest := edits[1..];
      ApplyAllSplit(Apply(env, edits[0]), rest, i - 1);
      assert edits[..i][1..] == rest[..i - 1] && edits[i..] == rest[i - 1..];
      if i < |edits| {
        assert edits[..i + 1][1..] == rest[..i] && rest[i - 1] == edits[i];
      }
    }
  }

  /** When only the i-th edit has anything to do, the others can go. */
  lemma {:induction false} AllIdleButOne(env: seq<string>, edits: seq<Edit>, i: nat)
    requires DistinctEdits(edits) && i < |edits|
    requires forall k | 0 <= k < |edits| && k != i :: Idle(env, edits[k])
    ensures ApplyAll(env, edits) == Apply(env, edits[i])
    decreases |edits|
  {
    var rest := edits[1..];
    assert forall k | 0 <= k < |rest| :: rest[k] == edits[k + 1];
    if i == 0 {
      var after := Apply(env, edits[0]);
      forall e | e in rest ensures Idle(after, e) {
        var k :| 0 <= k < |rest| && rest[k] == e;
        LookupAfter(env, edits[0], e.key);
      }
      AllIdle(after, rest);
    } else {
      ApplyNothing(env, edits[0]);
      AllIdleButOne(env, rest, i - 1);
    }
  }

  lemma AllIdleButTwo(env: seq<string>, edits: seq<Edit>, i: nat, j: nat)
    requires DistinctEdits(edits) && i < j < |edits|
    requires forall k | 0 <= k < |edits| && k != i && k != j :: Idle(env, edits[k])
    ensures ApplyAll(env, edits) == Apply(Apply(env, edits[i]), edits[j])
  {
    var one, front, back := Apply(env, edits[i]), edits[..j], edits[j..];
    ApplyAllSplit(env, edits, j);
    AllIdleButOne(env, front, i);
    forall k | 0 < k < |back| ensures Idle(one, back[k]) {
      assert back[k] == edits[j + k];
      LookupAfter(env, edits[i], edits[j + k].key);
    }
    AllIdleButOne(one, back, 0);
  }

  /** Bringing an absent key in appends its entry. */
  lemma {:induction false} ApplyAppends(env: seq<string>, e: Edit)
    requires Lookup(env, e.key) == None && e.change(None).Some?
    ensures Apply(env, e) == env + [Entry(e.key, e.change(None).value)]
  {
    if env != [] {
      ApplyAppends(env[1..], e);
    }
  }

  /** Only what the edit does to the value at hand matters. */
  lemma {:induction false} ApplySame(env: seq<string>, e: Edit, e': Edit)
    requires e.key == e'.key && e.change(Lookup(env, e.key)) == e'.change(Lookup(env, e.key))
    ensures Apply(env, e) == Apply(env, e')
  {
    if env != [] && KeyOf(env[0]) != Some(e.key) {
      ApplySame(env[1..], e, e');
    }
  }

  /** The keys of an edited environment. */
  lemma {:induction false} KeysAfter(env: seq<string>, e: Edit, i: nat)
    requires i < |Apply(env, e)|
    ensures var k := KeyOf(Apply(env, e)[i]);
            k == Some(e.key) || exists j :: 0 <= j < |env| && KeyOf(env[j]) == k
  {
    forall v ensures KeyOf(Entry(e.key, v)) == Some(e.key) {
      EntryParts(e.key, v);
    }
    if env != [] {
      if KeyOf(env[0]) == Some(e.key) {
        var k := KeyOf(Apply(env, e)[i]);
        if e.change(Some(ValueOf(env[0]))).None? {
          assert Apply(env, e)[i] == env[i + 1];
        } else if i > 0 {
          assert Apply(env, e)[i] == env[i];
        }
      } else if i == 0 {
        assert Apply(env, e)[0] == env[0];
      } else {
        KeysAfter(env[1..], e, i - 1);
        var k := KeyOf(Apply(env, e)[i]);
        if k != Some(e.key) {
          var j :| 0 <= j < |env[1..]| && KeyOf(env[1..][j]) == k;
          assert KeyOf(env[j + 1]) == k;
        }
      }
    }
  }

  /** Editing keeps the keys distinct. */
  lemma {:induction false} ApplyDistinct(env: seq<string>, e: Edit)
    requires DistinctKeys(env)
    ensures DistinctKeys(Apply(env, e))
  {
    if env != [] {
      forall v ensures KeyOf(Entry(e.key, v)) == Some(e.key) {
        EntryParts(e.key, v);
      }
      var rest := env[1..];
      assert forall i | 0 <= i < |rest| :: rest[i] == env[i + 1];
      if KeyOf(env[0]) != Some(e.key) {
        ApplyDistinct(rest, e);
        forall i | 0 <= i < |Apply(rest, e)| && KeyOf(env[0]).Some? ensures KeyOf(Apply(rest, e)[i]) != KeyOf(env[0]) {
          KeysAfter(rest, e, i);
        }
      }
    }
  }
}
