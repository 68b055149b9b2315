/** The check made before an injection: who instruments the process already. */
module Preflight {
  import opened Base
  import opened Text
  import opened EnvEdits
  import opened SdkInjection

  /** What the check looks for besides the managed variables. */
  datatype Probe = Probe(disableMetrics: Key, disableEvents: Key, pythonDistro: Key, pythonConfigurator: Key,
                         exporterPrefix: string, openlitCommand: string, otelCommand: string)

  /** Those variables are not managed ones, and removal drops every managed one with the exporter prefix. */
  ghost predicate WellProbed(n: Naming, p: Probe) {
    && (forall v :: n.key(v) != p.disableMetrics && n.key(v) != p.disableEvents)
    && (forall v :: n.key(v) != p.pythonDistro && n.key(v) != p.pythonConfigurator)
    && (forall v :: p.exporterPrefix <= n.key(v) ==> IsDropped(v))
    && Lower(n.managedPath) == n.managedPath && n.agentMode != ""
  }

  datatype Decision = ApplyManagedSdk | AdoptManaged | AdoptOpenlit | BlockExistingOtel

  // ---------------------------------------------------------------- the environment as a map

  function Single(entry: string): map<Key, string> {
    match KeyOf(entry)
    case None => map[]
    case Some(key) => map[key := ValueOf(entry)]
  }

  /** dockerInspectEnv: a later entry of the same key wins. */
  function EnvMap(env: seq<string>): map<Key, string> {
    if env == [] then map[] else Single(env[0]) + EnvMap(env[1..])
  }

  lemma PlusAssociates(a: map<Key, string>, b: map<Key, string>, c: map<Key, string>)
    ensures a + b + c == a + (b + c)
  {
  }

  lemma {:induction false} EnvMapSnoc(env: seq<string>, e: string)
    ensures EnvMap(env + [e]) == EnvMap(env) + Single(e)
  {
    if env == [] {
      assert [] + [e] == [e] && [e][1..] == [];
      assert EnvMap([e]) == Single(e) + map[];
    } else {
      EnvMapSnoc(env[1..], e);
      assert (env + [e])[1..] == env[1..] + [e];
      PlusAssociates(Single(env[0]), EnvMap(env[1..]), Single(e));
    }
  }

  lemma PutEntry(env: map<Key, string>, entry: string)
    requires KeyOf(entry).Some?
    ensures '=' !in KeyOf(entry).value
    ensures env[KeyOf(entry).value := ValueOf(entry)] == env + Single(entry)
  {
    PartsOf(entry);
  }

  method DockerInspectEnv(entries: seq<string>) returns (env: map<Key, string>)
    ensures env == EnvMap(entries)
  {
    env := map[];
    for i := 0 to |entries|
      invariant env == EnvMap(entries[..i])
    {
      EnvMapSnoc(entries[..i], entries[i]);
      assert entries[..i + 1] == entries[..i] + [entries[i]];
      var key := KeyOf(entries[i]);
      if key.Some? {
        PutEntry(env, entries[i]);
        env := env[key.value := ValueOf(entries[i])];
      }
    }
    assert entries[..|entries|] == entries;
  }

  /** Go's env[key], "" when missing. */
  function Get(env: map<Key, string>, key: Key): string {
    if key in env then env[key] else ""
  }

  /** With distinct keys the map holds what the list does. */
  lemma {:induction false} EnvMapLookup(env: seq<string>, key: Key)
    requires DistinctKeys(env)
    ensures key in EnvMap(env) <==> Lookup(env, key).Some?
    ensures key in EnvMap(env) ==> Lookup(env, key) == Some(EnvMap(env)[key])
  {
    if env != [] {
      var rest := env[1..];
      assert forall i | 0 <= i < |rest| :: rest[i] == env[i + 1];
      EnvMapLookup(rest, key);
      if KeyOf(env[0]) == Some(key) {
        LookupAbsent(rest, key);
      }
    }
  }

  // ---------------------------------------------------------------- the decision

  ghost predicate AnyWithPrefix(env: map<Key, string>, prefix: string) {
    exists key | key in env :: prefix <= key && env[key] != ""
  }

  predicate IsManaged(n: Naming, env: map<Key, string>) {
    || Lower(Get(env, n.key(ControllerMode))) == Lower(n.agentMode)
    || Contains(Lower(Get(env, n.key(PythonPath))), n.mountPath)
  }

  predicate HasOpenlit(n: Naming, p: Probe, env: map<Key, string>, lowerCommand: string) {
    || Get(env, n.key(DisabledInstrumentors)) != ""
    || Get(env, p.disableMetrics) != ""
    || Get(env, p.disableEvents) != ""
    || Contains(lowerCommand, p.openlitCommand)
  }

  ghost predicate HasOtel(p: Probe, env: map<Key, string>, lowerCommand: string) {
    || Get(env, p.pythonDistro) != ""
    || Get(env, p.pythonConfigurator) != ""
    || AnyWithPrefix(env, p.exporterPrefix)
    || Contains(lowerCommand, p.otelCommand)
  }

  /** evaluatePythonSDKPreflight; `blocks` is the default duplicate policy. */
  ghost function Evaluate(n: Naming, p: Probe, env: map<Key, string>, command: seq<string>, blocks: bool): Decision {
    var lowerCommand := Lower(Join(command, ' '));
    if IsManaged(n, env) then AdoptManaged
    else if HasOpenlit(n, p, env, lowerCommand) then AdoptOpenlit
    else if HasOtel(p, env, lowerCommand) && blocks then BlockExistingOtel
    else ApplyManagedSdk
  }

  /** An injected container is adopted as controller-managed, whatever its command and the policy. */
  lemma InjectedIsAdopted(n: Naming, p: Probe, env: seq<string>, svc: Service, s: Settings, command: seq<string>,
                          blocks: bool)
    requires WellNamed(n) && DistinctKeys(env)
    ensures Evaluate(n, p, EnvMap(Enabled(n, env, svc, s)), command, blocks) == AdoptManaged
  {
    LookupAfterAll(env, Injection(n, svc, s), n.key(ControllerMode));
    InjectionOf(n, ControllerMode, svc, s, Lookup(env, n.key(ControllerMode)));
    EnvMapLookup(Enabled(n, env, svc, s), n.key(ControllerMode));
  }

  /** Every variable after enable and disable: managed ones by their net effect, others as before. */
  lemma GetAfterBoth(n: Naming, env: seq<string>, svc: Service, s: Settings, key: Key)
    requires WellNamed(n) && DistinctKeys(env)
    ensures forall v | n.key(v) == key ::
              Get(EnvMap(Disabled(n, Enabled(n, env, svc, s))), key) == Value(Net(n, v, svc, s, Lookup(env, key)))
    ensures (forall v :: n.key(v) != key) ==>
              Get(EnvMap(Disabled(n, Enabled(n, env, svc, s))), key) == Get(EnvMap(env), key)
  {
    var after := Disabled(n, Enabled(n, env, svc, s));
    LookupUndone(n, env, svc, s, key);
    EnvMapLookup(env, key);
    EnvMapLookup(after, key);
    if v :| n.key(v) == key {
      InjectionOf(n, v, svc, s, Lookup(env, key));
      RemovalOf(n, v, Injected(n, v, svc, s, Lookup(env, key)));
    } else {
      forall i | 0 <= i < |Injection(n, svc, s)| ensures Injection(n, svc, s)[i].key != key {
      }
      forall i | 0 <= i < |Removal(n)| ensures Removal(n)[i].key != key {
      }
      ChangedElsewhere(Injection(n, svc, s), key, Lookup(env, key));
      ChangedElsewhere(Removal(n), key, Lookup(env, key));
    }
  }

  /** A path in which the check sees no mount comes back, or goes when it is empty. */
  lemma PathAfterBoth(n: Naming, svc: Service, s: Settings, o: Option<string>)
    requires WellNamed(n) && Lower(n.managedPath) == n.managedPath && !Contains(Lower(Value(o)), n.mountPath)
    ensures Value(Net(n, PythonPath, svc, s, o)) == Value(o)
  {
    if o.Some? && o.value != "" && n.managedPath <= o.value {
      assert Contains(o.value, n.managedPath);
      ContainsLower(o.value, n.managedPath);
      ContainsPrefix(Lower(o.value), n.managedPath, n.mountPath);
    } else if o.Some? && o.value == "" {
      assert TrimPrefix(n.managedPath, n.managedPath) == "";
    } else {
      PathSurvivesIff(n, svc, s, o);
    }
  }

  /** A container that the default policy lets the SDK into is let into again after enable and disable. */
  lemma AppliedAgain(n: Naming, p: Probe, env: seq<string>, svc: Service, s: Settings, command: seq<string>)
    requires WellNamed(n) && WellProbed(n, p) && DistinctKeys(env)
    requires Evaluate(n, p, EnvMap(env), command, true) == ApplyManagedSdk
    ensures Evaluate(n, p, EnvMap(Disabled(n, Enabled(n, env, svc, s))), command, true) == ApplyManagedSdk
  {
    var before, after := EnvMap(env), EnvMap(Disabled(n, Enabled(n, env, svc, s)));
    GetAfterBoth(n, env, svc, s, n.key(ControllerMode));
    GetAfterBoth(n, env, svc, s, n.key(PythonPath));
    EnvMapLookup(env, n.key(PythonPath));
    PathAfterBoth(n, svc, s, Lookup(env, n.key(PythonPath)));
    GetAfterBoth(n, env, svc, s, n.key(DisabledInstrumentors));
    GetAfterBoth(n, env, svc, s, p.disableMetrics);
    GetAfterBoth(n, env, svc, s, p.disableEvents);
    GetAfterBoth(n, env, svc, s, p.pythonDistro);
    GetAfterBoth(n, env, svc, s, p.pythonConfigurator);
    ExportersGone(n, p, env, svc, s);
  }

  /** No variable with the exporter prefix is left if none was there but managed ones. */
  lemma ExportersGone(n: Naming, p: Probe, env: seq<string>, svc: Service, s: Settings)
    requires WellNamed(n) && WellProbed(n, p) && DistinctKeys(env)
    requires !AnyWithPrefix(EnvMap(env), p.exporterPrefix)
    ensures !AnyWithPrefix(EnvMap(Disabled(n, Enabled(n, env, svc, s))), p.exporterPrefix)
  {
    var before, after := EnvMap(env), EnvMap(Disabled(n, Enabled(n, env, svc, s)));
    forall key | key in after && p.exporterPrefix <= key ensures after[key] == "" {
      GetAfterBoth(n, env, svc, s, key);
      if v :| n.key(v) == key {
        assert IsDropped(v);
      } else {
        assert Get(after, key) == Get(before, key);
      }
    }
  }

  // ---------------------------------------------------------------- the decision, variable by variable

  /** The variable is set and not empty. */
  predicate IsSet(env: seq<string>, key: Key) {
    Lookup(env, key).Some? && Lookup(env, key).value != ""
  }

  /** Marks of the controller, of an SDK of its own, and of another OpenTelemetry, in a container's list. */
  predicate ManagedMarks(n: Naming, env: seq<string>) {
    || Lower(Value(Lookup(env, n.key(ControllerMode)))) == Lower(n.agentMode)
    || Contains(Lower(Value(Lookup(env, n.key(PythonPath)))), n.mountPath)
  }

  predicate OpenlitMarks(n: Naming, p: Probe, env: seq<string>, command: seq<string>) {
    || IsSet(env, n.key(DisabledInstrumentors)) || IsSet(env, p.disableMetrics) || IsSet(env, p.disableEvents)
    || Contains(Lower(Join(command, ' ')), p.openlitCommand)
  }

  ghost predicate OtelMarks(p: Probe, env: seq<string>, command: seq<string>) {
    || IsSet(env, p.pythonDistro) || IsSet(env, p.pythonConfigurator)
    || (exists key: Key | p.exporterPrefix <= key :: IsSet(env, key))
    || Contains(Lower(Join(command, ' ')), p.otelCommand)
  }

  lemma GetIsLookup(env: seq<string>, key: Key)
    requires DistinctKeys(env)
    ensures Get(EnvMap(env), key) == Value(Lookup(env, key)) && (IsSet(env, key) <==> Get(EnvMap(env), key) != "")
  {
    EnvMapLookup(env, key);
  }

  lemma AnyWithPrefixIff(env: seq<string>, prefix: string)
    requires DistinctKeys(env)
    ensures AnyWithPrefix(EnvMap(env), prefix) <==> exists key: Key | prefix <= key :: IsSet(env, key)
  {
    if key :| key in EnvMap(env) && prefix <= key && EnvMap(env)[key] != "" {
      GetIsLookup(env, key);
      assert IsSet(env, key);
    }
    if key: Key :| prefix <= key && IsSet(env, key) {
      EnvMapLookup(env, key);
      assert EnvMap(env)[key] != "";
    }
  }

  /** Marks of the controller come first, then those of an own SDK; those of another OpenTelemetry block under the
      default policy alone, and without any the SDK is let in. */
  lemma DecisionIff(n: Naming, p: Probe, env: seq<string>, command: seq<string>, blocks: bool)
    requires DistinctKeys(env)
    ensures var d := Evaluate(n, p, EnvMap(env), command, blocks);
            && (d == AdoptManaged <==> ManagedMarks(n, env))
            && (d == AdoptOpenlit <==> !ManagedMarks(n, env) && OpenlitMarks(n, p, env, command))
            && (d == BlockExistingOtel <==>
                !ManagedMarks(n, env) && !OpenlitMarks(n, p, env, command) && OtelMarks(p, env, command) && blocks)
            && (d == ApplyManagedSdk <==>
                !ManagedMarks(n, env) && !OpenlitMarks(n, p, env, command) && !(OtelMarks(p, env, command) && blocks))
  {
    GetIsLookup(env, n.key(ControllerMode));
    GetIsLookup(env, n.key(PythonPath));
    GetIsLookup(env, n.key(DisabledInstrumentors));
    GetIsLookup(env, p.disableMetrics);
    GetIsLookup(env, p.disableEvents);
    GetIsLookup(env, p.pythonDistro);
    GetIsLookup(env, p.pythonConfigurator);
    AnyWithPrefixIff(env, p.exporterPrefix);
  }

  /** In the map of a list that repeats a key the last entry counts. */
  lemma {:induction false} LastEntryCounts(env: seq<string>, i: nat, key: Key)
    requires i < |env| && KeyOf(env[i]) == Some(key) && forall k | i < k < |env| :: KeyOf(env[k]) != Some(key)
    ensures key in EnvMap(env) && EnvMap(env)[key] == ValueOf(env[i])
  {
    var init, last := env[..|env| - 1], env[|env| - 1];
    assert env == init + [last];
    EnvMapSnoc(init, last);
    if i < |env| - 1 {
      LastEntryCounts(init, i, key);
    }
  }
}
