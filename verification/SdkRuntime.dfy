/** The rewriting loops of the Docker runtime, and the container payload they make. */
module SdkRuntime {
  import opened Base
  import opened Text
  import opened EnvEdits
  import opened ResourceAttrs
  import opened SdkInjection

  // ---------------------------------------------------------------- loops over the environment

  function SetTo(key: Key, value: string): Edit {
    Edit(key, _ => Some(value))
  }

  function DropEdit(key: Key): Edit {
    Edit(key, _ => None)
  }

  /** The loops below look at one entry after another: an edit of a concatenation. */
  lemma {:induction false} ApplyConcat(a: seq<string>, b: seq<string>, e: Edit)
    requires forall i | 0 <= i < |a| :: KeyOf(a[i]) != Some(e.key)
    ensures Apply(a + b, e) == a + Apply(b, e)
  {
    if a == [] {
      assert a + b == b;
    } else {
      assert (a + b)[1..] == a[1..] + b;
      ApplyConcat(a[1..], b, e);
    }
  }

  lemma {:induction false} SetAtIndex(env: seq<string>, e: Edit, i: nat, v: string)
    requires i < |env| && KeyOf(env[i]) == Some(e.key) && e.change(Some(ValueOf(env[i]))) == Some(v)
    requires forall k | 0 <= k < i :: KeyOf(env[k]) != Some(e.key)
    ensures Apply(env, e) == env[i := Entry(e.key, v)]
  {
    if i > 0 {
      SetAtIndex(env[1..], e, i - 1, v);
    }
  }

  lemma {:induction false} DropAtIndex(env: seq<string>, e: Edit, i: nat)
    requires i < |env| && KeyOf(env[i]) == Some(e.key) && e.change(Some(ValueOf(env[i]))) == None
    requires forall k | 0 <= k < i :: KeyOf(env[k]) != Some(e.key)
    ensures Apply(env, e) == env[..i] + env[i + 1..]
  {
    if i > 0 {
      DropAtIndex(env[1..], e, i - 1);
    }
  }

  lemma {:induction false} LookupConcat(a: seq<string>, b: seq<string>, key: Key)
    requires forall i | 0 <= i < |a| :: KeyOf(a[i]) != Some(key)
    ensures Lookup(a + b, key) == Lookup(b, key)
  {
    if a == [] {
      assert a + b == b;
    } else {
      assert (a + b)[1..] == a[1..] + b;
      LookupConcat(a[1..], b, key);
    }
  }

  lemma ApplyNowhere(env: seq<string>, e: Edit)
    requires forall k | 0 <= k < |env| :: KeyOf(env[k]) != Some(e.key)
    ensures Apply(env, e) == match e.change(None)
                             case None => env
                             case Some(v) => env + [Entry(e.key, v)]
    ensures Lookup(env, e.key) == None
  {
    assert env + [] == env;
    ApplyConcat(env, [], e);
    LookupConcat(env, [], e.key);
  }

  /** upsertEnvString. */
  method UpsertEnvString(env: seq<string>, key: Key, value: string) returns (result: seq<string>)
    ensures result == Apply(env, SetTo(key, value))
  {
    for i := 0 to |env|
      invariant forall k | 0 <= k < i :: KeyOf(env[k]) != Some(key)
    {
      if KeyOf(env[i]) == Some(key) {
        SetAtIndex(env, SetTo(key, value), i, value);
        return env[i := Entry(key, value)];
      }
    }
    ApplyNowhere(env, SetTo(key, value));
    return env + [Entry(key, value)];
  }

  function MergeEdit(n: Naming, key: Key, value: string): Edit {
    Edit(n.key(ResourceAttributes), o => Some(Merge(Value(o), key, value)))
  }

  /** mergeOtelResourceAttrInEnvString. */
  method MergeOtelResourceAttr(n: Naming, env: seq<string>, key: Key, value: string) returns (result: seq<string>)
    ensures result == Apply(env, MergeEdit(n, key, value))
  {
    for i := 0 to |env|
      invariant forall k | 0 <= k < i :: KeyOf(env[k]) != Some(n.key(ResourceAttributes))
    {
      if KeyOf(env[i]) == Some(n.key(ResourceAttributes)) {
        var merged := MergeResourceAttrValue(ValueOf(env[i]), key, value);
        SetAtIndex(env, MergeEdit(n, key, value), i, merged);
        return env[i := Entry(n.key(ResourceAttributes), merged)];
      }
    }
    ApplyNowhere(env, MergeEdit(n, key, value));
    var merged := MergeResourceAttrValue("", key, value);
    return env + [Entry(n.key(ResourceAttributes), merged)];
  }

  function UnmergeEdit(n: Naming, key: Key): Edit {
    Edit(n.key(ResourceAttributes), (o: Option<string>) => if o.None? then None else Filled(Remove(o.value, key)))
  }

  /** removeOtelResourceAttrFromEnvString. */
  method RemoveOtelResourceAttr(n: Naming, env: seq<string>, key: Key) returns (result: seq<string>)
    ensures result == Apply(env, UnmergeEdit(n, key))
  {
    for i := 0 to |env|
      invariant forall k | 0 <= k < i :: KeyOf(env[k]) != Some(n.key(ResourceAttributes))
    {
      if KeyOf(env[i]) != Some(n.key(ResourceAttributes)) {
        continue;
      }
      var filtered := RemoveResourceAttrKey(ValueOf(env[i]), key);
      if filtered == "" {
        DropAtIndex(env, UnmergeEdit(n, key), i);
        return env[..i] + env[i + 1..];
      }
      SetAtIndex(env, UnmergeEdit(n, key), i, filtered);
      return env[i := Entry(n.key(ResourceAttributes), filtered)];
    }
    ApplyNowhere(env, UnmergeEdit(n, key));
    return env;
  }

  /** An edit that never brings anything in, made of every entry of its key. */
  function Everywhere(env: seq<string>, e: Edit): seq<string> {
    if env == [] then []
    else if KeyOf(env[0]) != Some(e.key) then [env[0]] + Everywhere(env[1..], e)
    else
      match e.change(Some(ValueOf(env[0])))
      case None => Everywhere(env[1..], e)
      case Some(v) => [Entry(e.key, v)] + Everywhere(env[1..], e)
  }

  lemma {:induction false} EverywhereSnoc(env: seq<string>, e: Edit, i: nat)
    requires i < |env|
    ensures Everywhere(env[..i + 1], e) == Everywhere(env[..i], e) + Everywhere([env[i]], e)
  {
    if i == 0 {
      assert env[..1] == [env[0]] && env[..0] == [];
    } else {
      assert env[..i + 1][1..] == env[1..][..i] && env[..i][1..] == env[1..][..i - 1];
      EverywhereSnoc(env[1..], e, i - 1);
    }
  }

  /** Where keys are distinct it is the edit. */
  lemma {:induction false} EverywhereIsApply(env: seq<string>, e: Edit)
    requires DistinctKeys(env) && BringsNothing(e)
    ensures Everywhere(env, e) == Apply(env, e)
  {
    if env != [] {
      var rest := env[1..];
      assert forall i | 0 <= i < |rest| :: rest[i] == env[i + 1];
      EverywhereIsApply(rest, e);
      if KeyOf(env[0]) == Some(e.key) {
        ApplyNowhere(rest, e);
      }
    }
  }

  /** removeEnvString. */
  method RemoveEnvString(env: seq<string>, key: Key) returns (filtered: seq<string>)
    ensures filtered == Everywhere(env, DropEdit(key))
  {
    filtered := [];
    for i := 0 to |env|
      invariant filtered == Everywhere(env[..i], DropEdit(key))
    {
      EverywhereSnoc(env, DropEdit(key), i);
      if KeyOf(env[i]) == Some(key) {
        continue;
      }
      filtered := filtered + [env[i]];
    }
    assert env[..|env|] == env;
  }

  /** rewritePythonPathWithoutManagedSDK. */
  method RewritePythonPath(n: Naming, env: seq<string>) returns (filtered: seq<string>)
    ensures filtered == Everywhere(env, RemoveEdit(n, PythonPath))
  {
    filtered := [];
    for i := 0 to |env|
      invariant filtered == Everywhere(env[..i], RemoveEdit(n, PythonPath))
    {
      EverywhereSnoc(env, RemoveEdit(n, PythonPath), i);
      if KeyOf(env[i]) != Some(n.key(PythonPath)) {
        filtered := filtered + [env[i]];
        continue;
      }
      var value := ValueOf(env[i]);
      value := TrimPrefix(value, n.managedPath + ":");
      value := TrimPrefix(value, n.managedPath);
      if value != "" {
        filtered := filtered + [Entry(n.key(PythonPath), value)];
      }
    }
    assert env[..|env|] == env;
  }

  /** The first value of the key that is not empty. */
  function FilledValue(env: seq<string>, key: Key): Option<string> {
    if env == [] then None
    else if KeyOf(env[0]) == Some(key) && ValueOf(env[0]) != "" then Some(ValueOf(env[0]))
    else FilledValue(env[1..], key)
  }

  /** dockerManagedPythonPath. */
  method DockerManagedPythonPath(n: Naming, env: seq<string>) returns (path: string)
    ensures path == WithManagedPath(n, FilledValue(env, n.key(PythonPath)))
  {
    for i := 0 to |env|
      invariant FilledValue(env, n.key(PythonPath)) == FilledValue(env[i..], n.key(PythonPath))
    {
      assert env[i..][1..] == env[i + 1..];
      if KeyOf(env[i]) == Some(n.key(PythonPath)) && ValueOf(env[i]) != "" {
        if Contains(ValueOf(env[i]), n.managedPath) {
          return ValueOf(env[i]);
        }
        return n.managedPath + ":" + ValueOf(env[i]);
      }
    }
    return n.managedPath;
  }

  /** Where keys are distinct that is the value, unless it is empty. */
  /** In a list that repeats the path its first entry that is not empty counts. */
  lemma {:induction false} FilledIsFirst(env: seq<string>, key: Key, i: nat)
    requires i < |env| && KeyOf(env[i]) == Some(key) && ValueOf(env[i]) != ""
    requires forall k | 0 <= k < i :: KeyOf(env[k]) != Some(key) || ValueOf(env[k]) == ""
    ensures FilledValue(env, key) == Some(ValueOf(env[i]))
  {
    if i > 0 {
      FilledIsFirst(env[1..], key, i - 1);
    }
  }

  lemma {:induction false} FilledIsLookup(env: seq<string>, key: Key)
    requires DistinctKeys(env)
    ensures FilledValue(env, key) == if Lookup(env, key) == Some("") then None else Lookup(env, key)
  {
    if env != [] {
      var rest := env[1..];
      assert forall i | 0 <= i < |rest| :: rest[i] == env[i + 1];
      FilledIsLookup(rest, key);
      if KeyOf(env[0]) == Some(key) {
        LookupAbsent(rest, key);
      }
    }
  }

  // ---------------------------------------------------------------- the create payload

  const MANAGED_LABEL := "openlit.io/python-sdk-managed"
  const VOLUME_LABEL := "openlit.io/python-sdk-volume"
  const HASH_LABEL := "openlit.io/python-sdk-config-hash"

  /** The part of a container's configuration that the controller rewrites; `other` is copied. */
  datatype Config = Config(env: seq<string>, labels: map<string, string>, binds: seq<string>, other: string)

  function Labelled(labels: map<string, string>, volume: string, hash: string): map<string, string> {
    labels[MANAGED_LABEL := "true"][VOLUME_LABEL := volume][HASH_LABEL := hash]
  }

  function Unlabelled(labels: map<string, string>): map<string, string> {
    labels - {MANAGED_LABEL, VOLUME_LABEL, HASH_LABEL}
  }

  predicate MountsTarget(bind: string, target: string) {
    HasSuffix(bind, ":" + target)
  }

  function Bound(binds: seq<string>, mount: string, target: string): seq<string> {
    if exists i | 0 <= i < |binds| :: MountsTarget(binds[i], target) then binds else binds + [mount]
  }

  function Unbound(binds: seq<string>, target: string): seq<string> {
    if binds == [] then []
    else (if MountsTarget(binds[0], target) then [] else [binds[0]]) + Unbound(binds[1..], target)
  }

  lemma {:induction false} UnboundConcat(a: seq<string>, b: seq<string>, target: string)
    ensures Unbound(a + b, target) == Unbound(a, target) + Unbound(b, target)
  {
    if a == [] {
      assert a + b == b;
    } else {
      assert (a + b)[1..] == a[1..] + b;
      UnboundConcat(a[1..], b, target);
    }
  }

  method UpsertBindMount(binds: seq<string>, mount: string, target: string) returns (result: seq<string>)
    ensures result == Bound(binds, mount, target)
  {
    for i := 0 to |binds|
      invariant forall k | 0 <= k < i :: !MountsTarget(binds[k], target)
    {
      if MountsTarget(binds[i], target) {
        return binds;
      }
    }
    return binds + [mount];
  }

  method RemoveBindMount(binds: seq<string>, target: string) returns (filtered: seq<string>)
    ensures filtered == Unbound(binds, target)
  {
    filtered := [];
    for i := 0 to |binds|
      invariant filtered == Unbound(binds[..i], target)
    {
      assert binds[..i + 1] == binds[..i] + [binds[i]];
      UnboundConcat(binds[..i], [binds[i]], target);
      if MountsTarget(binds[i], target) {
        continue;
      }
      filtered := filtered + [binds[i]];
    }
    assert binds[..|binds|] == binds;
  }

  function AfterEnable(n: Naming, c: Config, svc: Service, s: Settings, volume: string, hash: string): Config {
    c.(env := EnabledList(n, c.env, svc, s),
       labels := Labelled(c.labels, volume, hash),
       binds := Bound(c.binds, volume + ":" + n.mountPath, n.mountPath))
  }

  function AfterDisable(n: Naming, c: Config): Config {
    c.(env := DisabledList(n, c.env), labels := Unlabelled(c.labels), binds := Unbound(c.binds, n.mountPath))
  }

  /** The injection after the Python path. */
  function AfterPath(n: Naming, svc: Service, s: Settings): (edits: seq<Edit>)
    ensures |edits| == |INJECT_ORDER| - 1
    ensures forall i | 0 <= i < |edits| :: edits[i] == InjectEdit(n, INJECT_ORDER[i + 1], svc, s)
  {
    Injection(n, svc, s)[1..]
  }

  /** The i-th edit of the injection, made by any edit that does the same to the value at hand. */
  lemma InjectStep(n: Naming, start: seq<string>, svc: Service, s: Settings, i: nat, e: Edit)
    requires 0 < i < |INJECT_ORDER| && e.key == n.key(INJECT_ORDER[i])
    requires forall o :: e.change(o) == Injected(n, INJECT_ORDER[i], svc, s, o)
    ensures ApplyAll(start, AfterPath(n, svc, s)[..i]) == Apply(ApplyAll(start, AfterPath(n, svc, s)[..i - 1]), e)
  {
    ApplyAllSplit(start, AfterPath(n, svc, s), i - 1);
    ApplySame(ApplyAll(start, AfterPath(n, svc, s)[..i - 1]), e, AfterPath(n, svc, s)[i - 1]);
  }

  /** ... or left out when it does nothing. */
  lemma InjectSkip(n: Naming, start: seq<string>, svc: Service, s: Settings, i: nat)
    requires 0 < i < |INJECT_ORDER|
    requires forall o :: Injected(n, INJECT_ORDER[i], svc, s, o) == o
    ensures ApplyAll(start, AfterPath(n, svc, s)[..i]) == ApplyAll(start, AfterPath(n, svc, s)[..i - 1])
  {
    ApplyAllSplit(start, AfterPath(n, svc, s), i - 1);
    ApplyNothing(ApplyAll(start, AfterPath(n, svc, s)[..i - 1]), AfterPath(n, svc, s)[i - 1]);
  }

  lemma Orders()
    ensures |INJECT_ORDER| == 12 && |REMOVE_ORDER| == 11
    ensures INJECT_ORDER[0] == PythonPath && INJECT_ORDER[1] == ControllerMode && INJECT_ORDER[2] == ServiceName
    ensures INJECT_ORDER[3] == Endpoint && INJECT_ORDER[4] == DeploymentEnvironment
    ensures INJECT_ORDER[5] == ResourceAttributes && INJECT_ORDER[6] == Protocol && INJECT_ORDER[7] == TracesEndpoint
    ensures INJECT_ORDER[8] == MetricsEndpoint && INJECT_ORDER[9] == LogsEndpoint && INJECT_ORDER[10] == Headers
    ensures INJECT_ORDER[11] == DisabledInstrumentors
    ensures REMOVE_ORDER[0] == ControllerMode && REMOVE_ORDER[1] == Endpoint && REMOVE_ORDER[2] == Protocol
    ensures REMOVE_ORDER[3] == TracesEndpoint && REMOVE_ORDER[4] == MetricsEndpoint && REMOVE_ORDER[5] == LogsEndpoint
    ensures REMOVE_ORDER[6] == Headers && REMOVE_ORDER[7] == DeploymentEnvironment
    ensures REMOVE_ORDER[8] == DisabledInstrumentors && forall i | 0 <= i < 9 :: IsDropped(REMOVE_ORDER[i])
    ensures REMOVE_ORDER[9] == ResourceAttributes && REMOVE_ORDER[10] == PythonPath
  {
  }

  /** The variable of the i-th edit, set to a value. */
  method UpsertVariable(n: Naming, ghost start: seq<string>, svc: Service, s: Settings, ghost i: nat, v: Variable,
                        env: seq<string>, value: string)
    returns (result: seq<string>)
    requires 0 < i < |INJECT_ORDER| && INJECT_ORDER[i] == v && forall o :: Injected(n, v, svc, s, o) == Some(value)
    requires env == ApplyAll(start, AfterPath(n, svc, s)[..i - 1])
    ensures result == ApplyAll(start, AfterPath(n, svc, s)[..i])
  {
    InjectStep(n, start, svc, s, i, SetTo(n.key(v), value));
    result := UpsertEnvString(env, n.key(v), value);
  }

  /** The same for an optional setting. */
  method UpsertGiven(n: Naming, ghost start: seq<string>, svc: Service, s: Settings, ghost i: nat, v: Variable,
                     env: seq<string>, setting: string)
    returns (result: seq<string>)
    requires 0 < i < |INJECT_ORDER| && INJECT_ORDER[i] == v
    requires forall o :: Injected(n, v, svc, s, o) == Given(setting, o)
    requires env == ApplyAll(start, AfterPath(n, svc, s)[..i - 1])
    ensures result == ApplyAll(start, AfterPath(n, svc, s)[..i])
  {
    if setting == "" {
      InjectSkip(n, start, svc, s, i);
      return env;
    }
    result := UpsertVariable(n, start, svc, s, i, v, env, setting);
  }

  /** The variables that are always set, and the workload key. */
  method InjectRequired(n: Naming, start: seq<string>, svc: Service, s: Settings) returns (env: seq<string>)
    ensures env == ApplyAll(start, AfterPath(n, svc, s)[..5])
  {
    Orders();
    assert AfterPath(n, svc, s)[..0] == [];
    env := UpsertVariable(n, start, svc, s, 1, ControllerMode, start, n.agentMode);
    env := UpsertVariable(n, start, svc, s, 2, ServiceName, env, svc.name);
    env := InjectExport(n, start, svc, s, env);
  }

  method InjectExport(n: Naming, ghost start: seq<string>, svc: Service, s: Settings, before: seq<string>)
    returns (env: seq<string>)
    requires before == ApplyAll(start, AfterPath(n, svc, s)[..2])
    ensures env == ApplyAll(start, AfterPath(n, svc, s)[..5])
  {
    Orders();
    env := UpsertVariable(n, start, svc, s, 3, Endpoint, before, s.endpoint);
    env := UpsertVariable(n, start, svc, s, 4, DeploymentEnvironment, env, s.environment);
    if svc.workloadKey != "" {
      InjectStep(n, start, svc, s, 5, MergeEdit(n, n.workloadKey, svc.workloadKey));
      env := MergeOtelResourceAttr(n, env, n.workloadKey, svc.workloadKey);
    } else {
      InjectSkip(n, start, svc, s, 5);
    }
  }

  method InjectOptional(n: Naming, ghost start: seq<string>, svc: Service, s: Settings, before: seq<string>)
    returns (env: seq<string>)
    requires before == ApplyAll(start, AfterPath(n, svc, s)[..5])
    ensures env == ApplyAll(start, AfterPath(n, svc, s))
  {
    Orders();
    env := UpsertGiven(n, start, svc, s, 6, Protocol, before, s.protocol);
    env := UpsertGiven(n, start, svc, s, 7, TracesEndpoint, env, s.traces);
    env := InjectSignals(n, start, svc, s, env);
  }

  method InjectSignals(n: Naming, ghost start: seq<string>, svc: Service, s: Settings, before: seq<string>)
    returns (env: seq<string>)
    requires before == ApplyAll(start, AfterPath(n, svc, s)[..7])
    ensures env == ApplyAll(start, AfterPath(n, svc, s))
  {
    Orders();
    env := UpsertGiven(n, start, svc, s, 8, MetricsEndpoint, before, s.metrics);
    env := UpsertGiven(n, start, svc, s, 9, LogsEndpoint, env, s.logs);
    env := InjectLast(n, start, svc, s, env);
  }

  method InjectLast(n: Naming, ghost start: seq<string>, svc: Service, s: Settings, before: seq<string>)
    returns (env: seq<string>)
    requires before == ApplyAll(start, AfterPath(n, svc, s)[..9])
    ensures env == ApplyAll(start, AfterPath(n, svc, s))
  {
    Orders();
    env := UpsertGiven(n, start, svc, s, 10, Headers, before, s.headers);
    env := UpsertVariable(n, start, svc, s, 11, DisabledInstrumentors, env, n.disabledList);
    assert AfterPath(n, svc, s)[..11] == AfterPath(n, svc, s);
  }

  /** The environment after enable, whatever the list: the path is set first, from the first one that is not empty. */
  function EnabledList(n: Naming, env: seq<string>, svc: Service, s: Settings): seq<string> {
    ApplyAll(Apply(env, SetTo(n.key(PythonPath), WithManagedPath(n, FilledValue(env, n.key(PythonPath))))),
             AfterPath(n, svc, s))
  }

  /** The environment part of buildDockerContainerCreatePayload, enabling. */
  method InjectEnv(n: Naming, start: seq<string>, svc: Service, s: Settings) returns (env: seq<string>)
    ensures env == EnabledList(n, start, svc, s)
  {
    var path := DockerManagedPythonPath(n, start);
    env := UpsertEnvString(start, n.key(PythonPath), path);
    ghost var from := env;
    env := InjectRequired(n, env, svc, s);
    env := InjectOptional(n, from, svc, s, env);
  }

  /** Where keys are distinct it is the list of edits of the laws. */
  lemma EnabledListIsEnabled(n: Naming, env: seq<string>, svc: Service, s: Settings)
    requires DistinctKeys(env)
    ensures EnabledList(n, env, svc, s) == Enabled(n, env, svc, s)
  {
    FilledIsLookup(env, n.key(PythonPath));
    var path := WithManagedPath(n, FilledValue(env, n.key(PythonPath)));
    ApplySame(env, SetTo(n.key(PythonPath), path), InjectEdit(n, PythonPath, svc, s));
    assert Enabled(n, env, svc, s) == ApplyAll(Apply(env, Injection(n, svc, s)[0]), AfterPath(n, svc, s));
  }

  // ---------------------------------------------------------------- disabling

  lemma RemoveStep(n: Naming, start: seq<string>, i: nat, e: Edit)
    requires DistinctKeys(start) && i < |REMOVE_ORDER| && e.key == n.key(REMOVE_ORDER[i])
    requires forall o :: e.change(o) == Removed(n, REMOVE_ORDER[i], o)
    ensures var env := ApplyAll(start, Removal(n)[..i]);
            DistinctKeys(env) && ApplyAll(start, Removal(n)[..i + 1]) == Apply(env, e) == Everywhere(env, e)
  {
    var env := ApplyAll(start, Removal(n)[..i]);
    LookupAfterAll(start, Removal(n)[..i], "");
    ApplyAllSplit(start, Removal(n), i);
    ApplySame(env, e, Removal(n)[i]);
    VariableListed(REMOVE_ORDER[i]);
    InjectsAndRemoves(n, REMOVE_ORDER[i], Service("", ""), Settings("", "", "", "", "", "", ""));
    EverywhereIsApply(env, e);
  }

  /** The variables that disable drops whole. */
  function Dropped(n: Naming): (keys: seq<Key>)
    ensures |keys| == 9 && forall i | 0 <= i < 9 :: keys[i] == n.key(REMOVE_ORDER[i])
  {
    [n.key(ControllerMode), n.key(Endpoint), n.key(Protocol), n.key(TracesEndpoint), n.key(MetricsEndpoint),
     n.key(LogsEndpoint), n.key(Headers), n.key(DeploymentEnvironment), n.key(DisabledInstrumentors)]
  }

  /** Without any entry of the first i of these keys. */
  function WithoutKeys(env: seq<string>, keys: seq<Key>): seq<string> {
    if keys == [] then env else Everywhere(WithoutKeys(env, keys[..|keys| - 1]), DropEdit(keys[|keys| - 1]))
  }

  method DropAll(n: Naming, start: seq<string>) returns (env: seq<string>)
    ensures env == WithoutKeys(start, Dropped(n))
  {
    env := start;
    var dropped := Dropped(n);
    for i := 0 to |dropped|
      invariant env == WithoutKeys(start, dropped[..i])
    {
      assert dropped[..i + 1][..i] == dropped[..i];
      env := RemoveEnvString(env, dropped[i]);
    }
    assert dropped[..|dropped|] == dropped;
  }

  /** The environment after disable, whatever the list. */
  function DisabledList(n: Naming, env: seq<string>): seq<string> {
    Everywhere(Apply(WithoutKeys(env, Dropped(n)), UnmergeEdit(n, n.workloadKey)), RemoveEdit(n, PythonPath))
  }

  /** The environment part of buildDockerContainerCreatePayload, disabling. */
  method RemoveFromEnv(n: Naming, start: seq<string>) returns (env: seq<string>)
    ensures env == DisabledList(n, start)
  {
    env := DropAll(n, start);
    env := RemoveOtelResourceAttr(n, env, n.workloadKey);
    env := RewritePythonPath(n, env);
  }

  lemma {:induction false} WithoutKeysIsEdits(n: Naming, start: seq<string>, i: nat)
    requires DistinctKeys(start) && i <= 9
    ensures WithoutKeys(start, Dropped(n)[..i]) == ApplyAll(start, Removal(n)[..i])
    decreases i
  {
    Orders();
    if i == 0 {
      assert Removal(n)[..0] == [];
    } else {
      var keys := Dropped(n)[..i];
      assert keys[..|keys| - 1] == Dropped(n)[..i - 1];
      WithoutKeysIsEdits(n, start, i - 1);
      RemoveStep(n, start, i - 1, DropEdit(Dropped(n)[i - 1]));
    }
  }

  lemma UnmergeStep(n: Naming, start: seq<string>)
    requires DistinctKeys(start)
    ensures Apply(ApplyAll(start, Removal(n)[..9]), UnmergeEdit(n, n.workloadKey)) == ApplyAll(start, Removal(n)[..10])
  {
    Orders();
    var e := UnmergeEdit(n, n.workloadKey);
    forall o ensures e.change(o) == Removed(n, ResourceAttributes, o) {
    }
    RemoveStep(n, start, 9, e);
  }

  /** Where keys are distinct it is the list of edits of the laws. */
  lemma DisabledListIsDisabled(n: Naming, env: seq<string>)
    requires DistinctKeys(env)
    ensures DisabledList(n, env) == Disabled(n, env)
  {
    assert Dropped(n)[..9] == Dropped(n);
    WithoutKeysIsEdits(n, env, 9);
    UnmergeStep(n, env);
    Orders();
    RemoveStep(n, env, 10, RemoveEdit(n, PythonPath));
    assert Removal(n)[..11] == Removal(n);
  }

  method SetLabels(existing: map<string, string>, volume: string, hash: string) returns (labels: map<string, string>)
    ensures labels == Labelled(existing, volume, hash)
  {
    labels := existing;
    labels := labels[MANAGED_LABEL := "true"];
    labels := labels[VOLUME_LABEL := volume];
    labels := labels[HASH_LABEL := hash];
  }

  method DeleteLabels(existing: map<string, string>) returns (labels: map<string, string>)
    ensures labels == Unlabelled(existing)
  {
    labels := existing;
    labels := labels - {MANAGED_LABEL};
    labels := labels - {VOLUME_LABEL};
    labels := labels - {HASH_LABEL};
  }

  /** buildDockerContainerCreatePayload. */
  method BuildCreatePayload(n: Naming, c: Config, svc: Service, s: Settings, volume: string, hash: string, enable: bool)
    returns (payload: Config)
    ensures payload == if enable then AfterEnable(n, c, svc, s, volume, hash) else AfterDisable(n, c)
  {
    payload := c;
    if enable {
      var env := InjectEnv(n, c.env, svc, s);
      var labels := SetLabels(c.labels, volume, hash);
      var binds := UpsertBindMount(c.binds, volume + ":" + n.mountPath, n.mountPath);
      payload := payload.(env := env, labels := labels, binds := binds);
    } else {
      var env := RemoveFromEnv(n, c.env);
      var labels := DeleteLabels(c.labels);
      var binds := RemoveBindMount(c.binds, n.mountPath);
      payload := payload.(env := env, labels := labels, binds := binds);
    }
  }

  /** What the payload of an enabled container holds, besides its environment. */
  lemma EnabledContainer(n: Naming, c: Config, svc: Service, s: Settings, volume: string, hash: string)
    ensures var after := AfterEnable(n, c, svc, s, volume, hash);
            && after.other == c.other
            && after.labels.Keys == c.labels.Keys + {"openlit.io/python-sdk-managed", "openlit.io/python-sdk-volume",
                                                     "openlit.io/python-sdk-config-hash"}
            && after.labels["openlit.io/python-sdk-managed"] == "true"
            && after.labels["openlit.io/python-sdk-volume"] == volume
            && after.labels["openlit.io/python-sdk-config-hash"] == hash
            && (forall l | l in c.labels && l !in {MANAGED_LABEL, VOLUME_LABEL, HASH_LABEL} ::
                  after.labels[l] == c.labels[l])
            && (exists i :: 0 <= i < |after.binds| && HasSuffix(after.binds[i], ":" + n.mountPath))
            && (if exists i :: 0 <= i < |c.binds| && HasSuffix(c.binds[i], ":" + n.mountPath)
                then after.binds == c.binds else after.binds == c.binds + [volume + ":" + n.mountPath])
  {
    LabelsDiffer();
    var after := AfterEnable(n, c, svc, s, volume, hash);
    var mount := volume + ":" + n.mountPath;
    assert mount == volume + (":" + n.mountPath);
    if i :| 0 <= i < |c.binds| && HasSuffix(c.binds[i], ":" + n.mountPath) {
      assert MountsTarget(c.binds[i], n.mountPath) && after.binds[i] == c.binds[i];
    } else {
      assert forall i | 0 <= i < |c.binds| :: !MountsTarget(c.binds[i], n.mountPath);
      assert after.binds[|c.binds|] == mount && HasSuffix(mount, ":" + n.mountPath);
    }
  }

  lemma LabelsDiffer()
    ensures MANAGED_LABEL != VOLUME_LABEL && VOLUME_LABEL != HASH_LABEL && HASH_LABEL != MANAGED_LABEL
  {
    assert |MANAGED_LABEL| == 29 && |VOLUME_LABEL| == 28 && |HASH_LABEL| == 33;
  }

  /** And of a disabled one. */
  lemma DisabledContainer(n: Naming, c: Config)
    ensures var after := AfterDisable(n, c);
            && after.other == c.other
            && after.labels.Keys == c.labels.Keys - {"openlit.io/python-sdk-managed", "openlit.io/python-sdk-volume",
                                                     "openlit.io/python-sdk-config-hash"}
            && (forall l | l in after.labels :: after.labels[l] == c.labels[l])
            && (forall b :: b in after.binds <==> b in c.binds && !HasSuffix(b, ":" + n.mountPath))
  {
    UnboundFacts(c.binds, n.mountPath);
  }

  lemma {:induction false} UnboundFacts(binds: seq<string>, target: string)
    ensures forall b :: b in Unbound(binds, target) <==> b in binds && !HasSuffix(b, ":" + target)
  {
    if binds != [] {
      UnboundFacts(binds[1..], target);
    }
  }

  lemma EnvRoundTrip(n: Naming, env: seq<string>, svc: Service, s: Settings)
    requires WellNamed(n) && DistinctKeys(env) && Removable(svc.workloadKey, n.workloadKey) && Unmanaged(n, env)
    ensures DisabledList(n, EnabledList(n, env, svc, s)) == Residue(n, env, svc, s)
  {
    EnabledListIsEnabled(n, env, svc, s);
    LookupUndone(n, env, svc, s, "");
    DisabledListIsDisabled(n, Enabled(n, env, svc, s));
    RemovalUndoesInjection(n, env, svc, s);
  }

  lemma LabelRoundTrip(labels: map<string, string>, volume: string, hash: string)
    requires labels.Keys !! {MANAGED_LABEL, VOLUME_LABEL, HASH_LABEL}
    ensures Unlabelled(Labelled(labels, volume, hash)) == labels
  {
  }

  /** A container without managed variables, labels or mount comes back from enable and disable with its labels and
      binds as they were and its environment up to the service name and tidied resource attributes. */
  lemma ContainerRoundTrip(n: Naming, c: Config, svc: Service, s: Settings, volume: string, hash: string)
    requires WellNamed(n)
    requires DistinctKeys(c.env) && Removable(svc.workloadKey, n.workloadKey) && Unmanaged(n, c.env)
    requires c.labels.Keys !! {MANAGED_LABEL, VOLUME_LABEL, HASH_LABEL}
    requires forall i | 0 <= i < |c.binds| :: !MountsTarget(c.binds[i], n.mountPath)
    ensures AfterDisable(n, AfterEnable(n, c, svc, s, volume, hash)) == c.(env := Residue(n, c.env, svc, s))
  {
    EnvRoundTrip(n, c.env, svc, s);
    LabelRoundTrip(c.labels, volume, hash);
    BindRoundTrip(c.binds, volume, n.mountPath);
  }

  lemma BindRoundTrip(binds: seq<string>, volume: string, target: string)
    requires forall i | 0 <= i < |binds| :: !MountsTarget(binds[i], target)
    ensures Unbound(Bound(binds, volume + ":" + target, target), target) == binds
  {
    var mount := volume + ":" + target;
    assert mount == volume + (":" + target);
    assert MountsTarget(mount, target);
    UnboundConcat(binds, [mount], target);
    UnboundNone(binds, target);
  }

  lemma {:induction false} UnboundNone(binds: seq<string>, target: string)
    requires forall i | 0 <= i < |binds| :: !MountsTarget(binds[i], target)
    ensures Unbound(binds, target) == binds
  {
    if binds != [] {
      UnboundNone(binds[1..], target);
    }
  }
}
