/** Injecting the Python SDK into a container's environment and taking it out again. */
module SdkInjection {
  import opened Base
  import opened Text
  import opened EnvEdits
  import opened ResourceAttrs

  datatype Service = Service(name: string, workloadKey: string)

  /** The settings of an action; "" is an absent one, and the headers are already formatted. */
  datatype Settings = Settings(endpoint: string, environment: string, protocol: string, traces: string, metrics: string,
                               logs: string, headers: string)

  /** The variables that the controller touches. */
  datatype Variable = PythonPath | ControllerMode | ServiceName | Endpoint | DeploymentEnvironment | ResourceAttributes
                    | Protocol | TracesEndpoint | MetricsEndpoint | LogsEndpoint | Headers | DisabledInstrumentors

  /** The names and paths in use, so that nothing below depends on how they are spelt. */
  datatype Naming = Naming(key: Variable -> Key, managedPath: string, mountPath: string, workloadKey: Key,
                           agentMode: string, disabledList: string)

  /** All that matters about them. */
  ghost predicate WellNamed(n: Naming) {
    && (forall v, w | n.key(v) == n.key(w) :: v == w)
    && n.managedPath != "" && n.mountPath <= n.managedPath && PlainKey(n.workloadKey)
  }

  // ---------------------------------------------------------------- what enable and disable do to each variable

  /** dockerManagedPythonPath. */
  function WithManagedPath(n: Naming, o: Option<string>): string {
    if o.None? || o.value == "" then n.managedPath
    else if Contains(o.value, n.managedPath) then o.value
    else n.managedPath + ":" + o.value
  }

  /** The value that rewritePythonPathWithoutManagedSDK leaves, "" for none. */
  function WithoutManagedPath(n: Naming, value: string): string {
    TrimPrefix(TrimPrefix(value, n.managedPath + ":"), n.managedPath)
  }

  function Value(o: Option<string>): string {
    if o.Some? then o.value else ""
  }

  function Filled(v: string): Option<string> {
    if v == "" then None else Some(v)
  }

  /** An optional setting replaces the value when it is given. */
  function Given(setting: string, o: Option<string>): Option<string> {
    if setting == "" then o else Some(setting)
  }

  function Injected(n: Naming, v: Variable, svc: Service, s: Settings, o: Option<string>): Option<string> {
    match v
    case PythonPath => Some(WithManagedPath(n, o))
    case ControllerMode => Some(n.agentMode)
    case ServiceName => Some(svc.name)
    case Endpoint => Some(s.endpoint)
    case DeploymentEnvironment => Some(s.environment)
    case ResourceAttributes =>
      if svc.workloadKey == "" then o else Some(Merge(Value(o), n.workloadKey, svc.workloadKey))
    case Protocol => Given(s.protocol, o)
    case TracesEndpoint => Given(s.traces, o)
    case MetricsEndpoint => Given(s.metrics, o)
    case LogsEndpoint => Given(s.logs, o)
    case Headers => Given(s.headers, o)
    case DisabledInstrumentors => Some(n.disabledList)
  }

  function Removed(n: Naming, v: Variable, o: Option<string>): Option<string> {
    match v
    case ServiceName => o
    case PythonPath => if o.None? then None else Filled(WithoutManagedPath(n, o.value))
    case ResourceAttributes => if o.None? then None else Filled(Remove(o.value, n.workloadKey))
    case _ => None
  }

  const INJECT_ORDER: seq<Variable> :=
    [PythonPath, ControllerMode, ServiceName, Endpoint, DeploymentEnvironment, ResourceAttributes, Protocol,
     TracesEndpoint, MetricsEndpoint, LogsEndpoint, Headers, DisabledInstrumentors]

  const REMOVE_ORDER: seq<Variable> :=
    [ControllerMode, Endpoint, Protocol, TracesEndpoint, MetricsEndpoint, LogsEndpoint, Headers, DeploymentEnvironment,
     DisabledInstrumentors, ResourceAttributes, PythonPath]

  function InjectEdit(n: Naming, v: Variable, svc: Service, s: Settings): Edit {
    Edit(n.key(v), o => Injected(n, v, svc, s, o))
  }

  function RemoveEdit(n: Naming, v: Variable): Edit {
    Edit(n.key(v), o => Removed(n, v, o))
  }

  function Injection(n: Naming, svc: Service, s: Settings): (edits: seq<Edit>)
    ensures |edits| == |INJECT_ORDER|
    ensures forall i | 0 <= i < |edits| :: edits[i] == InjectEdit(n, INJECT_ORDER[i], svc, s)
  {
    seq(|INJECT_ORDER|, i requires 0 <= i < |INJECT_ORDER| => InjectEdit(n, INJECT_ORDER[i], svc, s))
  }

  function Removal(n: Naming): (edits: seq<Edit>)
    ensures |edits| == |REMOVE_ORDER| && forall i | 0 <= i < |edits| :: edits[i] == RemoveEdit(n, REMOVE_ORDER[i])
  {
    seq(|REMOVE_ORDER|, i requires 0 <= i < |REMOVE_ORDER| => RemoveEdit(n, REMOVE_ORDER[i]))
  }

  /** The environment after enable, and after disable. */
  function Enabled(n: Naming, env: seq<string>, svc: Service, s: Settings): seq<string> {
    ApplyAll(env, Injection(n, svc, s))
  }

  function Disabled(n: Naming, env: seq<string>): seq<string> {
    ApplyAll(env, Removal(n))
  }

  lemma OrdersDistinct(n: Naming, svc: Service, s: Settings)
    requires WellNamed(n)
    ensures DistinctEdits(Injection(n, svc, s)) && DistinctEdits(Removal(n))
    ensures forall v :: v in INJECT_ORDER
    ensures forall v :: v in REMOVE_ORDER <==> v != ServiceName
  {
    forall i, j | 0 <= i < j < |INJECT_ORDER| ensures n.key(INJECT_ORDER[i]) != n.key(INJECT_ORDER[j]) {
    }
    forall i, j | 0 <= i < j < |REMOVE_ORDER| ensures n.key(REMOVE_ORDER[i]) != n.key(REMOVE_ORDER[j]) {
    }
    forall v ensures v in INJECT_ORDER && (v in REMOVE_ORDER <==> v != ServiceName) {
      VariableListed(v);
    }
  }

  lemma VariableListed(v: Variable)
    ensures v in INJECT_ORDER
    ensures v in REMOVE_ORDER <==> v != ServiceName
  {
    var i, r := INJECT_ORDER, REMOVE_ORDER;
    match v {
      case PythonPath => assert i[0] == v && r[10] == v;
      case ControllerMode => assert i[1] == v && r[0] == v;
      case ServiceName => assert i[2] == v;
      case Endpoint => assert i[3] == v && r[1] == v;
      case DeploymentEnvironment => assert i[4] == v && r[7] == v;
      case ResourceAttributes => assert i[5] == v && r[9] == v;
      case Protocol => assert i[6] == v && r[2] == v;
      case TracesEndpoint => assert i[7] == v && r[3] == v;
      case MetricsEndpoint => assert i[8] == v && r[4] == v;
      case LogsEndpoint => assert i[9] == v && r[5] == v;
      case Headers => assert i[10] == v && r[6] == v;
      case DisabledInstrumentors => assert i[11] == v && r[8] == v;
    }
  }

  // ---------------------------------------------------------------- removal undoes injection

  /** Both together, on the value of one variable. */
  function Net(n: Naming, v: Variable, svc: Service, s: Settings, o: Option<string>): Option<string> {
    Removed(n, v, Injected(n, v, svc, s, o))
  }

  /** A Python path survives exactly when it is absent or, if present, neither empty nor headed by the managed path. */
  lemma PathSurvivesIff(n: Naming, svc: Service, s: Settings, o: Option<string>)
    requires WellNamed(n)
    ensures Net(n, PythonPath, svc, s, o) == o <==> (o.Some? ==> o.value != "" && !(n.managedPath <= o.value))
  {
    if o.None? || o.value == "" {
      assert TrimPrefix(n.managedPath, n.managedPath) == "";
    } else if !Contains(o.value, n.managedPath) {
      var head := n.managedPath + ":";
      assert n.managedPath + ":" + o.value == head + o.value && (head + o.value)[|head|..] == o.value;
    }
  }

  /** The remaining resource attributes are those that removal alone would leave, exactly when the workload key has
      nothing of its own after a comma. */
  lemma AttributesSurviveIff(n: Naming, svc: Service, s: Settings, o: Option<string>)
    requires WellNamed(n)
    ensures Net(n, ResourceAttributes, svc, s, o) == Removed(n, ResourceAttributes, o) <==>
            Removable(svc.workloadKey, n.workloadKey)
  {
    if svc.workloadKey == "" {
      assert Split("", ',') == [""];
    } else {
      RemoveAfterMergeIff(Value(o), n.workloadKey, svc.workloadKey);
      MergeEmpty(n.workloadKey, svc.workloadKey);
    }
  }

  /** Disable drops the variable whatever its value. */
  predicate IsDropped(v: Variable) {
    v != ServiceName && v != PythonPath && v != ResourceAttributes
  }

  /** The container has nothing of its own that the controller would take for its own. */
  ghost predicate Unmanaged(n: Naming, env: seq<string>) {
    && (forall v: Variable | IsDropped(v) :: Lookup(env, n.key(v)) == None)
    && var path := Lookup(env, n.key(PythonPath)); path.Some? ==> path.value != "" && !(n.managedPath <= path.value)
  }

  /** What enable followed by disable leaves: the service name set, the resource attributes tidied. */
  function Residue(n: Naming, env: seq<string>, svc: Service, s: Settings): seq<string> {
    Apply(Apply(env, InjectEdit(n, ServiceName, svc, s)), RemoveEdit(n, ResourceAttributes))
  }

  /** Disable after enable, as one list of edits. */
  lemma AsOneList(n: Naming, env: seq<string>, svc: Service, s: Settings) returns (edits: seq<Edit>)
    requires WellNamed(n)
    ensures Disabled(n, Enabled(n, env, svc, s)) == ApplyAll(env, edits)
    ensures |edits| == |INJECT_ORDER| && DistinctEdits(edits)
    ensures forall i | 0 <= i < |edits| ::
              edits[i].key == n.key(INJECT_ORDER[i]) &&
              forall o :: edits[i].change(o) == Net(n, INJECT_ORDER[i], svc, s, o)
  {
    var es, ds := Injection(n, svc, s), Removal(n);
    OrdersDistinct(n, svc, s);
    RemovalsAbsorbed(n, svc, s);
    UndoAll(env, es, ds);
    edits := AbsorbAll(es, ds);
    forall i | 0 <= i < |es|
      ensures |edits| == |es| && edits[i].key == n.key(INJECT_ORDER[i])
      ensures forall o :: edits[i].change(o) == Net(n, INJECT_ORDER[i], svc, s, o)
    {
      AbsorbAllShape(es, ds, i);
      forall o ensures edits[i].change(o) == Net(n, INJECT_ORDER[i], svc, s, o) {
        RemovalOf(n, INJECT_ORDER[i], es[i].change(o));
      }
    }
  }

  /** Every removal concerns a variable that is injected, and brings nothing in. */
  lemma RemovalsAbsorbed(n: Naming, svc: Service, s: Settings)
    requires WellNamed(n)
    ensures Unabsorbed(Injection(n, svc, s), Removal(n)) == []
    ensures forall d | d in Removal(n) :: BringsNothing(d)
    ensures forall e | e in Injection(n, svc, s) :: Keeps(e)
  {
    var es, ds := Injection(n, svc, s), Removal(n);
    forall i | 0 <= i < |ds| ensures Edits(es, ds[i].key) && BringsNothing(ds[i]) {
      var v := REMOVE_ORDER[i];
      VariableListed(v);
      InjectsAndRemoves(n, v, svc, s);
      var j :| 0 <= j < |INJECT_ORDER| && INJECT_ORDER[j] == v;
      assert es[j].key == ds[i].key;
    }
    NothingUnabsorbed(es, ds);
    forall e | e in es ensures Keeps(e) {
      var j :| 0 <= j < |es| && es[j] == e;
      InjectsAndRemoves(n, INJECT_ORDER[j], svc, s);
    }
  }

  lemma InjectsAndRemoves(n: Naming, v: Variable, svc: Service, s: Settings)
    ensures v != ServiceName ==> Removed(n, v, None) == None
    ensures forall value :: Injected(n, v, svc, s, Some(value)).Some?
  {
  }

  lemma {:induction false} NothingUnabsorbed(edits: seq<Edit>, ds: seq<Edit>)
    requires forall i | 0 <= i < |ds| :: Edits(edits, ds[i].key)
    ensures Unabsorbed(edits, ds) == []
  {
    if ds != [] {
      NothingUnabsorbed(edits, ds[1..]);
    }
  }

  /** What the list of removals does to one variable. */
  lemma RemovalOf(n: Naming, v: Variable, o: Option<string>)
    requires WellNamed(n)
    ensures Changed(Removal(n), n.key(v), o) == Removed(n, v, o)
  {
    OrdersDistinct(n, Service("", ""), Settings("", "", "", "", "", "", ""));
    var ds := Removal(n);
    if v == ServiceName {
      forall i | 0 <= i < |ds| ensures ds[i].key != n.key(v) {
        if ds[i].key == n.key(v) {
          VariableListed(v);
        }
      }
      ChangedElsewhere(ds, n.key(v), o);
    } else {
      VariableListed(v);
      var i :| 0 <= i < |REMOVE_ORDER| && REMOVE_ORDER[i] == v;
      ChangedAt(ds, i, o);
    }
  }

  lemma InjectionOf(n: Naming, v: Variable, svc: Service, s: Settings, o: Option<string>)
    requires WellNamed(n)
    ensures Changed(Injection(n, svc, s), n.key(v), o) == Injected(n, v, svc, s, o)
  {
    OrdersDistinct(n, svc, s);
    VariableListed(v);
    var i :| 0 <= i < |INJECT_ORDER| && INJECT_ORDER[i] == v;
    ChangedAt(Injection(n, svc, s), i, o);
  }

  /** Injection is undone by removal, up to the service name and tidied resource attributes, exactly when the container
      has nothing of its own under a managed name and the workload key nothing of its own after a comma. */
  lemma RemovalUndoesInjectionIff(n: Naming, env: seq<string>, svc: Service, s: Settings)
    requires WellNamed(n) && DistinctKeys(env)
    ensures Disabled(n, Enabled(n, env, svc, s)) == Residue(n, env, svc, s) <==>
            Unmanaged(n, env) && Removable(svc.workloadKey, n.workloadKey)
  {
    if Unmanaged(n, env) && Removable(svc.workloadKey, n.workloadKey) {
      RemovalUndoesInjection(n, env, svc, s);
    } else if Disabled(n, Enabled(n, env, svc, s)) == Residue(n, env, svc, s) {
      forall v: Variable | IsDropped(v) ensures Lookup(env, n.key(v)) == None {
        VariableSurvived(n, env, svc, s, v);
      }
      VariableSurvived(n, env, svc, s, PythonPath);
      PathSurvivesIff(n, svc, s, Lookup(env, n.key(PythonPath)));
      AttributesTidied(n, env, svc, s);
      AttributesSurviveIff(n, svc, s, Lookup(env, n.key(ResourceAttributes)));
    }
  }

  lemma AttributesTidied(n: Naming, env: seq<string>, svc: Service, s: Settings)
    requires WellNamed(n)
    requires DistinctKeys(env) && Disabled(n, Enabled(n, env, svc, s)) == Residue(n, env, svc, s)
    ensures var o := Lookup(env, n.key(ResourceAttributes));
            Net(n, ResourceAttributes, svc, s, o) == Removed(n, ResourceAttributes, o)
  {
    var o, named := Lookup(env, n.key(ResourceAttributes)), InjectEdit(n, ServiceName, svc, s);
    LookupAfter(env, named, n.key(ResourceAttributes));
    ApplyDistinct(env, named);
    LookupAfter(Apply(env, named), RemoveEdit(n, ResourceAttributes), n.key(ResourceAttributes));
    LookupUndone(n, env, svc, s, n.key(ResourceAttributes));
    InjectionOf(n, ResourceAttributes, svc, s, o);
    RemovalOf(n, ResourceAttributes, Injected(n, ResourceAttributes, svc, s, o));
  }

  lemma VariableSurvived(n: Naming, env: seq<string>, svc: Service, s: Settings, v: Variable)
    requires WellNamed(n)
    requires DistinctKeys(env) && Disabled(n, Enabled(n, env, svc, s)) == Residue(n, env, svc, s)
    requires v != ServiceName && v != ResourceAttributes
    ensures Net(n, v, svc, s, Lookup(env, n.key(v))) == Lookup(env, n.key(v))
  {
    LookupResidue(n, env, svc, s, v);
    LookupUndone(n, env, svc, s, n.key(v));
    InjectionOf(n, v, svc, s, Lookup(env, n.key(v)));
    RemovalOf(n, v, Injected(n, v, svc, s, Lookup(env, n.key(v))));
  }

  lemma LookupResidue(n: Naming, env: seq<string>, svc: Service, s: Settings, v: Variable)
    requires WellNamed(n)
    requires DistinctKeys(env) && v != ServiceName && v != ResourceAttributes
    ensures Lookup(Residue(n, env, svc, s), n.key(v)) == Lookup(env, n.key(v))
  {
    LookupAfter(env, InjectEdit(n, ServiceName, svc, s), n.key(v));
    LookupAfter(Apply(env, InjectEdit(n, ServiceName, svc, s)), RemoveEdit(n, ResourceAttributes), n.key(v));
  }

  /** Every variable after enable and disable. */
  lemma LookupUndone(n: Naming, env: seq<string>, svc: Service, s: Settings, key: Key)
    requires WellNamed(n)
    requires DistinctKeys(env)
    ensures DistinctKeys(Enabled(n, env, svc, s)) && DistinctKeys(Disabled(n, Enabled(n, env, svc, s)))
    ensures Lookup(Disabled(n, Enabled(n, env, svc, s)), key) ==
            Changed(Removal(n), key, Changed(Injection(n, svc, s), key, Lookup(env, key)))
  {
    LookupAfterAll(env, Injection(n, svc, s), key);
    LookupAfterAll(Enabled(n, env, svc, s), Removal(n), key);
  }

  lemma RemovalUndoesInjection(n: Naming, env: seq<string>, svc: Service, s: Settings)
    requires WellNamed(n)
    requires Removable(svc.workloadKey, n.workloadKey) && Unmanaged(n, env)
    ensures Disabled(n, Enabled(n, env, svc, s)) == Residue(n, env, svc, s)
  {
    var edits := AsOneList(n, env, svc, s);
    OrderAt();
    forall i | 0 <= i < |edits| && i != 2 && i != 5 ensures Idle(env, edits[i]) {
      var v := INJECT_ORDER[i];
      IdleVariable(n, env, svc, s, v);
      assert edits[i].key == n.key(v);
      assert edits[i].change(Lookup(env, n.key(v))) == Net(n, v, svc, s, Lookup(env, n.key(v)));
    }
    AllIdleButTwo(env, edits, 2, 5);
    TwoEdits(n, env, svc, s, edits[2], edits[5]);
  }

  lemma OrderAt()
    ensures |INJECT_ORDER| == 12 && INJECT_ORDER[2] == ServiceName && INJECT_ORDER[5] == ResourceAttributes
    ensures forall i | 0 <= i < 12 && i != 2 && i != 5 ::
              INJECT_ORDER[i] != ServiceName && INJECT_ORDER[i] != ResourceAttributes
  {
  }

  lemma IdleVariable(n: Naming, env: seq<string>, svc: Service, s: Settings, v: Variable)
    requires WellNamed(n)
    requires Unmanaged(n, env) && v != ServiceName && v != ResourceAttributes
    ensures Net(n, v, svc, s, Lookup(env, n.key(v))) == Lookup(env, n.key(v))
  {
    if v == PythonPath {
      PathSurvivesIff(n, svc, s, Lookup(env, n.key(PythonPath)));
    } else {
      assert IsDropped(v);
    }
  }

  lemma TwoEdits(n: Naming, env: seq<string>, svc: Service, s: Settings, named: Edit, tidied: Edit)
    requires WellNamed(n)
    requires Removable(svc.workloadKey, n.workloadKey)
    requires named.key == n.key(ServiceName) && forall o :: named.change(o) == Net(n, ServiceName, svc, s, o)
    requires tidied.key == n.key(ResourceAttributes)
    requires forall o :: tidied.change(o) == Net(n, ResourceAttributes, svc, s, o)
    ensures Apply(Apply(env, named), tidied) == Residue(n, env, svc, s)
  {
    forall o ensures tidied.change(o) == RemoveEdit(n, ResourceAttributes).change(o) {
      AttributesSurviveIff(n, svc, s, o);
    }
    ApplySame(env, named, InjectEdit(n, ServiceName, svc, s));
    ApplySame(Apply(env, named), tidied, RemoveEdit(n, ResourceAttributes));
  }

  /** For a container that also has no service name and no untidy resource attributes, the environment comes back with
      one entry appended. */
  lemma RoundTripAppendsServiceName(n: Naming, env: seq<string>, svc: Service, s: Settings)
    requires WellNamed(n)
    requires Removable(svc.workloadKey, n.workloadKey) && Unmanaged(n, env) && Lookup(env, n.key(ServiceName)) == None
    requires Removed(n, ResourceAttributes, Lookup(env, n.key(ResourceAttributes))) ==
             Lookup(env, n.key(ResourceAttributes))
    ensures Disabled(n, Enabled(n, env, svc, s)) == env + [Entry(n.key(ServiceName), svc.name)]
  {
    RemovalUndoesInjection(n, env, svc, s);
    var named := InjectEdit(n, ServiceName, svc, s);
    ApplyAppends(env, named);
    LookupAfter(env, named, n.key(ResourceAttributes));
    ApplyNothing(Apply(env, named), RemoveEdit(n, ResourceAttributes));
  }

  // ---------------------------------------------------------------- the values

  /** The value of a variable, or what was there if the setting is not given. */
  predicate IsSetOrKept(env: seq<string>, before: seq<string>, key: Key, setting: string) {
    Lookup(env, key) == if setting != "" then Some(setting) else Lookup(before, key)
  }

  /** The managed path is the whole value, or stands before what was there, unless it was in there already. */
  predicate HasManagedPath(n: Naming, after: Option<string>, before: Option<string>) {
    after.Some? &&
    if before.None? || before.value == "" then after.value == n.managedPath
    else if Contains(before.value, n.managedPath) then after == before
    else after.value == n.managedPath + ":" + before.value
  }

  /** The pair is among the attributes, up to a comma of its value, and so is what was there under other keys. */
  predicate HasWorkloadKey(n: Naming, after: Option<string>, before: Option<string>, workloadKey: string) {
    if workloadKey == "" then after == before
    else
      && after.Some?
      && Entry(n.workloadKey, TrimRight(Split(workloadKey, ',')[0])) in Pieces(after.value)
      && (forall p | p in Pieces(Value(before)) && KeyOf(p) != Some(n.workloadKey) :: p in Pieces(after.value))
  }

  /** The variables that are always set. */
  predicate RequiredValues(n: Naming, env: seq<string>, svc: Service, s: Settings) {
    && Lookup(env, n.key(ControllerMode)) == Some(n.agentMode)
    && Lookup(env, n.key(ServiceName)) == Some(svc.name)
    && Lookup(env, n.key(Endpoint)) == Some(s.endpoint)
    && Lookup(env, n.key(DeploymentEnvironment)) == Some(s.environment)
    && Lookup(env, n.key(DisabledInstrumentors)) == Some(n.disabledList)
  }

  predicate OptionalValues(n: Naming, env: seq<string>, before: seq<string>, s: Settings) {
    && IsSetOrKept(env, before, n.key(Protocol), s.protocol)
    && IsSetOrKept(env, before, n.key(TracesEndpoint), s.traces)
    && IsSetOrKept(env, before, n.key(MetricsEndpoint), s.metrics)
    && IsSetOrKept(env, before, n.key(LogsEndpoint), s.logs)
    && IsSetOrKept(env, before, n.key(Headers), s.headers)
  }

  ghost predicate IsManagedKey(n: Naming, key: Key) {
    exists v :: n.key(v) == key
  }

  lemma EnabledRequired(n: Naming, env: seq<string>, svc: Service, s: Settings)
    requires WellNamed(n) && DistinctKeys(env)
    ensures RequiredValues(n, Enabled(n, env, svc, s), svc, s)
  {
    EnabledOnce(n, env, svc, s, ControllerMode);
    EnabledOnce(n, env, svc, s, ServiceName);
    EnabledOnce(n, env, svc, s, Endpoint);
    EnabledOnce(n, env, svc, s, DeploymentEnvironment);
    EnabledOnce(n, env, svc, s, DisabledInstrumentors);
  }

  lemma EnabledOptional(n: Naming, env: seq<string>, svc: Service, s: Settings)
    requires WellNamed(n) && DistinctKeys(env)
    ensures OptionalValues(n, Enabled(n, env, svc, s), env, s)
  {
    EnabledOnce(n, env, svc, s, Protocol);
    EnabledOnce(n, env, svc, s, TracesEndpoint);
    EnabledOnce(n, env, svc, s, MetricsEndpoint);
    EnabledOnce(n, env, svc, s, LogsEndpoint);
    EnabledOnce(n, env, svc, s, Headers);
  }

  lemma EnabledElsewhere(n: Naming, env: seq<string>, svc: Service, s: Settings, key: Key)
    requires DistinctKeys(env) && !IsManagedKey(n, key)
    ensures Lookup(Enabled(n, env, svc, s), key) == Lookup(env, key)
  {
    var edits := Injection(n, svc, s);
    forall i | 0 <= i < |edits| ensures edits[i].key != key {
      assert n.key(INJECT_ORDER[i]) == edits[i].key;
    }
    LookupAfterAll(env, edits, key);
    ChangedElsewhere(edits, key, Lookup(env, key));
  }

  /** What the environment holds after enable: every variable its own setting, and all others what they were. */
  lemma EnabledValues(n: Naming, env: seq<string>, svc: Service, s: Settings)
    requires WellNamed(n) && DistinctKeys(env)
    ensures var after := Enabled(n, env, svc, s);
            && DistinctKeys(after) && RequiredValues(n, after, svc, s) && OptionalValues(n, after, env, s)
            && HasManagedPath(n, Lookup(after, n.key(PythonPath)), Lookup(env, n.key(PythonPath)))
            && HasWorkloadKey(n, Lookup(after, n.key(ResourceAttributes)), Lookup(env, n.key(ResourceAttributes)),
                              svc.workloadKey)
            && forall key: Key | !IsManagedKey(n, key) :: Lookup(after, key) == Lookup(env, key)
  {
    EnabledRequired(n, env, svc, s);
    EnabledOptional(n, env, svc, s);
    EnabledOnce(n, env, svc, s, PythonPath);
    EnabledOnce(n, env, svc, s, ResourceAttributes);
    MergeHolds(Value(Lookup(env, n.key(ResourceAttributes))), n.workloadKey, svc.workloadKey);
    forall key: Key | !IsManagedKey(n, key) ensures Lookup(Enabled(n, env, svc, s), key) == Lookup(env, key) {
      EnabledElsewhere(n, env, svc, s, key);
    }
  }

  lemma DisabledOnce(n: Naming, env: seq<string>, v: Variable)
    requires WellNamed(n) && DistinctKeys(env)
    ensures DistinctKeys(Disabled(n, env))
    ensures Lookup(Disabled(n, env), n.key(v)) == Removed(n, v, Lookup(env, n.key(v)))
  {
    LookupAfterAll(env, Removal(n), n.key(v));
    RemovalOf(n, v, Lookup(env, n.key(v)));
  }

  predicate RequiredGone(n: Naming, env: seq<string>) {
    && Lookup(env, n.key(ControllerMode)) == Lookup(env, n.key(DisabledInstrumentors)) == None
    && Lookup(env, n.key(Endpoint)) == Lookup(env, n.key(DeploymentEnvironment)) == None
  }

  predicate OptionalGone(n: Naming, env: seq<string>) {
    && Lookup(env, n.key(Protocol)) == Lookup(env, n.key(Headers)) == None
    && Lookup(env, n.key(TracesEndpoint)) == Lookup(env, n.key(MetricsEndpoint)) == None
    && Lookup(env, n.key(LogsEndpoint)) == None
  }

  lemma DisabledDropsRequired(n: Naming, env: seq<string>)
    requires WellNamed(n) && DistinctKeys(env)
    ensures RequiredGone(n, Disabled(n, env))
  {
    DisabledOnce(n, env, ControllerMode);
    DisabledOnce(n, env, DisabledInstrumentors);
    DisabledOnce(n, env, Endpoint);
    DisabledOnce(n, env, DeploymentEnvironment);
  }

  lemma DisabledDropsOptional(n: Naming, env: seq<string>)
    requires WellNamed(n) && DistinctKeys(env)
    ensures OptionalGone(n, Disabled(n, env))
  {
    DisabledOnce(n, env, Protocol);
    DisabledOnce(n, env, Headers);
    DisabledOnce(n, env, TracesEndpoint);
    DisabledOnce(n, env, MetricsEndpoint);
    DisabledOnce(n, env, LogsEndpoint);
  }

  lemma DisabledElsewhere(n: Naming, env: seq<string>, key: Key)
    requires DistinctKeys(env) && !IsManagedKey(n, key)
    ensures Lookup(Disabled(n, env), key) == Lookup(env, key)
  {
    var edits := Removal(n);
    forall i | 0 <= i < |edits| ensures edits[i].key != key {
      assert n.key(REMOVE_ORDER[i]) == edits[i].key;
    }
    LookupAfterAll(env, edits, key);
    ChangedElsewhere(edits, key, Lookup(env, key));
  }

  /** And after disable: the variables of the controller are gone, the path without the managed head, the attributes
      without the workload key, and the service name and all others what they were. */
  lemma DisabledValues(n: Naming, env: seq<string>)
    requires WellNamed(n) && DistinctKeys(env)
    ensures var after := Disabled(n, env);
            && DistinctKeys(after)
            && RequiredGone(n, after) && OptionalGone(n, after)
            && Lookup(after, n.key(ServiceName)) == Lookup(env, n.key(ServiceName))
            && LacksManagedPath(n, Lookup(after, n.key(PythonPath)), Lookup(env, n.key(PythonPath)))
            && LacksWorkloadKey(n, Lookup(after, n.key(ResourceAttributes)), Lookup(env, n.key(ResourceAttributes)))
            && forall key: Key | !IsManagedKey(n, key) :: Lookup(after, key) == Lookup(env, key)
  {
    DisabledDropsRequired(n, env);
    DisabledDropsOptional(n, env);
    DisabledOnce(n, env, ServiceName);
    DisabledOnce(n, env, PythonPath);
    DisabledPath(n, Lookup(env, n.key(PythonPath)));
    DisabledOnce(n, env, ResourceAttributes);
    DisabledAttributes(n, Lookup(env, n.key(ResourceAttributes)));
    forall key: Key | !IsManagedKey(n, key) ensures Lookup(Disabled(n, env), key) == Lookup(env, key) {
      DisabledElsewhere(n, env, key);
    }
  }

  lemma DisabledPath(n: Naming, o: Option<string>)
    requires WellNamed(n)
    ensures LacksManagedPath(n, Removed(n, PythonPath, o), o)
  {
    var head := n.managedPath + ":";
    assert o.Some? && head <= o.value ==> n.managedPath <= o.value;
    forall rest: string | o == Some(head + rest) && !(n.managedPath <= rest)
      ensures WithoutManagedPath(n, o.value) == rest
    {
      assert (head + rest)[|head|..] == rest;
    }
  }

  lemma DisabledAttributes(n: Naming, o: Option<string>)
    ensures LacksWorkloadKey(n, Removed(n, ResourceAttributes, o), o)
  {
    RemoveLeaves(Value(o), n.workloadKey);
    MergeEmpty(n.workloadKey, "");
  }

  /** A path that has the managed one at its head loses it, and an empty rest goes with it. */
  ghost predicate LacksManagedPath(n: Naming, after: Option<string>, before: Option<string>) {
    && (before.None? ==> after.None?)
    && (before.Some? && !(n.managedPath <= before.value) ==> Value(after) == before.value)
    && (forall rest: string | before == Some(n.managedPath + ":" + rest) && !(n.managedPath <= rest) ::
          Value(after) == rest)
    && (before == Some(n.managedPath) ==> after.None?)
    && (after.Some? ==> after.value != "")
  }

  /** The attributes of other keys stay, in order; if there are none the variable goes. */
  predicate LacksWorkloadKey(n: Naming, after: Option<string>, before: Option<string>) {
    && (after.Some? <==> Without(Pieces(Value(before)), n.workloadKey) != [])
    && (after.Some? ==> Pieces(after.value) == Without(Pieces(Value(before)), n.workloadKey))
  }

  // ---------------------------------------------------------------- enabling twice

  /** Nothing but blanks comes after a comma of the workload key. */
  predicate Mergeable(svc: Service) {
    svc.workloadKey == "" || Extras(svc.workloadKey) == []
  }

  lemma InjectedTwiceIff(n: Naming, v: Variable, svc: Service, s: Settings, o: Option<string>)
    requires WellNamed(n)
    ensures Injected(n, v, svc, s, Injected(n, v, svc, s, o)) == Injected(n, v, svc, s, o) <==>
            v != ResourceAttributes || Mergeable(svc)
  {
    match v {
      case PythonPath =>
        var path := WithManagedPath(n, o);
        assert Contains(path, n.managedPath) by {
          assert n.managedPath <= path || path == o.value;
        }
      case ResourceAttributes =>
        MergeTwiceIff(Value(o), n.workloadKey, svc.workloadKey);
      case _ =>
    }
  }

  /** Enable is idempotent exactly then. */
  lemma EnableIsIdempotentIff(n: Naming, env: seq<string>, svc: Service, s: Settings)
    requires WellNamed(n) && DistinctKeys(env)
    ensures Enabled(n, Enabled(n, env, svc, s), svc, s) == Enabled(n, env, svc, s) <==> Mergeable(svc)
  {
    var once, edits := Enabled(n, env, svc, s), Injection(n, svc, s);
    if Mergeable(svc) {
      forall e | e in edits ensures Idle(once, e) {
        var i :| 0 <= i < |edits| && edits[i] == e;
        EnabledOnce(n, env, svc, s, INJECT_ORDER[i]);
        InjectedTwiceIff(n, INJECT_ORDER[i], svc, s, Lookup(env, n.key(INJECT_ORDER[i])));
      }
      AllIdle(once, edits);
    } else if Enabled(n, once, svc, s) == once {
      EnabledOnce(n, env, svc, s, ResourceAttributes);
      EnabledOnce(n, once, svc, s, ResourceAttributes);
      InjectedTwiceIff(n, ResourceAttributes, svc, s, Lookup(env, n.key(ResourceAttributes)));
    }
  }

  lemma EnabledOnce(n: Naming, env: seq<string>, svc: Service, s: Settings, v: Variable)
    requires WellNamed(n) && DistinctKeys(env)
    ensures DistinctKeys(Enabled(n, env, svc, s))
    ensures Lookup(Enabled(n, env, svc, s), n.key(v)) == Injected(n, v, svc, s, Lookup(env, n.key(v)))
  {
    LookupAfterAll(env, Injection(n, svc, s), n.key(v));
    InjectionOf(n, v, svc, s, Lookup(env, n.key(v)));
  }
}
