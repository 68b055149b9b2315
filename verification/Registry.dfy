/** The engine's registry: discovered services, the patterns of the instrumented ones, and the OBI configuration that
    has to agree with them. */
module Registry {
  import opened Base
  import opened Patterns

  datatype Status = Discovered | Instrumented

  // ---------------------------------------------------------------- the abstract registry

  datatype Service = Service(seen: Observation, status: Status, lastSeen: int, providers: set<string>)

  /** The configuration of a running OBI: a selector per instrumented service, the providers to parse, and the settings
      that do not depend on the services. */
  datatype ObiConfig = ObiConfig(selectors: map<string, Pattern>, providers: set<string>, settings: string)

  /** `derive` is derivePattern for the engine's deploy mode, and `onlyContainers` says that the mode is Docker.
      `pending` has the configurations that sleeping backoff goroutines of the supervisor will start OBI with. */
  datatype State = State(derive: Derivation, onlyContainers: bool, services: map<string, Service>,
                         patterns: map<string, Pattern>, obi: Option<ObiConfig>, settings: string,
                         pending: multiset<ObiConfig>)

  type Derivation = (string, Observation) -> Pattern

  /** A selector is the pattern, restricted to containers in Docker mode. */
  function Selector(p: Pattern, onlyContainers: bool): Pattern {
    if onlyContainers then p.(containersOnly := true) else p
  }

  function Selectors(s: State): map<string, Pattern> {
    map id | id in s.patterns :: Selector(s.patterns[id], s.onlyContainers)
  }

  /** enabledProvidersForPatterns. */
  function EnabledProviders(s: State): set<string> {
    set id, p | id in s.patterns && id in s.services && p in s.services[id].providers :: p
  }

  function ConfigOf(s: State): ObiConfig {
    ObiConfig(Selectors(s), EnabledProviders(s), s.settings)
  }

  /** rebuildOBI: a Restart stops OBI before it starts it, so a failure leaves it down. */
  function Rebuilt(s: State, ok: bool): State {
    s.(obi := if ok then Some(ConfigOf(s)) else None)
  }

  /** An operation, with the fate of the rebuild it may make. */
  datatype Op =
    | Instrument(id: string, ok: bool)
    | Uninstrument(id: string, ok: bool)
    | Observe(id: string, seen: Observation, provider: string, now: int, ok: bool)
    | Prune(cutoff: int)
    | Configure(settings: string, ok: bool)
    | ObiExits
    | BackoffWakes(config: ObiConfig, ok: bool, over: bool)

  function AfterInstrument(s: State, id: string, ok: bool): State {
    if id !in s.services || id in s.patterns then s
    else
      var t := Rebuilt(s.(patterns := s.patterns[id := s.derive(id, s.services[id].seen)]), ok);
      if ok then t.(services := t.services[id := t.services[id].(status := Instrumented)])
      else t.(patterns := s.patterns - {id})
  }

  function AfterUninstrument(s: State, id: string, ok: bool): State {
    if id !in s.services then s
    else
      var left := s.(patterns := s.patterns - {id});
      if left.patterns == map[] || ok then
        var t := if left.patterns == map[] then left.(obi := None) else Rebuilt(left, true);
        t.(services := t.services[id := t.services[id].(status := Discovered)])
      else
        var oldPattern := if id in s.patterns then s.patterns[id] else NO_PATTERN;
        Rebuilt(left, false).(patterns := left.patterns[id := oldPattern])
  }

  function AfterObserve(s: State, id: string, seen: Observation, provider: string, now: int, ok: bool): State {
    if id !in s.services then
      s.(services := s.services[id := Service(seen, Discovered, now, {provider})])
    else
      var known := s.services[id];
      var svc := Service(seen, known.status, now, known.providers + {provider});
      var t := s.(services := s.services[id := svc]);
      var next := s.derive(id, seen);
      if known.status == Instrumented &&
         (id !in s.patterns || s.patterns[id] != next || provider !in known.providers)
      then Rebuilt(t.(patterns := t.patterns[id := next]), ok)
      else t
  }

  function Stale(s: State, cutoff: int): set<string> {
    set id | id in s.services && s.services[id].lastSeen < cutoff && s.services[id].status != Instrumented
  }

  /** An unexpected exit leaves a backoff goroutine behind; stopping an OBI that is down does not cancel it. */
  function AfterExit(s: State): State {
    if s.obi.None? then s else s.(obi := None, pending := s.pending + multiset{s.obi.value})
  }

  /** A backoff goroutine gives up when OBI runs or its attempts are `over`, and ends when it has started OBI. */
  function AfterWake(s: State, config: ObiConfig, ok: bool, over: bool): State {
    if config !in s.pending then s
    else if s.obi.Some? then s.(pending := s.pending - multiset{config})
    else if ok then s.(obi := Some(config), pending := s.pending - multiset{config})
    else if over then s.(pending := s.pending - multiset{config})
    else s
  }

  function Step(s: State, op: Op): State {
    match op
    case Instrument(id, ok) => AfterInstrument(s, id, ok)
    case Uninstrument(id, ok) => AfterUninstrument(s, id, ok)
    case Observe(id, seen, provider, now, ok) => AfterObserve(s, id, seen, provider, now, ok)
    case Prune(cutoff) => s.(services := s.services - Stale(s, cutoff))
    case Configure(settings, ok) =>
      var t := s.(settings := settings);
      if s.obi.Some? && settings != s.settings then Rebuilt(t, ok) else t
    case ObiExits => AfterExit(s)
    case BackoffWakes(config, ok, over) => AfterWake(s, config, ok, over)
  }

  function Run(s: State, ops: seq<Op>): State {
    if ops == [] then s else Step(Run(s, ops[..|ops| - 1]), ops[|ops| - 1])
  }

  function Empty(mode: Mode, settings: string): State {
    State((id, seen) => DerivePattern(id, seen, mode), mode == Docker, map[], map[], None, settings,
          multiset{})
  }

  // ---------------------------------------------------------------- what every run keeps

  /** A service has a pattern exactly when it is instrumented, and the pattern is the one derived from what is known of
      it now. */
  ghost predicate PatternsMatch(s: State) {
    && (forall id :: id in s.patterns <==> id in s.services && s.services[id].status == Instrumented)
    && (forall id | id in s.patterns :: s.patterns[id] == s.derive(id, s.services[id].seen))
  }

  /** A running OBI has the selectors of all patterns, and of nothing else, and the providers of all instrumented
      services. */
  ghost predicate ObiMatches(s: State) {
    s.obi.Some? ==> s.obi.value == ConfigOf(s)
  }

  ghost predicate Consistent(s: State) {
    PatternsMatch(s) && ObiMatches(s)
  }

  /** The operation that breaks it: uninstrumenting a service without a pattern, with others left and a failing
      rebuild. */
  predicate LeavesZeroPattern(s: State, op: Op) {
    op.Uninstrument? && op.id in s.services && op.id !in s.patterns && s.patterns != map[] && !op.ok
  }

  /** The other one: a backoff goroutine starts OBI with a configuration that is not the registry's any more. */
  predicate RevivesStale(s: State, op: Op) {
    op.BackoffWakes? && op.config in s.pending && s.obi.None? && op.ok && op.config != ConfigOf(s)
  }

  predicate Breaks(s: State, op: Op) {
    LeavesZeroPattern(s, op) || RevivesStale(s, op)
  }

  lemma SameConfig(s: State, t: State)
    requires s.onlyContainers == t.onlyContainers && s.patterns == t.patterns && s.settings == t.settings
    requires forall id | id in s.patterns ::
               (id in s.services <==> id in t.services) &&
               (id in s.services ==> s.services[id].providers == t.services[id].providers)
    ensures ConfigOf(s) == ConfigOf(t)
  {
  }

  lemma InstrumentKeeps(s: State, id: string, ok: bool)
    requires Consistent(s)
    ensures Consistent(AfterInstrument(s, id, ok))
  {
    if id in s.services && id !in s.patterns && ok {
      var added := s.(patterns := s.patterns[id := s.derive(id, s.services[id].seen)]);
      SameConfig(added, AfterInstrument(s, id, ok));
    }
  }

  lemma UninstrumentKeeps(s: State, id: string, ok: bool)
    requires Consistent(s) && !LeavesZeroPattern(s, Uninstrument(id, ok))
    ensures Consistent(AfterUninstrument(s, id, ok))
  {
    if id in s.services {
      var t, left := AfterUninstrument(s, id, ok), s.(patterns := s.patterns - {id});
      if left.patterns == map[] || ok {
        SameConfig(left, t);
      } else {
        assert t.patterns == s.patterns;
      }
    }
  }

  lemma ZeroPatternBreaks(s: State, id: string, ok: bool)
    requires PatternsMatch(s) && LeavesZeroPattern(s, Uninstrument(id, ok))
    ensures !PatternsMatch(AfterUninstrument(s, id, ok))
  {
    var t := AfterUninstrument(s, id, ok);
    assert s.patterns - {id} == s.patterns;
    assert id in t.patterns && t.services == s.services && s.services[id].status != Instrumented;
  }

  lemma ObserveKeeps(s: State, op: Op)
    requires Consistent(s) && op.Observe?
    ensures Consistent(Step(s, op))
  {
    var t := Step(s, op);
    ObserveKeepsPatterns(s, op);
    if t.patterns == s.patterns && t.obi == s.obi && s.obi.Some? {
      if op.id in s.patterns {
        var known := s.services[op.id];
        if op.provider in known.providers {
          assert known.providers + {op.provider} == known.providers;
          SameConfig(s, t);
        }
      } else {
        SameConfig(s, t);
      }
    }
  }

  lemma PruneKeeps(s: State, cutoff: int)
    requires Consistent(s)
    ensures Consistent(Step(s, Prune(cutoff)))
  {
    SameConfig(s, Step(s, Prune(cutoff)));
  }

  lemma WakeKeepsIff(s: State, config: ObiConfig, ok: bool, over: bool)
    requires Consistent(s)
    ensures Consistent(AfterWake(s, config, ok, over)) <==> !RevivesStale(s, BackoffWakes(config, ok, over))
  {
    var t := AfterWake(s, config, ok, over);
    assert t == s.(obi := t.obi, pending := t.pending);
  }

  lemma ExitKeeps(s: State)
    requires Consistent(s)
    ensures Consistent(AfterExit(s))
  {
    var t := AfterExit(s);
    assert t == s.(obi := t.obi, pending := t.pending);
  }

  /** Every operation keeps the registry consistent except those two, which always break it: whatever rebuilds fail. */
  lemma StepKeepsConsistentIff(s: State, op: Op)
    requires Consistent(s)
    ensures Consistent(Step(s, op)) <==> !Breaks(s, op)
  {
    match op {
      case Instrument(id, ok) => InstrumentKeeps(s, id, ok);
      case Uninstrument(id, ok) =>
        if LeavesZeroPattern(s, op) {
          ZeroPatternBreaks(s, id, ok);
        } else {
          UninstrumentKeeps(s, id, ok);
        }
      case Observe(_, _, _, _, _) => ObserveKeeps(s, op);
      case Prune(cutoff) => PruneKeeps(s, cutoff);
      case Configure(_, _) =>
      case ObiExits => ExitKeeps(s);
      case BackoffWakes(config, succeeds, over) => WakeKeepsIff(s, config, succeeds, over);
    }
  }

  lemma InstrumentKeepsPatterns(s: State, id: string, ok: bool)
    requires PatternsMatch(s)
    ensures PatternsMatch(AfterInstrument(s, id, ok))
  {
  }

  lemma UninstrumentKeepsPatterns(s: State, id: string, ok: bool)
    requires PatternsMatch(s) && !LeavesZeroPattern(s, Uninstrument(id, ok))
    ensures PatternsMatch(AfterUninstrument(s, id, ok))
  {
    if id in s.services && s.patterns - {id} != map[] && !ok {
      assert AfterUninstrument(s, id, ok).patterns == s.patterns;
    }
  }

  lemma ObserveKeepsPatterns(s: State, op: Op)
    requires PatternsMatch(s) && op.Observe?
    ensures PatternsMatch(Step(s, op))
  {
  }

  lemma PruneKeepsPatterns(s: State, cutoff: int)
    requires PatternsMatch(s)
    ensures PatternsMatch(Step(s, Prune(cutoff)))
  {
  }

  /** The other operations leave services and patterns alone. */
  lemma OthersKeepPatterns(s: State, op: Op)
    requires PatternsMatch(s) && (op.Configure? || op.ObiExits? || op.BackoffWakes?)
    ensures PatternsMatch(Step(s, op))
  {
  }

  /** The table of patterns does not depend on OBI: whatever rebuilds fail and whatever is revived, only the first of
      the two breaks it. */
  lemma StepKeepsPatternsIff(s: State, op: Op)
    requires PatternsMatch(s)
    ensures PatternsMatch(Step(s, op)) <==> !LeavesZeroPattern(s, op)
  {
    match op {
      case Instrument(id, ok) => InstrumentKeepsPatterns(s, id, ok);
      case Uninstrument(id, ok) =>
        if LeavesZeroPattern(s, op) {
          ZeroPatternBreaks(s, id, ok);
        } else {
          UninstrumentKeepsPatterns(s, id, ok);
        }
      case Observe(_, _, _, _, _) => ObserveKeepsPatterns(s, op);
      case Prune(cutoff) => PruneKeepsPatterns(s, cutoff);
      case Configure(_, _) => OthersKeepPatterns(s, op);
      case ObiExits => OthersKeepPatterns(s, op);
      case BackoffWakes(_, _, _) => OthersKeepPatterns(s, op);
    }
  }

  /** Runs in which nothing breaks the registry, and those in which nothing breaks its table. */
  ghost predicate Sane(s: State, ops: seq<Op>) {
    ops != [] ==> Sane(s, ops[..|ops| - 1]) && !Breaks(Run(s, ops[..|ops| - 1]), ops[|ops| - 1])
  }

  ghost predicate NoZeroPattern(s: State, ops: seq<Op>) {
    ops != [] ==> NoZeroPattern(s, ops[..|ops| - 1]) && !LeavesZeroPattern(Run(s, ops[..|ops| - 1]), ops[|ops| - 1])
  }

  ghost predicate AlwaysConsistent(s: State, ops: seq<Op>) {
    Consistent(Run(s, ops)) && (ops != [] ==> AlwaysConsistent(s, ops[..|ops| - 1]))
  }

  ghost predicate AlwaysPatternsMatch(s: State, ops: seq<Op>) {
    PatternsMatch(Run(s, ops)) && (ops != [] ==> AlwaysPatternsMatch(s, ops[..|ops| - 1]))
  }

  lemma {:induction false} AlwaysConsistentIff(s: State, ops: seq<Op>)
    requires Consistent(s)
    ensures AlwaysConsistent(s, ops) <==> Sane(s, ops)
  {
    if ops != [] {
      var before := Run(s, ops[..|ops| - 1]);
      AlwaysConsistentIff(s, ops[..|ops| - 1]);
      if Consistent(before) {
        StepKeepsConsistentIff(before, ops[|ops| - 1]);
      }
    }
  }

  /** Over all runs of instrument, uninstrument, events, pruning, configuration, exits of OBI and backoff restarts, with
      rebuilds failing at will: the registry is consistent all along exactly when neither of the two happens. */
  lemma RunKeepsConsistentIff(mode: Mode, settings: string, ops: seq<Op>)
    ensures AlwaysConsistent(Empty(mode, settings), ops) <==> Sane(Empty(mode, settings), ops)
  {
    AlwaysConsistentIff(Empty(mode, settings), ops);
  }

  /** Over all those runs, stale restarts among them: a service has its pattern exactly when it is instrumented, all
      along, if and only if no service without a pattern is uninstrumented with a failing rebuild. */
  lemma {:induction false} RunKeepsPatternsIff(mode: Mode, settings: string, ops: seq<Op>)
    ensures AlwaysPatternsMatch(Empty(mode, settings), ops) <==> NoZeroPattern(Empty(mode, settings), ops)
  {
    if ops != [] {
      var before := Run(Empty(mode, settings), ops[..|ops| - 1]);
      RunKeepsPatternsIff(mode, settings, ops[..|ops| - 1]);
      if PatternsMatch(before) {
        StepKeepsPatternsIff(before, ops[|ops| - 1]);
      }
    }
  }

  ghost predicate NoExits(ops: seq<Op>) {
    forall op | op in ops :: !op.ObiExits?
  }

  /** With nothing asleep and no exit, nothing stale can be revived. */
  lemma {:induction false} NothingRevived(s: State, ops: seq<Op>)
    requires s.pending == multiset{} && NoExits(ops)
    ensures Run(s, ops).pending == multiset{}
    ensures Sane(s, ops) <==> NoZeroPattern(s, ops)
  {
    if ops != [] {
      NothingRevived(s, ops[..|ops| - 1]);
    }
  }

  /** Without exits of OBI, whatever rebuilds fail, table and OBI are consistent all along exactly when that one
      operation does not happen. */
  lemma RunWithoutExitsIff(mode: Mode, settings: string, ops: seq<Op>)
    requires NoExits(ops)
    ensures AlwaysConsistent(Empty(mode, settings), ops) <==> NoZeroPattern(Empty(mode, settings), ops)
  {
    AlwaysConsistentIff(Empty(mode, settings), ops);
    NothingRevived(Empty(mode, settings), ops);
  }

  /** The next wake-ups do no harm exactly when OBI runs or every sleeping backoff has the registry's configuration. */
  lemma NextRevivalHarmlessIff(s: State)
    requires Consistent(s)
    ensures (forall c | c in s.pending :: Consistent(Step(s, BackoffWakes(c, true, false)))) <==>
            s.obi.Some? || forall c | c in s.pending :: c == ConfigOf(s)
  {
    forall c | c in s.pending
      ensures Consistent(Step(s, BackoffWakes(c, true, false))) <==> s.obi.Some? || c == ConfigOf(s)
    {
      WakeKeepsIff(s, c, true, false);
    }
  }

  /** A change of settings whose rebuild fails makes what sleeps stale, and its wake-up then breaks the registry. */
  lemma SleeperTurnsStale(s: State, c: ObiConfig) returns (ops: seq<Op>)
    requires c in s.pending
    ensures NoExits(ops) && NoZeroPattern(s, ops) && !Sane(s, ops)
  {
    var other := s.settings + c.settings + "+";
    assert |other| > |s.settings| && |other| > |c.settings|;
    var t;
    ops, t := Then(s, [], s, Configure(other, false));
    assert ConfigOf(t).settings == other && t.obi.None?;
    var changed := ops;
    ops, t := Then(s, ops, t, BackoffWakes(c, true, false));
    assert ops[..|changed|] == changed && changed[..0] == [];
  }

  /** However the registry goes on, without further exits: what sleeps is harmless for good exactly when nothing
      sleeps. */
  lemma RevivalsHarmlessIff(s: State)
    requires Consistent(s)
    ensures (forall ops | NoExits(ops) && NoZeroPattern(s, ops) :: AlwaysConsistent(s, ops)) <==>
            s.pending == multiset{}
  {
    if c :| c in s.pending {
      var ops := SleeperTurnsStale(s, c);
      AlwaysConsistentIff(s, ops);
    } else {
      assert s.pending == multiset{};
      forall ops | NoExits(ops) && NoZeroPattern(s, ops) ensures AlwaysConsistent(s, ops) {
        AlwaysConsistentIff(s, ops);
        NothingRevived(s, ops);
      }
    }
  }

  /** OBI stays down, whatever backoff goroutines do, exactly when none sleeps. */
  lemma StaysDownIff(s: State)
    requires s.obi.None?
    ensures (forall c, ok, over :: Step(s, BackoffWakes(c, ok, over)).obi.None?) <==> s.pending == multiset{}
  {
    if c :| c in s.pending {
      assert Step(s, BackoffWakes(c, true, false)).obi.Some?;
    }
  }

  lemma Discovers(s: State, id: string, seen: Observation, provider: string)
    requires id !in s.services
    ensures var t := Step(s, Observe(id, seen, provider, 0, true)); id in t.services && t.patterns == s.patterns
  {
  }

  lemma InstrumentsFirst(s: State, id: string)
    requires id in s.services && s.patterns == map[]
    ensures var t := Step(s, Instrument(id, true));
            id in t.services && t.patterns.Keys == {id} && t.obi.Some? && id in t.obi.value.selectors
  {
  }

  lemma InstrumentedRun(s0: State, id: string, seen: Observation, provider: string) returns (ops: seq<Op>, s: State)
    requires s0.services == map[] && s0.patterns == map[]
    ensures s == Run(s0, ops) && forall op | op in ops :: Succeeds(op)
    ensures id in s.services && s.patterns.Keys == {id} && s.obi.Some? && id in s.obi.value.selectors
  {
    Discovers(s0, id, seen, provider);
    ops, s := Then(s0, [], s0, Observe(id, seen, provider, 0, true));
    InstrumentsFirst(s, id);
    ops, s := Then(s0, ops, s, Instrument(id, true));
  }

  lemma UninstrumentsLast(s: State, id: string)
    requires id in s.services && s.patterns.Keys == {id}
    ensures var t := Step(s, Uninstrument(id, true)); t.patterns == map[] && t.obi.None? && t.pending == s.pending
  {
    assert s.patterns - {id} == map[];
  }

  /** A run that ends with OBI running although nothing is instrumented: it exits, its service is uninstrumented, which
      stops nothing, and the backoff goroutine starts it again. */
  lemma RunsWithNothingInstrumented(s0: State, id: string, seen: Observation, provider: string)
    returns (ops: seq<Op>)
    requires s0.services == map[] && s0.patterns == map[]
    ensures forall op | op in ops :: Succeeds(op) || op.ObiExits? || (op.BackoffWakes? && op.ok)
    ensures var s := Run(s0, ops); s.patterns == map[] && s.obi.Some? && id in s.obi.value.selectors
  {
    var s;
    ops, s := InstrumentedRun(s0, id, seen, provider);
    var config := s.obi.value;
    ops, s := Then(s0, ops, s, ObiExits);
    UninstrumentsLast(s, id);
    ops, s := Then(s0, ops, s, Uninstrument(id, true));
    ops, s := Then(s0, ops, s, BackoffWakes(config, true, false));
  }

  lemma Then(s0: State, ops: seq<Op>, s: State, op: Op) returns (ops': seq<Op>, s': State)
    requires s == Run(s0, ops)
    ensures ops' == ops + [op] && s' == Step(s, op) == Run(s0, ops')
  {
    ops', s' := ops + [op], Step(s, op);
    assert ops'[..|ops|] == ops;
  }

  predicate Succeeds(op: Op) {
    !op.ObiExits? && !op.BackoffWakes? && (op.Prune? || op.ok)
  }

  predicate ObiUp(s: State) {
    (s.obi.Some? <==> s.patterns != map[]) && s.pending == multiset{}
  }

  lemma SuccessKeepsObiUp(s: State, op: Op)
    requires ObiUp(s) && Succeeds(op) && PatternsMatch(s)
    ensures ObiUp(Step(s, op))
  {
    if op.Instrument? || op.Observe? {
      assert op.id in Step(s, op).patterns ==> Step(s, op).patterns != map[];
    }
  }

  /** While rebuilds succeed and OBI does not exit by itself, it runs exactly when some service is instrumented, with the
      configuration of the current registry. */
  lemma {:induction false} RunningIffInstrumented(mode: Mode, settings: string, ops: seq<Op>)
    requires forall op | op in ops :: Succeeds(op)
    ensures Sane(Empty(mode, settings), ops)
    ensures var s := Run(Empty(mode, settings), ops);
            Consistent(s) && s.pending == multiset{} &&
            s.obi == if s.patterns == map[] then None else Some(ConfigOf(s))
  {
    if ops != [] {
      var before, op := ops[..|ops| - 1], ops[|ops| - 1];
      RunningIffInstrumented(mode, settings, before);
      assert op in ops;
      SuccessKeepsObiUp(Run(Empty(mode, settings), before), op);
      StepKeepsConsistentIff(Run(Empty(mode, settings), before), op);
    }
  }

  // ---------------------------------------------------------------- what is known and instrumented

  /** When a service was last seen; 0 before. */
  function LastSeen(ops: seq<Op>, id: string): int {
    if ops == [] then 0
    else
      var op := ops[|ops| - 1];
      if op.Observe? && op.id == id then op.now else LastSeen(ops[..|ops| - 1], id)
  }

  /** The services seen, and not pruned since: those stale and not instrumented go. */
  function KnownAfter(ops: seq<Op>): set<string>
    decreases |ops|, 1
  {
    if ops == [] then {}
    else
      var before, op := ops[..|ops| - 1], ops[|ops| - 1];
      match op
      case Observe(id, _, _, _, _) => KnownAfter(before) + {id}
      case Prune(cutoff) =>
        set id | id in KnownAfter(before) && (LastSeen(before, id) >= cutoff || id in InstrumentedAfter(before))
      case _ => KnownAfter(before)
  }

  /** The services whose instrumentation succeeded and was not taken back; taking back the last one cannot fail. */
  function InstrumentedAfter(ops: seq<Op>): set<string>
    decreases |ops|, 0
  {
    if ops == [] then {}
    else
      var before, op := ops[..|ops| - 1], ops[|ops| - 1];
      var instrumented := InstrumentedAfter(before);
      match op
      case Instrument(id, ok) => if ok && id in KnownAfter(before) then instrumented + {id} else instrumented
      case Uninstrument(id, ok) =>
        if id in KnownAfter(before) && (ok || instrumented <= {id}) then instrumented - {id} else instrumented
      case _ => instrumented
  }

  /** What was said of a service last. */
  function LastSaid(ops: seq<Op>, id: string): Option<Observation> {
    if ops == [] then None
    else
      var op := ops[|ops| - 1];
      if op.Observe? && op.id == id then Some(op.seen) else LastSaid(ops[..|ops| - 1], id)
  }

  /** The providers it was seen with, since it was last discovered. */
  function SeenWith(ops: seq<Op>, id: string): set<string> {
    if ops == [] then {}
    else
      var before, op := ops[..|ops| - 1], ops[|ops| - 1];
      if op.Observe? && op.id == id
      then (if id in KnownAfter(before) then SeenWith(before, id) else {}) + {op.provider}
      else SeenWith(before, id)
  }

  ghost predicate ServiceFollows(s: State, ops: seq<Op>, id: string)
    requires id in s.services
  {
    && s.services[id].lastSeen == LastSeen(ops, id) && Some(s.services[id].seen) == LastSaid(ops, id)
    && s.services[id].providers == SeenWith(ops, id)
  }

  ghost predicate Follows(s: State, ops: seq<Op>) {
    && s.services.Keys == KnownAfter(ops) && s.patterns.Keys == InstrumentedAfter(ops)
    && forall id | id in s.services :: ServiceFollows(s, ops, id)
  }

  /** What an operation that neither observes nor prunes leaves of the services. */
  ghost predicate SameFacts(s: State, t: State) {
    s.services.Keys == t.services.Keys &&
    forall id | id in s.services ::
      && t.services[id].lastSeen == s.services[id].lastSeen && t.services[id].seen == s.services[id].seen
      && t.services[id].providers == s.services[id].providers
  }

  /** The effect of an operation on what is known and instrumented. */
  ghost predicate Changes(s: State, t: State, op: Op) {
    match op
    case Instrument(id, ok) =>
      SameFacts(s, t) && t.patterns.Keys == s.patterns.Keys + if ok && id in s.services then {id} else {}
    case Uninstrument(id, ok) =>
      && SameFacts(s, t)
      && t.patterns.Keys ==
         s.patterns.Keys - if id in s.services && (ok || s.patterns.Keys <= {id}) then {id} else {}
    case Observe(id, seen, provider, now, _) =>
      && t.patterns.Keys == s.patterns.Keys && t.services.Keys == s.services.Keys + {id}
      && t.services[id].lastSeen == now && t.services[id].seen == seen
      && t.services[id].providers == (if id in s.services then s.services[id].providers else {}) + {provider}
      && forall k | k in s.services && k != id :: t.services[k] == s.services[k]
    case Prune(cutoff) => t.patterns == s.patterns && t.services == s.services - Stale(s, cutoff)
    case _ => t.patterns == s.patterns && t.services == s.services
  }

  lemma InstrumentChanges(s: State, id: string, ok: bool)
    requires PatternsMatch(s)
    ensures Changes(s, AfterInstrument(s, id, ok), Instrument(id, ok))
  {
  }

  lemma WithoutKey(m: map<string, Pattern>, id: string)
    ensures (m - {id}).Keys == m.Keys - {id} && (m - {id} == map[] <==> m.Keys <= {id})
  {
    assert m - {id} == map[] <==> (m - {id}).Keys == {};
  }

  lemma UninstrumentSucceeds(s: State, id: string, ok: bool)
    requires id in s.services && (ok || s.patterns.Keys <= {id})
    ensures SameFacts(s, AfterUninstrument(s, id, ok))
    ensures AfterUninstrument(s, id, ok).patterns.Keys == s.patterns.Keys - {id}
  {
    WithoutKey(s.patterns, id);
  }

  lemma UninstrumentFails(s: State, id: string)
    requires id in s.services && id in s.patterns && !(s.patterns.Keys <= {id})
    ensures SameFacts(s, AfterUninstrument(s, id, false))
    ensures AfterUninstrument(s, id, false).patterns == s.patterns
  {
    WithoutKey(s.patterns, id);
  }

  lemma UninstrumentChanges(s: State, id: string, ok: bool)
    requires !LeavesZeroPattern(s, Uninstrument(id, ok))
    ensures Changes(s, AfterUninstrument(s, id, ok), Uninstrument(id, ok))
  {
    if id in s.services {
      if ok || s.patterns.Keys <= {id} {
        UninstrumentSucceeds(s, id, ok);
      } else {
        assert s.patterns != map[];
        UninstrumentFails(s, id);
      }
    }
  }

  lemma ObserveChanges(s: State, op: Op)
    requires PatternsMatch(s) && op.Observe?
    ensures Changes(s, AfterObserve(s, op.id, op.seen, op.provider, op.now, op.ok), op)
  {
  }

  lemma StepChanges(s: State, op: Op)
    requires PatternsMatch(s) && !LeavesZeroPattern(s, op)
    ensures Changes(s, Step(s, op), op)
  {
    match op {
      case Instrument(id, ok) => InstrumentChanges(s, id, ok);
      case Uninstrument(id, ok) => UninstrumentChanges(s, id, ok);
      case Observe(_, _, _, _, _) => ObserveChanges(s, op);
      case Prune(_) =>
      case Configure(settings, ok) => ConfigureChanges(s, settings, ok);
      case ObiExits =>
      case BackoffWakes(config, ok, over) => WakeChanges(s, config, ok, over);
    }
  }

  lemma ConfigureChanges(s: State, settings: string, ok: bool)
    ensures var t := Step(s, Configure(settings, ok)); t.patterns == s.patterns && t.services == s.services
  {
  }

  lemma WakeChanges(s: State, config: ObiConfig, ok: bool, over: bool)
    ensures var t := AfterWake(s, config, ok, over); t.patterns == s.patterns && t.services == s.services
  {
  }

  lemma KnownStep(s: State, t: State, ops: seq<Op>)
    requires ops != [] && PatternsMatch(s) && Follows(s, ops[..|ops| - 1]) && Changes(s, t, ops[|ops| - 1])
    ensures t.services.Keys == KnownAfter(ops) && t.patterns.Keys == InstrumentedAfter(ops)
  {
    if ops[|ops| - 1].Prune? {
      KnownAfterPrune(s, ops[..|ops| - 1], ops[|ops| - 1].cutoff);
    }
  }

  lemma KnownAfterPrune(s: State, before: seq<Op>, cutoff: int)
    requires PatternsMatch(s) && Follows(s, before)
    ensures s.services.Keys - Stale(s, cutoff) ==
            set id | id in KnownAfter(before) && (LastSeen(before, id) >= cutoff || id in InstrumentedAfter(before))
  {
    forall id | id in s.services
      ensures id in Stale(s, cutoff) <==> LastSeen(before, id) < cutoff && id !in InstrumentedAfter(before)
    {
      assert ServiceFollows(s, before, id);
    }
  }

  lemma ServiceStep(s: State, t: State, ops: seq<Op>, id: string)
    requires ops != [] && Follows(s, ops[..|ops| - 1]) && Changes(s, t, ops[|ops| - 1]) && id in t.services
    ensures ServiceFollows(t, ops, id)
  {
    assert id in s.services ==> ServiceFollows(s, ops[..|ops| - 1], id);
  }

  /** Over all runs without the operation that leaves a zero pattern: the services known are those seen and not pruned,
      each with what was said of it last and all its providers, and those instrumented, with their patterns, are the ones
      whose instrumentation succeeded and was not taken back. */
  lemma {:induction false} RegistryFollows(mode: Mode, settings: string, ops: seq<Op>)
    requires NoZeroPattern(Empty(mode, settings), ops)
    ensures Follows(Run(Empty(mode, settings), ops), ops) && PatternsMatch(Run(Empty(mode, settings), ops))
  {
    if ops != [] {
      var before, op := ops[..|ops| - 1], ops[|ops| - 1];
      RegistryFollows(mode, settings, before);
      var s := Run(Empty(mode, settings), before);
      StepKeepsPatternsIff(s, op);
      StepChanges(s, op);
      KnownStep(s, Step(s, op), ops);
      forall id | id in Step(s, op).services ensures ServiceFollows(Step(s, op), ops, id) {
        ServiceStep(s, Step(s, op), ops, id);
      }
    }
  }

  function LastSettings(settings: string, ops: seq<Op>): string {
    if ops == [] then settings
    else
      var op := ops[|ops| - 1];
      if op.Configure? then op.settings else LastSettings(settings, ops[..|ops| - 1])
  }

  ghost predicate SameMode(s: State, t: State) {
    t.settings == s.settings && t.derive == s.derive && t.onlyContainers == s.onlyContainers
  }

  lemma InstrumentKeepsMode(s: State, id: string, ok: bool)
    ensures SameMode(s, AfterInstrument(s, id, ok))
  {
  }

  lemma UninstrumentKeepsMode(s: State, id: string, ok: bool)
    ensures SameMode(s, AfterUninstrument(s, id, ok))
  {
  }

  lemma ObserveKeepsMode(s: State, op: Op)
    requires op.Observe?
    ensures SameMode(s, AfterObserve(s, op.id, op.seen, op.provider, op.now, op.ok))
  {
  }

  lemma WakeKeepsMode(s: State, config: ObiConfig, ok: bool, over: bool)
    ensures SameMode(s, AfterWake(s, config, ok, over))
  {
  }

  lemma StepKeepsMode(s: State, op: Op)
    ensures SameMode(if op.Configure? then s.(settings := op.settings) else s, Step(s, op))
  {
    match op {
      case Instrument(id, ok) => InstrumentKeepsMode(s, id, ok);
      case Uninstrument(id, ok) => UninstrumentKeepsMode(s, id, ok);
      case Observe(_, _, _, _, _) => ObserveKeepsMode(s, op);
      case Prune(_) =>
      case Configure(_, _) =>
      case ObiExits =>
      case BackoffWakes(config, ok, over) => WakeKeepsMode(s, config, ok, over);
    }
  }

  lemma {:induction false} SettingsFollow(mode: Mode, settings: string, ops: seq<Op>)
    ensures var s := Run(Empty(mode, settings), ops);
            && s.settings == LastSettings(settings, ops) && s.derive == Empty(mode, settings).derive
            && s.onlyContainers == (mode == Docker)
  {
    if ops != [] {
      SettingsFollow(mode, settings, ops[..|ops| - 1]);
      StepKeepsMode(Run(Empty(mode, settings), ops[..|ops| - 1]), ops[|ops| - 1]);
    }
  }

  lemma {:induction false} SaneHasNoZeroPattern(s: State, ops: seq<Op>)
    requires Sane(s, ops)
    ensures NoZeroPattern(s, ops)
  {
    if ops != [] {
      SaneHasNoZeroPattern(s, ops[..|ops| - 1]);
    }
  }

  /** Over all runs in which nothing breaks the registry: when OBI runs, it has one selector for each instrumented
      service, derived from what was said of it last and restricted to containers under Docker, the providers that any
      of them was seen with, and the last settings. */
  lemma RunningConfiguration(mode: Mode, settings: string, ops: seq<Op>)
    requires Sane(Empty(mode, settings), ops) && Run(Empty(mode, settings), ops).obi.Some?
    ensures var c := Run(Empty(mode, settings), ops).obi.value;
            && c.selectors.Keys == InstrumentedAfter(ops) && c.settings == LastSettings(settings, ops)
            && (forall id | id in c.selectors ::
                  && LastSaid(ops, id).Some?
                  && c.selectors[id] == var p := DerivePattern(id, LastSaid(ops, id).value, mode);
                                        p.(containersOnly := mode == Docker || p.containersOnly))
            && (forall p :: p in c.providers <==> exists id | id in InstrumentedAfter(ops) :: p in SeenWith(ops, id))
  {
    var s := Run(Empty(mode, settings), ops);
    SaneHasNoZeroPattern(Empty(mode, settings), ops);
    RegistryFollows(mode, settings, ops);
    SettingsFollow(mode, settings, ops);
    AlwaysConsistentIff(Empty(mode, settings), ops);
    assert forall id | id in s.services :: ServiceFollows(s, ops, id);
    forall p ensures p in EnabledProviders(s) <==> exists id | id in InstrumentedAfter(ops) :: p in SeenWith(ops, id) {
      if p in EnabledProviders(s) {
        var id :| id in s.patterns && id in s.services && p in s.services[id].providers;
        assert ServiceFollows(s, ops, id) && p in SeenWith(ops, id);
      }
      if id :| id in InstrumentedAfter(ops) && p in SeenWith(ops, id) {
        assert ServiceFollows(s, ops, id);
        assert id in s.patterns && id in s.services && p in s.services[id].providers;
      }
    }
  }
}
