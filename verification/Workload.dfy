/** Kubernetes workloads scaled and rolled out by several controllers at once.

    The API server keeps one object with a resource version; a PUT carrying a stale version is answered
    409 Conflict (section 15.5.10 of RFC 9110).  Every controller runs GET-modify-PUT loops of three attempts. */
module Workload {
  import opened Base
  import opened Decimal

  const SAVED_REPLICAS := "openlit.io/saved-replicas"
  const RESTARTED_AT := "openlit.io/restartedAt"
  const MAX_RETRIES: nat := 3
  const MAX_REPLICAS: int := 0x7FFF_FFFF

  /** The parts of the object that the controllers look at; `other` stands for every remaining field. */
  datatype Spec = Spec(replicas: Option<int>, template: Option<map<string, string>>)
  datatype Content = Content(spec: Option<Spec>, annotations: map<string, string>, other: string)
  datatype Versioned = Versioned(content: Content, version: nat)

  datatype Op = Scale(replicas: int, key: string) | Bump(key: string, value: string)

  datatype Decision = Invalid | Unchanged | Write(next: Content)

  function ReadReplicas(spec: Spec): int {
    match spec.replicas
    case Some(n) => n
    case None => 0
  }

  /** What one attempt of atomicScaleWithAnnotation makes of the object it has fetched. */
  function DecideScale(c: Content, replicas: int, key: string): Decision {
    match c.spec
    case None => Invalid
    case Some(spec) =>
      var current := ReadReplicas(spec);
      var annotationMatches :=
        key == "" || (if replicas == 0 then current == 0 && key in c.annotations else key !in c.annotations);
      if current == replicas && annotationMatches then Unchanged
      else
        var annotations :=
          if key == "" then c.annotations
          else if replicas == 0 && current > 0 then c.annotations[key := FormatNat(current)]
          else if replicas > 0 then c.annotations - {key}
          else c.annotations;
        Write(c.(spec := Some(spec.(replicas := Some(replicas))), annotations := annotations))
  }

  /** What one attempt of bumpRolloutAnnotation makes of the object it has fetched. */
  function DecideBump(c: Content, key: string, value: string): Decision {
    if c.spec.None? || c.spec.value.template.None? then Invalid
    else
      var template := c.spec.value.template.value;
      if key in template && template[key] == value then Unchanged
      else Write(c.(spec := Some(c.spec.value.(template := Some(template[key := value])))))
  }

  function Decide(op: Op, c: Content): Decision {
    match op
    case Scale(replicas, key) => DecideScale(c, replicas, key)
    case Bump(key, value) => DecideBump(c, key, value)
  }

  /** readSavedReplicas, on the object fetched. */
  function SavedReplicas(c: Content, key: string): int {
    if key !in c.annotations then 1
    else
      match ScanInt(c.annotations[key])
      case None => 1
      case Some(saved) => if saved < 1 then 1 else saved
  }

  // ---------------------------------------------------------------- the server's history

  /** One accepted write: an operation of a controller, or anything by anybody else. */
  datatype Entry = Landed(who: nat, op: Op) | External(content: Content)

  function Effect(e: Entry, c: Content): Content {
    match e
    case External(content) => content
    case Landed(_, op) =>
      match Decide(op, c)
      case Write(next) => next
      case _ => c
  }

  /** The pure updates, one after the other. */
  function Replay(c: Content, log: seq<Entry>): Content {
    if log == [] then c else Effect(log[|log| - 1], Replay(c, log[..|log| - 1]))
  }

  /** Every operation in the log had something to write where it stands. */
  ghost predicate Replayable(c: Content, log: seq<Entry>) {
    log != [] ==>
      && Replayable(c, log[..|log| - 1])
      && var e := log[|log| - 1]; e.Landed? ==> Decide(e.op, Replay(c, log[..|log| - 1])).Write?
  }

  predicate IsOwn(e: Entry, id: nat) {
    e.Landed? && e.who == id
  }

  ghost predicate OnlyOthers(log: seq<Entry>, from: nat, id: nat) {
    forall i | from <= i < |log| :: !IsOwn(log[i], id)
  }

  /** After a successful PUT the version moves on; a PUT that changes nothing may keep it. */
  predicate NextVersion(server: Versioned, next: Content, version: nat) {
    server.version < version || (server.version == version && server.content == next)
  }

  // ---------------------------------------------------------------- what an update does

  /** Two maps agree but perhaps at one key. */
  predicate SameBut(a: map<string, string>, b: map<string, string>, key: string) {
    a - {key} == b - {key}
  }

  /** A rollout puts the value under the key of the pod template and touches nothing else; it fails exactly without a
      template, and finds nothing to do exactly if the value is there. */
  lemma BumpWrites(who: nat, key: string, value: string, c: Content)
    ensures var d := Decide(Bump(key, value), c);
            && (d.Invalid? <==> c.spec.None? || c.spec.value.template.None?)
            && (d.Unchanged? <==> !d.Invalid? && key in c.spec.value.template.value &&
                                  c.spec.value.template.value[key] == value)
            && (!d.Invalid? ==>
                  var after := Effect(Landed(who, Bump(key, value)), c);
                  && after.spec.Some? && after.spec.value.template.Some?
                  && key in after.spec.value.template.value && after.spec.value.template.value[key] == value
                  && SameBut(after.spec.value.template.value, c.spec.value.template.value, key)
                  && after.spec.value.replicas == c.spec.value.replicas
                  && after.annotations == c.annotations && after.other == c.other)
  {
  }

  /** A scale sets the count; down to zero it saves a positive count under the key in the same write, up from zero it
      drops the key, and it touches nothing else.  It fails exactly without a spec, and finds nothing to do exactly if
      the count is there and the key is where it should be. */
  lemma ScaleWrites(who: nat, replicas: int, key: string, c: Content)
    ensures var d := Decide(Scale(replicas, key), c);
            && (d.Invalid? <==> c.spec.None?)
            && (d.Unchanged? <==> c.spec.Some? && Count(c) == replicas &&
                                  (key == "" || (key in c.annotations <==> replicas == 0)))
            && (!d.Invalid? ==>
                  var after := Effect(Landed(who, Scale(replicas, key)), c);
                  && after.spec.Some? && Count(after) == replicas && after.other == c.other
                  && after.spec.value.template == c.spec.value.template
                  && SameBut(after.annotations, c.annotations, key)
                  && (key == "" ==> after.annotations == c.annotations)
                  && (key != "" && replicas > 0 ==> key !in after.annotations)
                  && (key != "" && replicas == 0 && Count(c) > 0 ==>
                        key in after.annotations && after.annotations[key] == FormatNat(Count(c)))
                  && (replicas < 0 || (replicas == 0 && Count(c) <= 0) ==> after.annotations == c.annotations))
  {
  }

  /** The replicas of the object, none counting as zero. */
  function Count(c: Content): int
    requires c.spec.Some?
  {
    if c.spec.value.replicas.Some? then c.spec.value.replicas.value else 0
  }

  /** What a Start reads: a positive decimal under the key, and 1 for anything else. */
  lemma SavedReplicasReads(c: Content, key: string)
    ensures SavedReplicas(c, key) >= 1
    ensures key !in c.annotations ==> SavedReplicas(c, key) == 1
    ensures forall k: nat | key in c.annotations && c.annotations[key] == FormatNat(k) && 0 < k <= MAX_REPLICAS ::
              SavedReplicas(c, key) == k
  {
    forall k: nat | key in c.annotations && c.annotations[key] == FormatNat(k) && 0 < k <= MAX_REPLICAS
      ensures SavedReplicas(c, key) == k
    {
      ScanFormat(k);
    }
  }

  // ---------------------------------------------------------------- interleaved controllers

  datatype Command = Stop | Start | Rollout(stamp: string)

  datatype Outcome = Applied | AlreadyThere | Conflicted | Failed

  /** Where a controller is.  `begun` and `at` are lengths of the server's history when the command began
      and when the object held was fetched. */
  datatype Phase =
    | Reading(begun: nat)
    | Fetching(op: Op, attempt: nat, begun: nat)
    | Putting(op: Op, attempt: nat, base: Versioned, next: Content, begun: nat, at: nat)
    | Finished(command: Option<Op>, outcome: Outcome, begun: nat, landedAt: Option<nat>)

  datatype System = System(server: Versioned, phases: map<nat, Phase>, log: seq<Entry>)

  datatype Event =
    | Begin(id: nat, command: Command)
    | Get(id: nat)
    | GetFails(id: nat)
    | PutLands(id: nat, version: nat, replySeen: bool)
    | PutConflicts(id: nat)
    | PutRefused(id: nat)
    | Outside(content: Content, version: nat)

  function FirstPhase(command: Command, begun: nat): Phase {
    match command
    case Stop => Fetching(Scale(0, SAVED_REPLICAS), 0, begun)
    case Start => Reading(begun)
    case Rollout(stamp) => Fetching(Bump(RESTARTED_AT, stamp), 0, begun)
  }

  predicate Enabled(s: System, e: Event) {
    match e
    case Begin(id, _) => id in s.phases ==> s.phases[id].Finished?
    case Get(id) => id in s.phases && (s.phases[id].Reading? || s.phases[id].Fetching?)
    case GetFails(id) => id in s.phases && (s.phases[id].Reading? || s.phases[id].Fetching?)
    case PutLands(id, version, _) =>
      && id in s.phases && s.phases[id].Putting?
      && s.phases[id].base.version == s.server.version
      && NextVersion(s.server, s.phases[id].next, version)
    case PutConflicts(id) =>
      id in s.phases && s.phases[id].Putting? && s.phases[id].base.version != s.server.version
    case PutRefused(id) => id in s.phases && s.phases[id].Putting?
    case Outside(content, version) => NextVersion(s.server, content, version)
  }

  function PhaseAfterGet(p: Phase, server: Versioned, now: nat): Phase
    requires p.Reading? || p.Fetching?
  {
    match p
    case Reading(begun) => Fetching(Scale(SavedReplicas(server.content, SAVED_REPLICAS), SAVED_REPLICAS), 0, begun)
    case Fetching(op, attempt, begun) =>
      match Decide(op, server.content)
      case Invalid => Finished(Some(op), Failed, begun, None)
      case Unchanged => Finished(Some(op), AlreadyThere, begun, None)
      case Write(next) => Putting(op, attempt, server, next, begun, now)
  }

  function Step(s: System, e: Event): System
    requires Enabled(s, e)
  {
    match e
    case Begin(id, command) => s.(phases := s.phases[id := FirstPhase(command, |s.log|)])
    case Get(id) => s.(phases := s.phases[id := PhaseAfterGet(s.phases[id], s.server, |s.log|)])
    case GetFails(id) =>
      var p := s.phases[id];
      s.(phases := s.phases[id := Finished(if p.Fetching? then Some(p.op) else None, Failed, p.begun, None)])
    case PutLands(id, version, replySeen) =>
      var p := s.phases[id];
      System(Versioned(p.next, version),
             s.phases[id := Finished(Some(p.op), if replySeen then Applied else Failed, p.begun, Some(|s.log|))],
             s.log + [Landed(id, p.op)])
    case PutConflicts(id) =>
      var p := s.phases[id];
      s.(phases := s.phases[id := if p.attempt + 1 < MAX_RETRIES then Fetching(p.op, p.attempt + 1, p.begun)
                                  else Finished(Some(p.op), Conflicted, p.begun, None)])
    case PutRefused(id) =>
      var p := s.phases[id];
      s.(phases := s.phases[id := Finished(Some(p.op), Failed, p.begun, None)])
    case Outside(content, version) =>
      s.(server := Versioned(content, version), log := s.log + [External(content)])
  }

  /** `es` is a possible interleaving from `s`. */
  ghost predicate Possible(s: System, es: seq<Event>)
    decreases |es|, 0
  {
    es != [] ==> Possible(s, es[..|es| - 1]) && Enabled(Run(s, es[..|es| - 1]), es[|es| - 1])
  }

  ghost function Run(s: System, es: seq<Event>): System
    requires Possible(s, es)
    decreases |es|, 1
  {
    if es == [] then s else Step(Run(s, es[..|es| - 1]), es[|es| - 1])
  }

  function Initial(server: Versioned): System {
    System(server, map[], [])
  }

  // ---------------------------------------------------------------- no write is lost

  ghost predicate PhaseOk(s: System, id: nat, p: Phase) {
    p.begun <= |s.log| &&
    match p
    case Reading(begun) => OnlyOthers(s.log, begun, id)
    case Fetching(_, attempt, begun) =>
      attempt < MAX_RETRIES && begun + attempt <= |s.log| && OnlyOthers(s.log, begun, id)
    case Putting(op, attempt, base, next, begun, at) =>
      && attempt < MAX_RETRIES && begun + attempt <= at <= |s.log| && OnlyOthers(s.log, begun, id)
      && Decide(op, base.content) == Write(next)
      && base.version <= s.server.version
      && (base.version == s.server.version ==> base.content == s.server.content)
      && (base.version != s.server.version ==> at < |s.log|)
    case Finished(op, outcome, begun, landedAt) =>
      && (outcome != Failed ==> op.Some?)
      && (outcome == Applied ==> landedAt.Some?)
      && (outcome == AlreadyThere || outcome == Conflicted ==> landedAt.None?)
      && (outcome == Conflicted ==> begun + MAX_RETRIES <= |s.log|)
      && match landedAt
         case None => OnlyOthers(s.log, begun, id)
         case Some(k) =>
           && begun <= k < |s.log| && op.Some? && s.log[k] == Landed(id, op.value)
           && (forall i | begun <= i < |s.log| && i != k :: !IsOwn(s.log[i], id))
  }

  ghost predicate Inv(init: Content, s: System) {
    && Replayable(init, s.log)
    && s.server.content == Replay(init, s.log)
    && forall id | id in s.phases :: PhaseOk(s, id, s.phases[id])
  }

  lemma ReplaySnoc(c: Content, log: seq<Entry>, e: Entry)
    ensures Replay(c, log + [e]) == Effect(e, Replay(c, log))
    ensures Replayable(c, log + [e]) <==>
            Replayable(c, log) && (e.Landed? ==> Decide(e.op, Replay(c, log)).Write?)
  {
    assert (log + [e])[..|log|] == log;
  }

  /** The step of controller `id` itself keeps what it knows. */
  lemma OwnStepKeepsPhase(s: System, e: Event, id: nat)
    requires Enabled(s, e) && !e.Outside? && e.id == id
    requires id in s.phases ==> PhaseOk(s, id, s.phases[id])
    ensures PhaseOk(Step(s, e), id, Step(s, e).phases[id])
  {
  }

  /** The steps of everybody else leave it true. */
  lemma OtherStepKeepsPhase(s: System, e: Event, id: nat)
    requires Enabled(s, e) && (e.Outside? || e.id != id)
    requires id in s.phases && PhaseOk(s, id, s.phases[id])
    ensures PhaseOk(Step(s, e), id, s.phases[id])
  {
    var t := Step(s, e);
    assert s.log <= t.log && forall i | |s.log| <= i < |t.log| :: !IsOwn(t.log[i], id);
    assert t.server == s.server ||
           (|t.log| == |s.log| + 1 && NextVersion(s.server, t.server.content, t.server.version));
  }

  lemma StepKeepsPhases(s: System, e: Event)
    requires Enabled(s, e) && forall id | id in s.phases :: PhaseOk(s, id, s.phases[id])
    ensures forall id | id in Step(s, e).phases :: PhaseOk(Step(s, e), id, Step(s, e).phases[id])
  {
    forall id | id in Step(s, e).phases ensures PhaseOk(Step(s, e), id, Step(s, e).phases[id]) {
      StepKeepsPhase(s, e, id);
    }
  }

  lemma StepKeepsPhase(s: System, e: Event, id: nat)
    requires Enabled(s, e) && id in Step(s, e).phases
    requires id in s.phases ==> PhaseOk(s, id, s.phases[id])
    ensures PhaseOk(Step(s, e), id, Step(s, e).phases[id])
  {
    if !e.Outside? && e.id == id {
      OwnStepKeepsPhase(s, e, id);
    } else {
      assert Step(s, e).phases[id] == s.phases[id];
      OtherStepKeepsPhase(s, e, id);
    }
  }

  lemma StepKeepsReplay(init: Content, s: System, e: Event)
    requires Inv(init, s) && Enabled(s, e)
    ensures Replayable(init, Step(s, e).log) && Step(s, e).server.content == Replay(init, Step(s, e).log)
  {
    if e.PutLands? {
      assert PhaseOk(s, e.id, s.phases[e.id]);
      ReplaySnoc(init, s.log, Landed(e.id, s.phases[e.id].op));
    } else if e.Outside? {
      ReplaySnoc(init, s.log, External(e.content));
    }
  }

  lemma StepKeepsInv(init: Content, s: System, e: Event)
    requires Inv(init, s) && Enabled(s, e)
    ensures Inv(init, Step(s, e))
  {
    StepKeepsReplay(init, s, e);
    StepKeepsPhases(s, e);
  }

  lemma {:induction false} RunKeepsInv(init: Content, s: System, es: seq<Event>)
    requires Inv(init, s) && Possible(s, es)
    ensures Inv(init, Run(s, es))
  {
    if es != [] {
      RunKeepsInv(init, s, es[..|es| - 1]);
      StepKeepsInv(init, Run(s, es[..|es| - 1]), es[|es| - 1]);
    }
  }

  /** For any number of controllers and any interleaving, with failing requests and lost replies, the object is what a
      serial run of the accepted updates gives, and every command knows its part in that serial run. */
  lemma Serializable(server: Versioned, es: seq<Event>)
    requires Possible(Initial(server), es)
    ensures Inv(server.content, Run(Initial(server), es))
  {
    RunKeepsInv(server.content, Initial(server), es);
  }

  /** A 409 means that another write was accepted between this controller's GET and its PUT; giving up after three
      of them means three such writes, and that nothing of the command was written. */
  lemma ConflictMeansInterference(server: Versioned, es: seq<Event>, id: nat)
    requires Possible(Initial(server), es)
    requires var s := Run(Initial(server), es); Enabled(s, PutConflicts(id))
    ensures var s := Run(Initial(server), es);
            s.phases[id].at < |s.log| && OnlyOthers(s.log, s.phases[id].at, id)
    ensures var s := Run(Initial(server), es);
            var t := Step(s, PutConflicts(id));
            t.phases[id].Finished? ==> s.phases[id].begun + 3 <= |s.log| &&
                                       OnlyOthers(s.log, s.phases[id].begun, id)
  {
    Serializable(server, es);
    var s := Run(Initial(server), es);
    assert PhaseOk(s, id, s.phases[id]);
  }

  /** One more event at the end of a run. */
  lemma Extend(s0: System, es: seq<Event>, s: System, e: Event) returns (es': seq<Event>, s': System)
    requires Possible(s0, es) && s == Run(s0, es) && Enabled(s, e)
    ensures es' == es + [e] && Possible(s0, es') && s' == Step(s, e) == Run(s0, es')
  {
    es', s' := es + [e], Step(s, e);
    assert es'[..|es|] == es;
  }

  /** The operation a command turns into when it fetches c. */
  function OpOf(command: Command, c: Content): Op {
    match command
    case Stop => Scale(0, SAVED_REPLICAS)
    case Start => Scale(SavedReplicas(c, SAVED_REPLICAS), SAVED_REPLICAS)
    case Rollout(stamp) => Bump(RESTARTED_AT, stamp)
  }

  lemma UndisturbedLoop(s0: System, es: seq<Event>, s: System, id: nat) returns (es': seq<Event>, s': System)
    requires Possible(s0, es) && s == Run(s0, es) && id in s.phases && s.phases[id].Fetching?
    requires !Decide(s.phases[id].op, s.server.content).Invalid?
    ensures Possible(s0, es') && s' == Run(s0, es')
    ensures s'.server.content == Effect(Landed(id, s.phases[id].op), s.server.content)
    ensures id in s'.phases && s'.phases == s.phases[id := s'.phases[id]] && s'.phases[id].Finished?
    ensures s'.phases[id].outcome == if Decide(s.phases[id].op, s.server.content).Write? then Applied else AlreadyThere
  {
    es', s' := Extend(s0, es, s, Get(id));
    if s'.phases[id].Putting? {
      es', s' := Extend(s0, es', s', PutLands(id, s'.server.version + 1, true));
    }
  }

  /** There is a run in which a command applies its update, or finds it applied, at the first try. */
  lemma Undisturbed(s0: System, es: seq<Event>, s: System, id: nat, command: Command)
    returns (es': seq<Event>, s': System)
    requires Possible(s0, es) && s == Run(s0, es) && Enabled(s, Begin(id, command))
    requires !Decide(OpOf(command, s.server.content), s.server.content).Invalid?
    ensures Possible(s0, es') && s' == Run(s0, es')
    ensures s'.server.content == Effect(Landed(id, OpOf(command, s.server.content)), s.server.content)
    ensures id in s'.phases && s'.phases == s.phases[id := s'.phases[id]] && s'.phases[id].Finished?
    ensures s'.phases[id].outcome ==
            if Decide(OpOf(command, s.server.content), s.server.content).Write? then Applied else AlreadyThere
  {
    es', s' := Extend(s0, es, s, Begin(id, command));
    if command.Start? {
      es', s' := Extend(s0, es', s', Get(id));
    }
    es', s' := UndisturbedLoop(s0, es', s', id);
  }

  /** What happens while only this controller acts, and no request fails or loses its reply. */
  predicate Alone(e: Event, id: nat) {
    !e.Outside? && e.id == id && !e.Begin? && !e.GetFails? && !e.PutRefused? && (e.PutLands? ==> e.replySeen)
  }

  function OutcomeOf(d: Decision): Outcome {
    match d
    case Write(_) => Applied
    case Unchanged => AlreadyThere
    case Invalid => Failed
  }

  /** How far a command has come that found the object c. */
  ghost predicate OnItsWay(s: System, id: nat, command: Command, c: Content) {
    var op := OpOf(command, c);
    id in s.phases &&
    match s.phases[id]
    case Reading(_) => command.Start? && s.server.content == c
    case Fetching(o, attempt, _) => o == op && attempt == 0 && s.server.content == c
    case Putting(o, _, base, next, _, _) =>
      o == op && base == s.server && s.server.content == c && Decide(op, c) == Write(next)
    case Finished(o, outcome, _, _) =>
      o == Some(op) && outcome == OutcomeOf(Decide(op, c)) && s.server.content == Effect(Landed(id, op), c)
  }

  lemma OnItsWayStep(s: System, e: Event, id: nat, command: Command, c: Content)
    requires OnItsWay(s, id, command, c) && Enabled(s, e) && Alone(e, id)
    ensures OnItsWay(Step(s, e), id, command, c)
  {
  }

  /** In every run with nobody else at work and no failure a command, once it ends, has applied its update or found it
      applied, without a conflict. */
  lemma {:induction false} AloneCommandsApply(s: System, id: nat, command: Command, es: seq<Event>)
    requires Enabled(s, Begin(id, command)) && Possible(Step(s, Begin(id, command)), es)
    requires forall e | e in es :: Alone(e, id)
    ensures OnItsWay(Run(Step(s, Begin(id, command)), es), id, command, s.server.content)
  {
    if es != [] {
      var init := es[..|es| - 1];
      AloneCommandsApply(s, id, command, init);
      OnItsWayStep(Run(Step(s, Begin(id, command)), init), es[|es| - 1], id, command, s.server.content);
    }
  }

  // ---------------------------------------------------------------- the stamp of a rollout

  /** The command a controller has begun last. */
  function CommandOf(es: seq<Event>, id: nat): Option<Command> {
    if es == [] then None
    else
      var e := es[|es| - 1];
      if e.Begin? && e.id == id then Some(e.command) else CommandOf(es[..|es| - 1], id)
  }

  /** The stamp of the last rollout whose write was accepted. */
  function LandedStamp(es: seq<Event>): Option<string> {
    if es == [] then None
    else
      var e := es[|es| - 1];
      var command := if e.PutLands? then CommandOf(es[..|es| - 1], e.id) else None;
      if command.Some? && command.value.Rollout? then Some(command.value.stamp) else LandedStamp(es[..|es| - 1])
  }

  function Template(c: Content): Option<map<string, string>> {
    if c.spec.None? then None else c.spec.value.template
  }

  predicate RunsCommand(p: Phase, command: Option<Command>) {
    p.Finished? ||
    (command.Some? &&
     match command.value
     case Stop => !p.Reading? && p.op == Scale(0, SAVED_REPLICAS)
     case Start => p.Reading? || (p.op.Scale? && p.op.key == SAVED_REPLICAS && p.op.replicas >= 1)
     case Rollout(stamp) => !p.Reading? && p.op == Bump(RESTARTED_AT, stamp))
  }

  ghost predicate RunCommands(s: System, es: seq<Event>) {
    forall id | id in s.phases :: RunsCommand(s.phases[id], CommandOf(es, id))
  }

  lemma {:induction false} CommandsAreRun(server: Versioned, es: seq<Event>)
    requires Possible(Initial(server), es)
    ensures RunCommands(Run(Initial(server), es), es)
  {
    if es != [] {
      var before, e := es[..|es| - 1], es[|es| - 1];
      CommandsAreRun(server, before);
      var s := Run(Initial(server), before);
      SavedReplicasReads(s.server.content, SAVED_REPLICAS);
      forall id | id in Step(s, e).phases ensures RunsCommand(Step(s, e).phases[id], CommandOf(es, id)) {
        assert id in s.phases ==> RunsCommand(s.phases[id], CommandOf(before, id));
      }
    }
  }

  /** Without foreign writes, after any interleaving of any commands, the pod template is the original one with the
      stamp of the last landed rollout under its key. */
  lemma {:induction false} StampIsLastLanded(server: Versioned, es: seq<Event>)
    requires Possible(Initial(server), es) && forall e | e in es :: !e.Outside?
    ensures var before, after := Template(server.content), Template(Run(Initial(server), es).server.content);
            match LandedStamp(es)
            case None => after == before
            case Some(stamp) => before.Some? && after == Some(before.value["openlit.io/restartedAt" := stamp])
  {
    if es != [] {
      var before, e := es[..|es| - 1], es[|es| - 1];
      StampIsLastLanded(server, before);
      if e.PutLands? {
        var s := Run(Initial(server), before);
        Serializable(server, before);
        CommandsAreRun(server, before);
        var p := s.phases[e.id];
        assert PhaseOk(s, e.id, p) && RunsCommand(p, CommandOf(before, e.id));
        LandedTemplate(s.server.content, p.op, p.next);
        if p.op.Bump? && LandedStamp(before).Some? {
          SetTwice(Template(server.content).value, RESTARTED_AT, LandedStamp(before).value, p.op.value);
        }
      }
    }
  }

  lemma SetTwice(m: map<string, string>, key: string, first: string, second: string)
    ensures m[key := first][key := second] == m[key := second]
  {
  }

  lemma LandedTemplate(c: Content, op: Op, next: Content)
    requires Decide(op, c) == Write(next)
    ensures op.Scale? ==> Template(next) == Template(c)
    ensures op.Bump? ==> Template(c).Some? && Template(next) == Some(Template(c).value[op.key := op.value])
  {
  }
}
