/** Stopping a controlled Kubernetes workload remembers its replica count; starting it restores the count. */
module StopStart {
  import opened Base
  import opened Decimal
  import opened Workload

  const STOP_OP := Scale(0, SAVED_REPLICAS)

  /** The workload before anybody stopped it. */
  predicate Original(c: Content, r: nat) {
    && c.spec.Some? && c.spec.value.replicas == Some(r) && 0 < r <= MAX_REPLICAS
    && SAVED_REPLICAS !in c.annotations
  }

  /** Running as in c0: same count, annotations and other fields; only rollouts may have touched the pod template. */
  predicate RunningAs(c: Content, c0: Content, r: nat) {
    c.spec.Some? && c.spec.value.replicas == Some(r) && c.annotations == c0.annotations && c.other == c0.other
  }

  /** Scaled to zero, with the count of c0 saved and nothing else changed. */
  predicate StoppedFrom(c: Content, c0: Content, r: nat) {
    && c.spec.Some? && c.spec.value.replicas == Some(0) && c.other == c0.other
    && c.annotations == c0.annotations[SAVED_REPLICAS := FormatNat(r)]
  }

  predicate IsRollout(op: Op) {
    op.Bump? && op.key == RESTARTED_AT
  }

  // ---------------------------------------------------------------- any number of Stops

  predicate StopsOrRollouts(e: Event) {
    !e.Outside? && (e.Begin? ==> !e.command.Start?)
  }

  ghost predicate StoppingPhase(p: Phase, server: Content, c0: Content, r: nat) {
    match p
    case Reading(_) => false
    case Fetching(op, _, _) => op == STOP_OP || IsRollout(op)
    case Putting(op, _, _, _, _, _) => op == STOP_OP || IsRollout(op)
    case Finished(op, outcome, _, landedAt) =>
      op == Some(STOP_OP) && (landedAt.Some? || outcome == AlreadyThere) ==> StoppedFrom(server, c0, r)
  }

  ghost predicate Stopping(s: System, c0: Content, r: nat) {
    && (RunningAs(s.server.content, c0, r) || StoppedFrom(s.server.content, c0, r))
    && forall id | id in s.phases :: StoppingPhase(s.phases[id], s.server.content, c0, r)
  }

  /** The updates themselves: a Stop goes from running to stopped and finds nothing to do when repeated. */
  lemma StopDecisions(c: Content, c0: Content, r: nat)
    requires Original(c0, r)
    ensures RunningAs(c, c0, r) ==> Decide(STOP_OP, c).Write? && StoppedFrom(Decide(STOP_OP, c).next, c0, r)
    ensures StoppedFrom(c, c0, r) ==> Decide(STOP_OP, c) == Unchanged
  {
  }

  lemma RolloutKeepsShape(op: Op, c: Content, c0: Content, r: nat)
    requires IsRollout(op) && Decide(op, c).Write?
    ensures RunningAs(c, c0, r) ==> RunningAs(Decide(op, c).next, c0, r)
    ensures StoppedFrom(c, c0, r) ==> StoppedFrom(Decide(op, c).next, c0, r)
  {
  }

  lemma StoppingStep(s: System, e: Event, init: Content, c0: Content, r: nat)
    requires Original(c0, r) && Inv(init, s) && Stopping(s, c0, r)
    requires Enabled(s, e) && StopsOrRollouts(e)
    ensures Stopping(Step(s, e), c0, r)
  {
    var t := Step(s, e);
    StopDecisions(s.server.content, c0, r);
    if e.PutLands? {
      var p := s.phases[e.id];
      assert PhaseOk(s, e.id, p) && StoppingPhase(p, s.server.content, c0, r);
      if IsRollout(p.op) {
        RolloutKeepsShape(p.op, s.server.content, c0, r);
      }
    }
    forall id | id in t.phases ensures StoppingPhase(t.phases[id], t.server.content, c0, r) {
      if id in s.phases {
        assert PhaseOk(s, id, s.phases[id]) && StoppingPhase(s.phases[id], s.server.content, c0, r);
      }
    }
  }

  lemma {:induction false} StoppingRun(server: Versioned, es: seq<Event>, r: nat)
    requires Original(server.content, r)
    requires Possible(Initial(server), es) && forall e | e in es :: StopsOrRollouts(e)
    ensures Stopping(Run(Initial(server), es), server.content, r)
  {
    if es != [] {
      var before := es[..|es| - 1];
      StoppingRun(server, before, r);
      Serializable(server, before);
      StoppingStep(Run(Initial(server), before), es[|es| - 1], server.content, server.content, r);
    }
  }

  /** A workload once stopped stays stopped. */
  lemma StoppedStep(s: System, e: Event, init: Content, c0: Content, r: nat)
    requires Original(c0, r) && Inv(init, s) && Stopping(s, c0, r) && StoppedFrom(s.server.content, c0, r)
    requires Enabled(s, e) && StopsOrRollouts(e)
    ensures StoppedFrom(Step(s, e).server.content, c0, r)
  {
    StopDecisions(s.server.content, c0, r);
    if e.PutLands? {
      var p := s.phases[e.id];
      assert PhaseOk(s, e.id, p) && StoppingPhase(p, s.server.content, c0, r);
      if IsRollout(p.op) {
        RolloutKeepsShape(p.op, s.server.content, c0, r);
      }
    }
  }

  /** A Stop of this controller has returned nil. */
  predicate StopSucceeded(p: Phase) {
    p.Finished? && p.command == Some(STOP_OP) && (p.outcome == Applied || p.outcome == AlreadyThere)
  }

  /** From r > 0 replicas and no saved count, any interleaving of Stops and rollouts in which some Stop has returned nil
      by its k-th event ends at 0 replicas, with a saved count that reads back as r and nothing else changed. */
  lemma {:induction false} StopsSaveCount(server: Versioned, es: seq<Event>, k: nat, r: nat, id: nat)
    requires Original(server.content, r) && k <= |es|
    requires Possible(Initial(server), es) && forall e | e in es :: StopsOrRollouts(e)
    requires Possible(Initial(server), es[..k])
    requires var s := Run(Initial(server), es[..k]); id in s.phases && StopSucceeded(s.phases[id])
    ensures var c := Run(Initial(server), es).server.content;
            StoppedFrom(c, server.content, r) && SavedReplicas(c, SAVED_REPLICAS) == r
    decreases |es|
  {
    ScanFormat(r);
    if k == |es| {
      assert es[..k] == es;
      StoppingRun(server, es, r);
      Serializable(server, es);
      var s := Run(Initial(server), es);
      assert PhaseOk(s, id, s.phases[id]) && StoppingPhase(s.phases[id], s.server.content, server.content, r);
    } else {
      var before := es[..|es| - 1];
      assert before[..k] == es[..k];
      StopsSaveCount(server, before, k, r, id);
      StoppingRun(server, before, r);
      Serializable(server, before);
      StoppedStep(Run(Initial(server), before), es[|es| - 1], server.content, server.content, r);
    }
  }

  // ---------------------------------------------------------------- then one Start

  /** No Stop and no Start is under way. */
  predicate Settled(s: System) {
    forall id | id in s.phases ::
      s.phases[id].Finished? || (!s.phases[id].Reading? && IsRollout(s.phases[id].op))
  }

  /** While `starter` runs its Start, the others only roll out. */
  predicate OnlyRolloutsBegin(e: Event, starter: nat) {
    !e.Outside? && (e.Begin? ==> e.id != starter && e.command.Rollout?)
  }

  ghost predicate StarterPhase(p: Phase, server: Content, c0: Content, r: nat) {
    match p
    case Reading(_) => StoppedFrom(server, c0, r)
    case Fetching(op, _, _) => op == Scale(r, SAVED_REPLICAS) && StoppedFrom(server, c0, r)
    case Putting(op, _, _, _, _, _) => op == Scale(r, SAVED_REPLICAS) && StoppedFrom(server, c0, r)
    case Finished(_, outcome, _, landedAt) =>
      if landedAt.Some? then RunningAs(server, c0, r) else outcome != AlreadyThere && StoppedFrom(server, c0, r)
  }

  ghost predicate Starting(s: System, starter: nat, c0: Content, r: nat) {
    && starter in s.phases && StarterPhase(s.phases[starter], s.server.content, c0, r)
    && forall id | id in s.phases && id != starter ::
         s.phases[id].Finished? || (!s.phases[id].Reading? && IsRollout(s.phases[id].op))
  }

  lemma StartDecision(c: Content, c0: Content, r: nat)
    requires Original(c0, r) && StoppedFrom(c, c0, r)
    ensures SavedReplicas(c, SAVED_REPLICAS) == r
    ensures Decide(Scale(r, SAVED_REPLICAS), c).Write? && RunningAs(Decide(Scale(r, SAVED_REPLICAS), c).next, c0, r)
  {
    ScanFormat(r);
    assert c.annotations - {SAVED_REPLICAS} == c0.annotations;
  }

  lemma StartingStep(s: System, e: Event, starter: nat, init: Content, c0: Content, r: nat)
    requires Original(c0, r) && Inv(init, s) && Starting(s, starter, c0, r)
    requires Enabled(s, e) && OnlyRolloutsBegin(e, starter)
    ensures Starting(Step(s, e), starter, c0, r)
  {
    if StoppedFrom(s.server.content, c0, r) {
      StartDecision(s.server.content, c0, r);
    }
    if e.PutLands? {
      var p := s.phases[e.id];
      assert PhaseOk(s, e.id, p);
      if IsRollout(p.op) {
        RolloutKeepsShape(p.op, s.server.content, c0, r);
      }
    }
  }

  lemma {:induction false} StartingRun(s: System, es: seq<Event>, starter: nat, init: Content, c0: Content, r: nat)
    requires Original(c0, r) && Inv(init, s) && Starting(s, starter, c0, r)
    requires Possible(s, es) && forall e | e in es :: OnlyRolloutsBegin(e, starter)
    ensures Starting(Run(s, es), starter, c0, r)
  {
    if es != [] {
      var before := es[..|es| - 1];
      StartingRun(s, before, starter, init, c0, r);
      RunKeepsInv(init, s, before);
      StartingStep(Run(s, before), es[|es| - 1], starter, init, c0, r);
    }
  }

  /** Once stopped and settled, the next single Start that returns nil restores exactly r replicas, removes the saved
      count and leaves everything else as it was before the Stops; if it gives up or fails unseen, the workload is
      still stopped with its count saved. */
  lemma StartRestoresCount(server: Versioned, stops: seq<Event>, s: System, starter: nat, es: seq<Event>, t: System,
                           r: nat)
    requires Original(server.content, r)
    requires Possible(Initial(server), stops) && (forall e | e in stops :: StopsOrRollouts(e))
    requires s == Run(Initial(server), stops) && StoppedFrom(s.server.content, server.content, r) && Settled(s)
    requires Enabled(s, Begin(starter, Start)) && Possible(Step(s, Begin(starter, Start)), es)
    requires forall e | e in es :: OnlyRolloutsBegin(e, starter)
    requires t == Run(Step(s, Begin(starter, Start)), es)
    ensures RunningAs(t.server.content, server.content, r) || StoppedFrom(t.server.content, server.content, r)
    ensures starter in t.phases
    ensures t.phases[starter].Finished? && t.phases[starter].outcome == Applied ==>
              RunningAs(t.server.content, server.content, r)
    ensures t.phases[starter].Finished? && t.phases[starter].outcome == Conflicted ==>
              StoppedFrom(t.server.content, server.content, r)
    ensures t.phases[starter].Finished? ==> t.phases[starter].outcome != AlreadyThere
  {
    Serializable(server, stops);
    var s1 := Step(s, Begin(starter, Start));
    StepKeepsInv(server.content, s, Begin(starter, Start));
    StartingRun(s1, es, starter, server.content, server.content, r);
    RunKeepsInv(server.content, s1, es);
    assert PhaseOk(t, starter, t.phases[starter]);
  }

  // ---------------------------------------------------------------- several Starts

  predicate StartsOrRollouts(e: Event) {
    !e.Outside? && (e.Begin? ==> !e.command.Stop?)
  }

  /** The controllers whose Start has read the workload when its saved count was gone. */
  ghost function LateReaders(s: System, es: seq<Event>): set<nat>
    requires Possible(s, es)
  {
    if es == [] then {}
    else
      var before, e, late := Run(s, es[..|es| - 1]), es[|es| - 1], LateReaders(s, es[..|es| - 1]);
      if !(e.Get? && before.phases[e.id].Reading?) then late
      else if SAVED_REPLICAS in before.server.content.annotations then late - {e.id}
      else late + {e.id}
  }

  /** Whether the last Start whose write was accepted had read late; None if none was accepted. */
  ghost function LastStartLate(s: System, es: seq<Event>): Option<bool>
    requires Possible(s, es)
  {
    if es == [] then None
    else
      var before, e := Run(s, es[..|es| - 1]), es[|es| - 1];
      if e.PutLands? && before.phases[e.id].op.Scale? then Some(e.id in LateReaders(s, es[..|es| - 1]))
      else LastStartLate(s, es[..|es| - 1])
  }

  function StartCount(late: bool, r: nat): nat {
    if late then 1 else r
  }

  ghost predicate RestoredTo(c: Content, c0: Content, r: nat, last: Option<bool>) {
    if last.None? then StoppedFrom(c, c0, r) else RunningAs(c, c0, StartCount(last.value, r))
  }

  predicate StartsPhase(p: Phase, late: bool, r: nat) {
    p.Fetching? || p.Putting? ==> IsRollout(p.op) || p.op == Scale(StartCount(late, r), SAVED_REPLICAS)
  }

  ghost predicate StartsPhases(s: System, late: set<nat>, r: nat) {
    forall id | id in s.phases :: StartsPhase(s.phases[id], id in late, r)
  }

  /** A Start reads r until some Start has landed, and 1 from then on; what it writes is its own count. */
  lemma StartsDecisions(c: Content, c0: Content, r: nat, last: Option<bool>, late: bool)
    requires Original(c0, r) && RestoredTo(c, c0, r, last)
    ensures SAVED_REPLICAS in c.annotations <==> last.None?
    ensures SavedReplicas(c, SAVED_REPLICAS) == StartCount(last.Some?, r)
    ensures var d := Decide(Scale(StartCount(late, r), SAVED_REPLICAS), c);
            d.Write? ==> RunningAs(d.next, c0, StartCount(late, r))
  {
    ScanFormat(r);
    assert last.None? ==> c.annotations - {SAVED_REPLICAS} == c0.annotations;
    assert last.Some? ==> c.annotations - {SAVED_REPLICAS} == c0.annotations;
  }

  lemma RolloutKeepsCount(op: Op, c: Content, c0: Content, r: nat, last: Option<bool>)
    requires IsRollout(op) && Decide(op, c).Write? && RestoredTo(c, c0, r, last)
    ensures RestoredTo(Decide(op, c).next, c0, r, last)
  {
    RolloutKeepsShape(op, c, c0, r);
    RolloutKeepsShape(op, c, c0, 1);
  }

  lemma StartsStep(s0: System, es: seq<Event>, init: Content, c0: Content, r: nat)
    requires Original(c0, r) && es != [] && Possible(s0, es) && StartsOrRollouts(es[|es| - 1])
    requires Inv(init, Run(s0, es[..|es| - 1]))
    requires RestoredTo(Run(s0, es[..|es| - 1]).server.content, c0, r, LastStartLate(s0, es[..|es| - 1]))
    requires StartsPhases(Run(s0, es[..|es| - 1]), LateReaders(s0, es[..|es| - 1]), r)
    ensures RestoredTo(Run(s0, es).server.content, c0, r, LastStartLate(s0, es))
  {
    var s, e := Run(s0, es[..|es| - 1]), es[|es| - 1];
    var last, late := LastStartLate(s0, es[..|es| - 1]), LateReaders(s0, es[..|es| - 1]);
    if e.PutLands? {
      var p := s.phases[e.id];
      assert PhaseOk(s, e.id, p) && StartsPhase(p, e.id in late, r);
      if IsRollout(p.op) {
        RolloutKeepsCount(p.op, s.server.content, c0, r, last);
      } else {
        StartsDecisions(s.server.content, c0, r, last, e.id in late);
      }
    }
  }

  lemma StartsPhasesStep(s0: System, es: seq<Event>, c0: Content, r: nat)
    requires Original(c0, r) && es != [] && Possible(s0, es) && StartsOrRollouts(es[|es| - 1])
    requires RestoredTo(Run(s0, es[..|es| - 1]).server.content, c0, r, LastStartLate(s0, es[..|es| - 1]))
    requires StartsPhases(Run(s0, es[..|es| - 1]), LateReaders(s0, es[..|es| - 1]), r)
    ensures StartsPhases(Run(s0, es), LateReaders(s0, es), r)
  {
    var s, e := Run(s0, es[..|es| - 1]), es[|es| - 1];
    var last, late := LastStartLate(s0, es[..|es| - 1]), LateReaders(s0, es[..|es| - 1]);
    StartsDecisions(s.server.content, c0, r, last, false);
    forall id | id in Run(s0, es).phases ensures StartsPhase(Run(s0, es).phases[id], id in LateReaders(s0, es), r) {
      assert id in s.phases ==> StartsPhase(s.phases[id], id in late, r);
    }
  }

  /** From a stopped and settled workload, after any interleaving of any number of Starts with rollouts: it is still
      stopped with its count saved if no Start has landed; otherwise it runs with r replicas if the last Start that
      landed had read the saved count, and with 1 if that one had read late. */
  lemma {:induction false} StartsDecideCount(s: System, es: seq<Event>, init: Content, c0: Content, r: nat)
    requires Original(c0, r) && Inv(init, s) && StoppedFrom(s.server.content, c0, r) && Settled(s)
    requires Possible(s, es) && forall e | e in es :: StartsOrRollouts(e)
    ensures RestoredTo(Run(s, es).server.content, c0, r, LastStartLate(s, es))
    ensures StartsPhases(Run(s, es), LateReaders(s, es), r)
  {
    if es != [] {
      StartsDecideCount(s, es[..|es| - 1], init, c0, r);
      RunKeepsInv(init, s, es[..|es| - 1]);
      StartsStep(s, es, init, c0, r);
      StartsPhasesStep(s, es, c0, r);
    }
  }

  /** The count is kept, saved or running, exactly when it is 1 or the last Start that landed had not read late. */
  lemma LaterStartKeepsCountIff(s: System, es: seq<Event>, init: Content, c0: Content, r: nat)
    requires Original(c0, r) && Inv(init, s) && StoppedFrom(s.server.content, c0, r) && Settled(s)
    requires Possible(s, es) && forall e | e in es :: StartsOrRollouts(e)
    ensures var c := Run(s, es).server.content;
            StoppedFrom(c, c0, r) || RunningAs(c, c0, r) <==> r == 1 || LastStartLate(s, es) != Some(true)
  {
    StartsDecideCount(s, es, init, c0, r);
  }

  /** Every Start of the run reads the workload before the first of them has landed. */
  ghost predicate ReadInTime(s: System, es: seq<Event>)
    requires Possible(s, es)
  {
    es != [] ==>
      ReadInTime(s, es[..|es| - 1]) &&
      var before, e := Run(s, es[..|es| - 1]), es[|es| - 1];
      e.Get? && before.phases[e.id].Reading? ==> LastStartLate(s, es[..|es| - 1]).None?
  }

  /** Then nobody reads late, so the count is kept. */
  lemma {:induction false} EarlyStartsKeepCount(s: System, es: seq<Event>, init: Content, c0: Content, r: nat)
    requires Original(c0, r) && Inv(init, s) && StoppedFrom(s.server.content, c0, r) && Settled(s)
    requires Possible(s, es) && (forall e | e in es :: StartsOrRollouts(e)) && ReadInTime(s, es)
    ensures LateReaders(s, es) == {} && LastStartLate(s, es) != Some(true)
    ensures var c := Run(s, es).server.content; StoppedFrom(c, c0, r) || RunningAs(c, c0, r)
  {
    if es != [] {
      var before := es[..|es| - 1];
      EarlyStartsKeepCount(s, before, init, c0, r);
      StartsDecideCount(s, before, init, c0, r);
      StartsDecisions(Run(s, before).server.content, c0, r, LastStartLate(s, before), false);
    }
    LaterStartKeepsCountIff(s, es, init, c0, r);
  }

  // ---------------------------------------------------------------- Stops, Starts and rollouts in any order

  /** No saved count to begin with, and a count that can be saved. */
  predicate Countable(c0: Content, n: nat) {
    SAVED_REPLICAS !in c0.annotations && 0 < n <= MAX_REPLICAS
  }

  /** Running with n replicas, or stopped with n saved; the rest as in c0. */
  predicate Holds(c: Content, c0: Content, n: nat) {
    RunningAs(c, c0, n) || StoppedFrom(c, c0, n)
  }

  /** The count that a controller's Start has read last: the one saved, or 1 if none was. */
  ghost function CountRead(s: System, es: seq<Event>, r: nat, id: nat): nat
    requires Possible(s, es)
    decreases |es|
  {
    if es == [] then 1
    else
      var before, e := Run(s, es[..|es| - 1]), es[|es| - 1];
      if !(e.Get? && e.id == id && before.phases[id].Reading?) then CountRead(s, es[..|es| - 1], r, id)
      else if SAVED_REPLICAS in before.server.content.annotations then CountAfter(s, es[..|es| - 1], r)
      else 1
  }

  /** The count that the last landed Start has read; r if none has landed. */
  ghost function CountAfter(s: System, es: seq<Event>, r: nat): nat
    requires Possible(s, es)
    decreases |es|
  {
    if es == [] then r
    else
      var before, e := Run(s, es[..|es| - 1]), es[|es| - 1];
      if e.PutLands? && before.phases[e.id].op.Scale? && before.phases[e.id].op != STOP_OP
      then CountRead(s, es[..|es| - 1], r, e.id)
      else CountAfter(s, es[..|es| - 1], r)
  }

  predicate CommandPhase(p: Phase, n: nat) {
    p.Fetching? || p.Putting? ==> IsRollout(p.op) || p.op == STOP_OP || p.op == Scale(n, SAVED_REPLICAS)
  }

  ghost predicate CommandPhases(s0: System, es: seq<Event>, r: nat)
    requires Possible(s0, es)
  {
    var s := Run(s0, es); forall id | id in s.phases :: CommandPhase(s.phases[id], CountRead(s0, es, r, id))
  }

  /** The counts that go round are r and 1. */
  lemma {:induction false} CountsAreOneOrR(s: System, es: seq<Event>, r: nat, id: nat)
    requires Possible(s, es)
    ensures CountRead(s, es, r, id) == 1 || CountRead(s, es, r, id) == r
    ensures CountAfter(s, es, r) == 1 || CountAfter(s, es, r) == r
    decreases |es|
  {
    if es != [] {
      CountsAreOneOrR(s, es[..|es| - 1], r, id);
      if es[|es| - 1].PutLands? {
        CountsAreOneOrR(s, es[..|es| - 1], r, es[|es| - 1].id);
      }
    }
  }

  /** What each command makes of a workload that holds n. */
  lemma CommandDecisions(c: Content, c0: Content, n: nat, k: nat)
    requires Countable(c0, n) && Holds(c, c0, n) && k > 0
    ensures SAVED_REPLICAS in c.annotations <==> StoppedFrom(c, c0, n)
    ensures SavedReplicas(c, SAVED_REPLICAS) == if SAVED_REPLICAS in c.annotations then n else 1
    ensures Decide(STOP_OP, c).Write? ==> StoppedFrom(Decide(STOP_OP, c).next, c0, n)
    ensures var d := Decide(Scale(k, SAVED_REPLICAS), c); d.Write? ==> RunningAs(d.next, c0, k)
  {
    ScanFormat(n);
    assert c.annotations - {SAVED_REPLICAS} == c0.annotations;
  }

  lemma CommandLands(s0: System, es: seq<Event>, init: Content, c0: Content, r: nat, n: nat)
    requires Countable(c0, r) && es != [] && Possible(s0, es) && es[|es| - 1].PutLands?
    requires Inv(init, Run(s0, es[..|es| - 1])) && CommandPhases(s0, es[..|es| - 1], r)
    requires n == CountAfter(s0, es[..|es| - 1], r) && Holds(Run(s0, es[..|es| - 1]).server.content, c0, n)
    ensures Holds(Run(s0, es).server.content, c0, CountAfter(s0, es, r))
  {
    var s, e := Run(s0, es[..|es| - 1]), es[|es| - 1];
    var p, k := s.phases[e.id], CountRead(s0, es[..|es| - 1], r, e.id);
    CountsAreOneOrR(s0, es[..|es| - 1], r, e.id);
    assert PhaseOk(s, e.id, p) && CommandPhase(p, k);
    if IsRollout(p.op) {
      RolloutKeepsShape(p.op, s.server.content, c0, n);
    } else {
      CommandDecisions(s.server.content, c0, n, k);
    }
  }

  lemma CommandPhasesStep(s0: System, es: seq<Event>, c0: Content, r: nat, n: nat)
    requires Countable(c0, r) && es != [] && Possible(s0, es) && CommandPhases(s0, es[..|es| - 1], r)
    requires n == CountAfter(s0, es[..|es| - 1], r) && Holds(Run(s0, es[..|es| - 1]).server.content, c0, n)
    ensures CommandPhases(s0, es, r)
  {
    var s, t := Run(s0, es[..|es| - 1]), Run(s0, es);
    CountsAreOneOrR(s0, es[..|es| - 1], r, 0);
    CommandDecisions(s.server.content, c0, n, 1);
    forall id | id in t.phases ensures CommandPhase(t.phases[id], CountRead(s0, es, r, id)) {
      assert id in s.phases ==> CommandPhase(s.phases[id], CountRead(s0, es[..|es| - 1], r, id));
    }
  }

  /** From r > 0 replicas and no saved count, after any interleaving of any number of Stops, Starts and rollouts: the
      workload runs with, or is stopped with saved, exactly the count that the last landed Start had read, or r, and
      nothing else has changed. */
  lemma {:induction false} CommandsDecideCount(server: Versioned, es: seq<Event>, r: nat)
    requires Original(server.content, r) && Possible(Initial(server), es) && forall e | e in es :: !e.Outside?
    ensures Holds(Run(Initial(server), es).server.content, server.content, CountAfter(Initial(server), es, r))
    ensures CommandPhases(Initial(server), es, r)
  {
    if es != [] {
      var before, s0 := es[..|es| - 1], Initial(server);
      var n := CountAfter(s0, before, r);
      CommandsDecideCount(server, before, r);
      Serializable(server, before);
      CommandPhasesStep(s0, es, server.content, r, n);
      if es[|es| - 1].PutLands? {
        CommandLands(s0, es, server.content, server.content, r, n);
      }
    }
  }

  /** A workload holds one count. */
  lemma HoldsOne(c: Content, c0: Content, n: nat, m: nat)
    requires Countable(c0, n) && Countable(c0, m) && Holds(c, c0, n) && Holds(c, c0, m)
    ensures n == m
  {
    ScanFormat(n);
    ScanFormat(m);
    assert StoppedFrom(c, c0, n) ==> c.annotations[SAVED_REPLICAS] == FormatNat(n);
    assert StoppedFrom(c, c0, m) ==> c.annotations[SAVED_REPLICAS] == FormatNat(m);
  }

  /** So the original count is kept exactly when it is the one that decides. */
  lemma CommandsKeepCountIff(server: Versioned, es: seq<Event>, r: nat)
    requires Original(server.content, r) && Possible(Initial(server), es) && forall e | e in es :: !e.Outside?
    ensures Holds(Run(Initial(server), es).server.content, server.content, r) <==>
            CountAfter(Initial(server), es, r) == r
  {
    CommandsDecideCount(server, es, r);
    CountsAreOneOrR(Initial(server), es, r, 0);
    if Holds(Run(Initial(server), es).server.content, server.content, r) {
      HoldsOne(Run(Initial(server), es).server.content, server.content, r, CountAfter(Initial(server), es, r));
    }
  }

  /** Every Start reads the workload while it is stopped. */
  ghost predicate StartsReadStopped(s: System, es: seq<Event>)
    requires Possible(s, es)
  {
    es != [] ==>
      StartsReadStopped(s, es[..|es| - 1]) &&
      var before, e := Run(s, es[..|es| - 1]), es[|es| - 1];
      e.Get? && before.phases[e.id].Reading? ==> SAVED_REPLICAS in before.server.content.annotations
  }

  ghost predicate HasRead(s: System, id: nat) {
    id in s.phases && (s.phases[id].Fetching? || s.phases[id].Putting?) &&
    s.phases[id].op.Scale? && s.phases[id].op != STOP_OP
  }

  /** Then the count is kept, whatever is stopped and started in between. */
  lemma {:induction false} StoppedReadersKeepCount(server: Versioned, es: seq<Event>, r: nat)
    requires Original(server.content, r) && Possible(Initial(server), es) && forall e | e in es :: !e.Outside?
    requires StartsReadStopped(Initial(server), es)
    ensures CountAfter(Initial(server), es, r) == r
    ensures forall id | HasRead(Run(Initial(server), es), id) :: CountRead(Initial(server), es, r, id) == r
    ensures Holds(Run(Initial(server), es).server.content, server.content, r)
  {
    if es != [] {
      StoppedReadersKeepCount(server, es[..|es| - 1], r);
      var s, t := Run(Initial(server), es[..|es| - 1]), Run(Initial(server), es);
      forall id | HasRead(t, id) ensures CountRead(Initial(server), es, r, id) == r {
        assert !HasRead(s, id) ==> es[|es| - 1] == Get(id) && s.phases[id].Reading?;
      }
      assert es[|es| - 1].PutLands? && HasRead(s, es[|es| - 1].id)
             ==> CountRead(Initial(server), es[..|es| - 1], r, es[|es| - 1].id) == r;
    }
    CommandsDecideCount(server, es, r);
  }

  const THREE := Content(Some(Spec(Some(3), None)), map[], "")

  /** What each of the three commands makes of it. */
  lemma ThreeDecisions()
    ensures Original(THREE, 3)
    ensures var stopped := Effect(Landed(0, OpOf(Stop, THREE)), THREE);
            && Decide(OpOf(Stop, THREE), THREE).Write? && StoppedFrom(stopped, THREE, 3)
            && Decide(OpOf(Start, stopped), stopped).Write?
            && RunningAs(Effect(Landed(1, OpOf(Start, stopped)), stopped), THREE, 3)
  {
    StopDecisions(THREE, THREE, 3);
    StartDecision(Effect(Landed(0, OpOf(Stop, THREE)), THREE), THREE, 3);
  }

  /** A run in which this happens: three replicas, one Stop, two Starts, all of them reporting success. */
  lemma TwoStartsLoseTheCount() returns (server: Versioned, es: seq<Event>)
    ensures Original(server.content, 3) && Possible(Initial(server), es)
    ensures var t := Run(Initial(server), es);
            && t.server.content.spec.Some? && t.server.content.spec.value.replicas == Some(1)
            && forall id | id in t.phases :: t.phases[id].Finished? && t.phases[id].outcome == Applied
  {
    server := Versioned(THREE, 0);
    ThreeDecisions();
    var s0 := Initial(server);
    var s: System;
    es, s := Undisturbed(s0, [], s0, 0, Stop);
    es, s := Undisturbed(s0, es, s, 1, Start);
    es, s := Undisturbed(s0, es, s, 2, Start);
  }
}
