/** The OBI supervisor: callers of Start, Stop and Restart, one wait goroutine per child and backoff goroutines share
    the manager's lock-protected fields.  A Restart is a Stop followed by a Start. */
module Supervisor {
  import opened Base

  type Config = string

  const MAX_ATTEMPTS: nat := 5
  const INITIAL_DELAY: nat := 2
  const MAX_DELAY: nat := 60

  /** m.cmd: no command, a command whose Start failed, or a child. */
  datatype Process = NoProcess | Unstarted | Child(id: nat)

  /** The fields under the mutex; cancel and waitDone are set and cleared with cmd. */
  datatype Fields = Fields(running: bool, cmd: Process, stopping: bool, lastConfig: Option<Config>)

  /** What becomes of a Start: binary or config file unavailable, exec failing, or a child. */
  datatype Launch = Unavailable | ExecFails | Spawns

  // ---------------------------------------------------------------- the critical sections

  function StartFields(f: Fields, cfg: Config, launch: Launch, id: nat): Fields {
    if f.running then f
    else
      match launch
      case Unavailable => f
      case ExecFails => f.(cmd := Unstarted, stopping := false)
      case Spawns => Fields(true, Child(id), false, Some(cfg))
  }

  function StopBeginFields(f: Fields): Fields {
    if !f.running || !f.cmd.Child? then f.(running := false, cmd := NoProcess) else f.(stopping := true)
  }

  function StopEndFields(f: Fields, id: nat): Fields {
    if f.cmd == Child(id) || !f.running then f.(running := false, cmd := NoProcess) else f
  }

  function ReapFields(f: Fields, id: nat): Fields {
    f.(running := false, cmd := if f.cmd == Child(id) then NoProcess else f.cmd)
  }

  function NextDelay(delay: nat): nat {
    if delay * 2 > MAX_DELAY then MAX_DELAY else delay * 2
  }

  // ---------------------------------------------------------------- the interleaved goroutines

  /** A child's wait goroutine: in Wait, past the lock, past close(waitDone), returned. */
  datatype WaitStage = Waiting | Reaped(intentional: bool, cfg: Option<Config>)
                     | Closed(intentional: bool, cfg: Option<Config>) | Returned

  /** `cause` is the child whose exit started this one, if a backoff goroutine did. */
  datatype ChildState = ChildState(alive: bool, wait: WaitStage, cancelled: bool, cause: Option<nat>)

  /** A Stop past its first critical section: waiting for the child, done waiting, done cancelling. */
  datatype StopStage = AwaitExit | Waited | Cancelled
  datatype Stopper = Stopper(child: nat, stage: StopStage)

  /** A backoff goroutine: sleeping, about to Start, or over; with what it has slept and tried so far. */
  datatype BackoffStage = Sleeping | Trying | Over
  datatype Backoff = Backoff(cfg: Config, stage: BackoffStage, delay: nat, slept: nat, tries: nat)

  /** `stopped` remembers the children that some Stop found running. */
  datatype System = System(f: Fields, children: map<nat, ChildState>, next: nat, stoppers: map<nat, Stopper>,
                           backoffs: map<nat, Backoff>, shutdown: bool, stopped: set<nat>)

  datatype Event =
    | CallStart(cfg: Config, launch: Launch)
    | CallStop(thread: nat)
    | StopWaited(thread: nat)
    | StopGivesUp(thread: nat)
    | StopCancels(thread: nat)
    | StopEnds(thread: nat)
    | ChildExits(id: nat)
    | WaitReaps(id: nat)
    | WaitCloses(id: nat)
    | WaitReturns(id: nat)
    | BackoffWakes(origin: nat)
    | BackoffQuits(origin: nat)
    | BackoffTries(origin: nat, launch: Launch)
    | Shutdown

  predicate Enabled(s: System, e: Event) {
    match e
    case CallStart(_, launch) => launch == Spawns ==> !s.shutdown
    case CallStop(t) => t !in s.stoppers
    case StopWaited(t) =>
      && t in s.stoppers && s.stoppers[t].stage == AwaitExit && s.stoppers[t].child in s.children
      && var w := s.children[s.stoppers[t].child].wait; w.Closed? || w.Returned?
    case StopGivesUp(t) => t in s.stoppers && s.stoppers[t].stage == AwaitExit
    case StopCancels(t) =>
      t in s.stoppers && s.stoppers[t].stage == Waited && s.stoppers[t].child in s.children
    case StopEnds(t) => t in s.stoppers && s.stoppers[t].stage == Cancelled
    case ChildExits(id) => id in s.children && s.children[id].alive
    case WaitReaps(id) => id in s.children && !s.children[id].alive && s.children[id].wait == Waiting
    case WaitCloses(id) => id in s.children && s.children[id].wait.Reaped?
    case WaitReturns(id) => id in s.children && s.children[id].wait.Closed?
    case BackoffWakes(o) => o in s.backoffs && s.backoffs[o].stage == Sleeping
    case BackoffQuits(o) => o in s.backoffs && s.backoffs[o].stage == Sleeping && s.shutdown
    case BackoffTries(o, launch) =>
      o in s.backoffs && s.backoffs[o].stage == Trying && (launch == Spawns ==> !s.shutdown)
    case Shutdown => true
  }

  /** m.Start, called by anyone. */
  function Started(s: System, cfg: Config, launch: Launch, cause: Option<nat>): System {
    var t := s.(f := StartFields(s.f, cfg, launch, s.next));
    if s.f.running || launch != Spawns then t
    else t.(children := s.children[s.next := ChildState(true, Waiting, false, cause)], next := s.next + 1)
  }

  function AfterTry(b: Backoff, succeeded: bool): Backoff {
    if succeeded || b.tries + 1 == MAX_ATTEMPTS then b.(stage := Over, tries := b.tries + 1)
    else b.(stage := Sleeping, delay := NextDelay(b.delay), tries := b.tries + 1)
  }

  /** Whether the wait goroutine of a child, on returning, leaves a backoff goroutine behind. */
  predicate Resurrects(c: ChildState, shutdown: bool) {
    (c.wait.Reaped? || c.wait.Closed?) && !c.wait.intentional && !c.cancelled && !shutdown && c.wait.cfg.Some?
  }

  function Step(s: System, e: Event): System
    requires Enabled(s, e)
  {
    match e
    case CallStart(cfg, launch) => Started(s, cfg, launch, None)
    case CallStop(t) =>
      var s' := s.(f := StopBeginFields(s.f));
      if !s.f.running || !s.f.cmd.Child? then s'
      else s'.(stoppers := s.stoppers[t := Stopper(s.f.cmd.id, AwaitExit)], stopped := s.stopped + {s.f.cmd.id})
    case StopWaited(t) => s.(stoppers := s.stoppers[t := s.stoppers[t].(stage := Waited)])
    case StopGivesUp(t) => s.(stoppers := s.stoppers[t := s.stoppers[t].(stage := Waited)])
    case StopCancels(t) =>
      var id := s.stoppers[t].child;
      s.(stoppers := s.stoppers[t := s.stoppers[t].(stage := Cancelled)],
         children := s.children[id := s.children[id].(cancelled := true)])
    case StopEnds(t) => s.(f := StopEndFields(s.f, s.stoppers[t].child), stoppers := s.stoppers - {t})
    case ChildExits(id) => s.(children := s.children[id := s.children[id].(alive := false)])
    case WaitReaps(id) =>
      s.(f := ReapFields(s.f, id),
         children := s.children[id := s.children[id].(wait := Reaped(s.f.stopping, s.f.lastConfig))])
    case WaitCloses(id) =>
      var c := s.children[id];
      s.(children := s.children[id := c.(wait := Closed(c.wait.intentional, c.wait.cfg))])
    case WaitReturns(id) =>
      var c := s.children[id];
      s.(children := s.children[id := c.(wait := Returned)],
         backoffs := if Resurrects(c, s.shutdown)
                     then s.backoffs[id := Backoff(c.wait.cfg.value, Sleeping, INITIAL_DELAY, 0, 0)]
                     else s.backoffs)
    case BackoffWakes(o) =>
      var b := s.backoffs[o];
      s.(backoffs := s.backoffs[o := b.(stage := if s.f.running then Over else Trying, slept := b.slept + b.delay)])
    case BackoffQuits(o) => s.(backoffs := s.backoffs[o := s.backoffs[o].(stage := Over)])
    case BackoffTries(o, launch) =>
      var b := s.backoffs[o];
      var t := Started(s, b.cfg, launch, Some(o));
      t.(backoffs := s.backoffs[o := AfterTry(b, !s.f.running && launch == Spawns)])
    case Shutdown => s.(shutdown := true)
  }

  ghost predicate Possible(s: System, es: seq<Event>)
    decreases |es|, 0
  {
    es != [] ==> Possible(s, es[..|es| - 1]) && Enabled(Run(s, es[..|es| - 1]), es[|es| - 1])
  }

  ghost function Run(s: System, es: seq<Event>): System
    requires Possible(s, es)
    decreases |es|, 1
  {
    if es == [] then s else Step(Run(s, es[..|es| - 1]), es[|es| - 1])
  }

  const IDLE := System(Fields(false, NoProcess, false, None), map[], 0, map[], map[], false, {})

  /** One more event at the end of a run. */
  lemma Extend(s0: System, es: seq<Event>, s: System, e: Event) returns (es': seq<Event>, s': System)
    requires Possible(s0, es) && s == Run(s0, es) && Enabled(s, e)
    ensures es' == es + [e] && Possible(s0, es') && s' == Step(s, e) == Run(s0, es')
  {
    es', s' := es + [e], Step(s, e);
    assert es'[..|es|] == es;
  }

  /** A Stop does not end before its child has been reaped: either it waited for that, or it gave up waiting and the
      child has been reaped all the same. */
  predicate EndsReaped(s: System, e: Event) {
    e.StopEnds? && e.thread in s.stoppers ==>
      var id := s.stoppers[e.thread].child; id in s.children && s.children[id].wait != Waiting
  }

  /** A Stop ends without that, while children can still be spawned. */
  predicate Strands(s: System, e: Event) {
    !EndsReaped(s, e) && !s.shutdown
  }

  ghost predicate Orderly(s: System, es: seq<Event>)
    requires Possible(s, es)
  {
    es != [] ==> Orderly(s, es[..|es| - 1]) && !Strands(Run(s, es[..|es| - 1]), es[|es| - 1])
  }

  // ---------------------------------------------------------------- what every interleaving keeps

  ghost predicate ChildOk(s: System, id: nat, c: ChildState) {
    && (c.alive ==> c.wait == Waiting)
    && (c.wait == Waiting ==> s.f.running && s.f.cmd == Child(id))
    && (id in s.stopped ==>
          (c.wait == Waiting ==> s.f.stopping) && (c.wait.Reaped? || c.wait.Closed? ==> c.wait.intentional))
    && (c.cause.Some? ==> c.cause.value in s.backoffs)
  }

  ghost predicate StopperOk(s: System, t: Stopper) {
    t.child in s.children && t.child in s.stopped
  }

  /** The delays double: 2, 4, 8, 16, 32 seconds. */
  function Delay(k: nat): nat {
    if k == 0 then INITIAL_DELAY else NextDelay(Delay(k - 1))
  }

  function Slept(k: nat): nat {
    if k == 0 then 0 else Slept(k - 1) + Delay(k - 1)
  }

  ghost predicate BackoffOk(s: System, origin: nat, b: Backoff) {
    && origin in s.children && s.children[origin].wait == Returned
    && b.tries <= MAX_ATTEMPTS
    && (b.stage != Over ==> b.tries < MAX_ATTEMPTS && b.delay == Delay(b.tries))
    && (b.stage == Sleeping ==> b.slept == Slept(b.tries))
    && (b.stage == Trying ==> b.slept == Slept(b.tries + 1))
    && b.slept <= Slept(MAX_ATTEMPTS)
  }

  ghost predicate FieldsOk(s: System) {
    && (s.f.running <==> s.f.cmd.Child?)
    && (s.f.running ==> s.f.cmd.id in s.children && s.children[s.f.cmd.id].wait == Waiting && s.f.lastConfig.Some?)
  }

  /** Kept by every step whatsoever: the numbers of children grow, and the backoffs keep to their schedule. */
  ghost predicate BackoffsOk(s: System) {
    && (forall id | id in s.children :: id < s.next)
    && (forall o | o in s.backoffs :: BackoffOk(s, o, s.backoffs[o]))
  }

  ghost predicate Inv(s: System) {
    && FieldsOk(s) && BackoffsOk(s)
    && (forall id | id in s.children :: ChildOk(s, id, s.children[id]))
    && (forall t | t in s.stoppers :: StopperOk(s, s.stoppers[t]))
    && (forall id | id in s.stopped :: id in s.children && id !in s.backoffs)
  }

  /** What a step relies on about the goroutine that takes it. */
  ghost predicate ActorOk(s: System, e: Event) {
    && Enabled(s, e) && EndsReaped(s, e) && FieldsOk(s)
    && (e.WaitReaps? || e.WaitReturns? ==> ChildOk(s, e.id, s.children[e.id]))
    && (e.StopEnds? ==> StopperOk(s, s.stoppers[e.thread]))
  }

  lemma FieldsKept(s: System, e: Event)
    requires ActorOk(s, e) && s.next !in s.children
    ensures FieldsOk(Step(s, e))
  {
  }

  lemma ChildKept(s: System, e: Event, id: nat)
    requires ActorOk(s, e) && s.next !in s.children && id in Step(s, e).children
    requires if id in s.children then ChildOk(s, id, s.children[id]) else id !in s.stopped
    ensures ChildOk(Step(s, e), id, Step(s, e).children[id])
  {
  }

  lemma StopperKept(s: System, e: Event, t: nat)
    requires ActorOk(s, e) && s.next !in s.children && t in Step(s, e).stoppers
    requires t in s.stoppers ==> StopperOk(s, s.stoppers[t])
    ensures StopperOk(Step(s, e), Step(s, e).stoppers[t])
  {
  }

  lemma {:induction false} SleptGrows(k: nat, n: nat)
    requires k <= n
    ensures Slept(k) <= Slept(n)
  {
    if k < n {
      SleptGrows(k, n - 1);
    }
  }

  /** Only a returning wait goroutine and the backoff goroutine itself touch an entry of `backoffs`. */
  lemma BackoffFrame(s: System, e: Event, o: nat)
    requires Enabled(s, e)
    requires !(e.WaitReturns? && e.id == o)
    requires !((e.BackoffWakes? || e.BackoffQuits? || e.BackoffTries?) && e.origin == o)
    ensures o in Step(s, e).backoffs <==> o in s.backoffs
    ensures o in s.backoffs ==> Step(s, e).backoffs[o] == s.backoffs[o]
  {
  }

  lemma BackoffBorn(s: System, o: nat)
    requires Enabled(s, WaitReturns(o)) && (o in s.backoffs ==> BackoffOk(s, o, s.backoffs[o]))
    requires o in Step(s, WaitReturns(o)).backoffs
    ensures BackoffOk(Step(s, WaitReturns(o)), o, Step(s, WaitReturns(o)).backoffs[o])
  {
    SleptGrows(0, MAX_ATTEMPTS);
  }

  lemma BackoffWakesUp(s: System, o: nat)
    requires Enabled(s, BackoffWakes(o)) && BackoffOk(s, o, s.backoffs[o])
    ensures BackoffOk(Step(s, BackoffWakes(o)), o, Step(s, BackoffWakes(o)).backoffs[o])
  {
    var b := s.backoffs[o];
    SleptGrows(b.tries + 1, MAX_ATTEMPTS);
    assert Slept(b.tries + 1) == Slept(b.tries) + Delay(b.tries);
  }

  lemma BackoffTriesOrQuits(s: System, e: Event, o: nat)
    requires Enabled(s, e) && (e.BackoffQuits? || e.BackoffTries?) && e.origin == o
    requires BackoffOk(s, o, s.backoffs[o]) && s.next !in s.children
    ensures BackoffOk(Step(s, e), o, Step(s, e).backoffs[o])
  {
    assert Delay(s.backoffs[o].tries + 1) == NextDelay(Delay(s.backoffs[o].tries));
  }

  lemma BackoffKept(s: System, e: Event, o: nat)
    requires Enabled(s, e) && s.next !in s.children && o in Step(s, e).backoffs
    requires o in s.backoffs ==> BackoffOk(s, o, s.backoffs[o])
    ensures BackoffOk(Step(s, e), o, Step(s, e).backoffs[o])
  {
    if e.WaitReturns? && e.id == o {
      BackoffBorn(s, o);
    } else if e.BackoffWakes? && e.origin == o {
      BackoffWakesUp(s, o);
    } else if (e.BackoffQuits? || e.BackoffTries?) && e.origin == o {
      BackoffTriesOrQuits(s, e, o);
    } else {
      BackoffFrame(s, e, o);
    }
  }

  lemma StepKeepsBackoffs(s: System, e: Event)
    requires BackoffsOk(s) && Enabled(s, e)
    ensures BackoffsOk(Step(s, e))
  {
    var t := Step(s, e);
    forall o | o in t.backoffs ensures BackoffOk(t, o, t.backoffs[o]) {
      BackoffKept(s, e, o);
    }
  }

  lemma StoppedKept(s: System, e: Event)
    requires ActorOk(s, e) && BackoffsOk(s) && forall id | id in s.stopped :: id in s.children && id !in s.backoffs
    ensures var t := Step(s, e); forall id | id in t.stopped :: id in t.children && id !in t.backoffs
  {
    if e.CallStop? && s.f.running {
      assert s.f.cmd.id in s.backoffs ==> BackoffOk(s, s.f.cmd.id, s.backoffs[s.f.cmd.id]);
    }
  }

  lemma ChildrenKept(s: System, e: Event)
    requires Inv(s) && Enabled(s, e) && EndsReaped(s, e)
    ensures var t := Step(s, e); forall id | id in t.children :: ChildOk(t, id, t.children[id])
  {
    var t := Step(s, e);
    forall id | id in t.children ensures ChildOk(t, id, t.children[id]) {
      ChildKept(s, e, id);
    }
  }

  lemma StepKeepsInv(s: System, e: Event)
    requires Inv(s) && Enabled(s, e) && EndsReaped(s, e)
    ensures Inv(Step(s, e))
  {
    var t := Step(s, e);
    StepKeepsBackoffs(s, e);
    StoppedKept(s, e);
    FieldsKept(s, e);
    ChildrenKept(s, e);
    forall i | i in t.stoppers ensures StopperOk(t, t.stoppers[i]) {
      StopperKept(s, e, i);
    }
  }

  // ---------------------------------------------------------------- at most one child

  ghost predicate OneLiveChild(s: System) {
    forall a, b | a in s.children && s.children[a].alive && b in s.children && s.children[b].alive :: a == b
  }

  /** After shutdown, once a Stop has ended before its child was reaped: nothing is spawned or restarted any more. */
  ghost predicate WoundDown(s: System) {
    && s.shutdown && !s.f.running && !s.f.cmd.Child? && OneLiveChild(s)
    && (forall id | id in s.stopped :: id in s.children && id !in s.backoffs)
    && (forall c | c in s.children && s.children[c].cause.Some? :: s.children[c].cause.value !in s.stopped)
  }

  ghost predicate Kept(s: System) {
    Inv(s) || WoundDown(s)
  }

  lemma InvHasOneLiveChild(s: System)
    requires Inv(s)
    ensures OneLiveChild(s)
    ensures forall id | id in s.children && s.children[id].alive :: s.f.running && s.f.cmd == Child(id)
    ensures forall c | c in s.children && s.children[c].cause.Some? :: s.children[c].cause.value !in s.stopped
  {
    forall id | id in s.children
      ensures s.children[id].alive ==> s.f.running && s.f.cmd == Child(id)
      ensures s.children[id].cause.Some? ==> s.children[id].cause.value !in s.stopped
    {
      assert ChildOk(s, id, s.children[id]);
    }
  }

  lemma StepKeeps(s: System, e: Event)
    requires Kept(s) && Enabled(s, e) && !Strands(s, e)
    ensures Kept(Step(s, e))
  {
    if Inv(s) && EndsReaped(s, e) {
      StepKeepsInv(s, e);
    } else if Inv(s) {
      var id := s.stoppers[e.thread].child;
      assert StopperOk(s, s.stoppers[e.thread]) && ChildOk(s, id, s.children[id]);
      InvHasOneLiveChild(s);
    }
  }

  lemma {:induction false} RunKeeps(s: System, es: seq<Event>)
    requires Kept(s) && Possible(s, es) && Orderly(s, es)
    ensures Kept(Run(s, es))
  {
    if es != [] {
      RunKeeps(s, es[..|es| - 1]);
      StepKeeps(Run(s, es[..|es| - 1]), es[|es| - 1]);
    }
  }

  /** In every orderly interleaving there is at most one live child, and until shutdown it is the one in m.cmd with
      `running` true. */
  lemma AtMostOneLiveChild(es: seq<Event>, a: nat, b: nat)
    requires Possible(IDLE, es) && Orderly(IDLE, es)
    requires var s := Run(IDLE, es);
             a in s.children && s.children[a].alive && b in s.children && s.children[b].alive
    ensures a == b
    ensures var s := Run(IDLE, es); !s.shutdown ==> s.f.running && s.f.cmd == Child(a)
  {
    RunKeeps(IDLE, es);
    if Inv(Run(IDLE, es)) {
      InvHasOneLiveChild(Run(IDLE, es));
    }
  }

  /** While a child is in m.cmd, the only wait goroutine that can take the lock is its own, and a Stop that ends there
      without stranding it (it is the Stop of an older child) leaves the fields alone. */
  lemma OlderGoroutinesKeepHands(es: seq<Event>, e: Event, newer: nat)
    requires Possible(IDLE, es) && Orderly(IDLE, es) && Enabled(Run(IDLE, es), e) && Run(IDLE, es).f.cmd == Child(newer)
    ensures e.WaitReaps? ==> e.id == newer
    ensures e.StopEnds? && EndsReaped(Run(IDLE, es), e) ==> Step(Run(IDLE, es), e).f == Run(IDLE, es).f
  {
    RunKeeps(IDLE, es);
    var s := Run(IDLE, es);
    if e.WaitReaps? {
      assert ChildOk(s, e.id, s.children[e.id]);
    } else if e.StopEnds? {
      assert StopperOk(s, s.stoppers[e.thread]);
    }
  }

  /** A child that some Stop found running is never the cause of a restart: neither its exit nor the goroutines that
      follow it start a backoff goroutine, and no child owes its start to it. */
  lemma StoppedChildStaysStopped(es: seq<Event>, id: nat)
    requires Possible(IDLE, es) && Orderly(IDLE, es) && id in Run(IDLE, es).stopped
    ensures var s := Run(IDLE, es);
            id !in s.backoffs && forall c | c in s.children :: s.children[c].cause != Some(id)
    ensures var s := Run(IDLE, es); id in s.children && !Resurrects(s.children[id], s.shutdown)
  {
    RunKeeps(IDLE, es);
    var s := Run(IDLE, es);
    if Inv(s) {
      assert ChildOk(s, id, s.children[id]);
      InvHasOneLiveChild(s);
    }
  }

  // ---------------------------------------------------------------- exactly when

  /** However it goes on from here, as long as that is orderly, two children never live at once. */
  ghost predicate Safe(s: System) {
    forall more | Possible(s, more) && Orderly(s, more) :: OneLiveChild(Run(s, more))
  }

  lemma KeptIsSafe(s: System)
    requires Kept(s)
    ensures Safe(s)
  {
    forall more | Possible(s, more) && Orderly(s, more) ensures OneLiveChild(Run(s, more)) {
      RunKeeps(s, more);
      if Inv(Run(s, more)) {
        InvHasOneLiveChild(Run(s, more));
      }
    }
  }

  /** One more event, other than the end of a Stop. */
  lemma ExtendOrderly(s0: System, es: seq<Event>, s: System, e: Event) returns (es': seq<Event>, s': System)
    requires Possible(s0, es) && Orderly(s0, es) && s == Run(s0, es) && Enabled(s, e) && !e.StopEnds?
    ensures es' == es + [e] && Possible(s0, es') && Orderly(s0, es') && s' == Step(s, e) == Run(s0, es')
  {
    es', s' := Extend(s0, es, s, e);
    assert es'[..|es|] == es;
  }

  /** The late wait goroutine of a dead child: it clears `running` under the child in m.cmd, and the next Start spawns
      another one. */
  lemma LateReapAdmitsAnother(s0: System, es: seq<Event>, s: System, id: nat) returns (es': seq<Event>)
    requires Possible(s0, es) && Orderly(s0, es) && s == Run(s0, es) && !s.shutdown
    requires id in s.children && !s.children[id].alive && s.children[id].wait == Waiting
    requires s.next !in s.children && exists c :: c in s.children && s.children[c].alive
    ensures Possible(s0, es') && Orderly(s0, es') && !OneLiveChild(Run(s0, es'))
  {
    var c :| c in s.children && s.children[c].alive;
    var t;
    es', t := ExtendOrderly(s0, es, s, WaitReaps(id));
    es', t := ExtendOrderly(s0, es', t, CallStart("", Spawns));
    assert t.children[c].alive && t.children[s.next].alive;
  }

  /** After a Stop that ends too early a Start spawns a second child: beside the first, if that one lives, or else
      beside the third, which the late wait goroutine of the first lets through. */
  lemma StrandedMeetsAnother(s: System, id: nat) returns (es: seq<Event>)
    requires !s.f.running && !s.shutdown && (forall c | c in s.children :: c < s.next)
    requires id in s.children && s.children[id].wait == Waiting
    ensures Possible(s, es) && Orderly(s, es) && !OneLiveChild(Run(s, es))
  {
    var t;
    es, t := ExtendOrderly(s, [], s, CallStart("", Spawns));
    assert t.children[s.next].alive;
    if s.children[id].alive {
      assert t.children[id].alive;
    } else {
      es := LateReapAdmitsAnother(s, es, t, id);
    }
  }

  /** The end of a Stop is safe exactly when its child has been reaped by then, or nothing is spawned any more. */
  lemma StopEndsSafelyIff(s: System, thread: nat)
    requires Inv(s) && Enabled(s, StopEnds(thread))
    ensures Safe(Step(s, StopEnds(thread))) <==> !Strands(s, StopEnds(thread))
  {
    var t := Step(s, StopEnds(thread));
    if Strands(s, StopEnds(thread)) {
      var id := s.stoppers[thread].child;
      assert StopperOk(s, s.stoppers[thread]) && ChildOk(s, id, s.children[id]);
      var es := StrandedMeetsAnother(t, id);
    } else {
      StepKeeps(s, StopEnds(thread));
      KeptIsSafe(t);
    }
  }

  ghost predicate AlwaysSafe(s: System, es: seq<Event>)
    requires Possible(s, es)
  {
    Safe(Run(s, es)) && (es != [] ==> AlwaysSafe(s, es[..|es| - 1]))
  }

  /** Over all runs: two children are out of reach all along exactly when no Stop ends, before shutdown, while its child
      has yet to be reaped.  That the child is dead is not enough. */
  lemma {:induction false} OneLiveChildIff(es: seq<Event>)
    requires Possible(IDLE, es)
    ensures AlwaysSafe(IDLE, es) <==> Orderly(IDLE, es)
  {
    if es == [] {
      KeptIsSafe(IDLE);
    } else {
      var before, e := es[..|es| - 1], es[|es| - 1];
      OneLiveChildIff(before);
      if Orderly(IDLE, before) {
        RunKeeps(IDLE, before);
        if !Strands(Run(IDLE, before), e) {
          StepKeeps(Run(IDLE, before), e);
          KeptIsSafe(Run(IDLE, es));
        } else {
          StopEndsSafelyIff(Run(IDLE, before), e.thread);
        }
      }
    }
  }

  /** A Stop past its wait has seen its child reaped. */
  ghost predicate HasWaited(s: System, t: Stopper) {
    t.stage != AwaitExit ==>
      t.child in s.children && (s.children[t.child].wait.Closed? || s.children[t.child].wait.Returned?)
  }

  ghost predicate AllHaveWaited(s: System) {
    forall t | t in s.stoppers :: HasWaited(s, s.stoppers[t])
  }

  lemma WaitedKept(s: System, e: Event, t: nat)
    requires Enabled(s, e) && !e.StopGivesUp? && s.next !in s.children && t in Step(s, e).stoppers
    requires t in s.stoppers ==> HasWaited(s, s.stoppers[t])
    ensures HasWaited(Step(s, e), Step(s, e).stoppers[t])
  {
  }

  lemma StepKeepsWaits(s: System, e: Event)
    requires BackoffsOk(s) && AllHaveWaited(s) && Enabled(s, e) && !e.StopGivesUp?
    ensures AllHaveWaited(Step(s, e)) && EndsReaped(s, e)
  {
    forall t | t in Step(s, e).stoppers ensures HasWaited(Step(s, e), Step(s, e).stoppers[t]) {
      WaitedKept(s, e, t);
    }
    assert e.StopEnds? ==> HasWaited(s, s.stoppers[e.thread]);
  }

  /** So every run in which no Stop gives up waiting is orderly. */
  lemma {:induction false} PatientRunsAreOrderly(es: seq<Event>)
    requires Possible(IDLE, es) && forall e | e in es :: !e.StopGivesUp?
    ensures Orderly(IDLE, es) && AllHaveWaited(Run(IDLE, es))
  {
    if es != [] {
      var before, e := es[..|es| - 1], es[|es| - 1];
      PatientRunsAreOrderly(before);
      RunKeepsBackoffs(before);
      StepKeepsWaits(Run(IDLE, before), e);
    }
  }

  // ---------------------------------------------------------------- an unexpected exit brings a restart

  /** The configuration that a child was started with: that of the call, or that of the child whose exit caused it. */
  ghost function StartedWith(es: seq<Event>, id: nat): Option<Config>
    requires Possible(IDLE, es)
    decreases |es|
  {
    if es == [] then None
    else
      var before, e := es[..|es| - 1], es[|es| - 1];
      if id in Run(IDLE, before).children || id !in Run(IDLE, es).children then StartedWith(before, id)
      else if e.CallStart? then Some(e.cfg)
      else if e.BackoffTries? then StartedWith(before, e.origin)
      else None
  }

  /** A child that no Stop has found running. */
  ghost predicate UnstoppedOk(s: System, id: nat, c: ChildState) {
    id !in s.stopped ==>
      && !c.cancelled && (c.wait == Waiting ==> !s.f.stopping)
      && (c.wait.Reaped? || c.wait.Closed? ==> !c.wait.intentional)
  }

  ghost predicate ConfigKnown(s: System, id: nat, c: ChildState, started: Option<Config>) {
    && started.Some?
    && (c.wait == Waiting ==> s.f.lastConfig == started)
    && (c.wait.Reaped? || c.wait.Closed? ==> c.wait.cfg == started)
    && (id in s.backoffs ==> Some(s.backoffs[id].cfg) == started)
  }

  lemma UnstoppedKept(s: System, e: Event, id: nat)
    requires ActorOk(s, e) && s.next !in s.children && id in Step(s, e).children
    requires e.StopCancels? ==> StopperOk(s, s.stoppers[e.thread])
    requires id in s.children ==> ChildOk(s, id, s.children[id]) && UnstoppedOk(s, id, s.children[id])
    ensures UnstoppedOk(Step(s, e), id, Step(s, e).children[id])
  {
  }

  lemma ConfigStays(s: System, e: Event, id: nat, started: Option<Config>)
    requires ActorOk(s, e) && id in s.children && id != s.next && ConfigKnown(s, id, s.children[id], started)
    requires ChildOk(s, id, s.children[id]) && (id in s.backoffs ==> BackoffOk(s, id, s.backoffs[id]))
    ensures ConfigKnown(Step(s, e), id, Step(s, e).children[id], started)
  {
  }

  lemma ConfigOfNew(s: System, e: Event, id: nat)
    requires Enabled(s, e) && id !in s.children && id in Step(s, e).children && id !in s.backoffs
    ensures e.CallStart? || e.BackoffTries?
    ensures ConfigKnown(Step(s, e), id, Step(s, e).children[id],
                        Some(if e.CallStart? then e.cfg else s.backoffs[e.origin].cfg))
  {
  }

  ghost predicate AllKnown(es: seq<Event>)
    requires Possible(IDLE, es)
  {
    var s := Run(IDLE, es);
    && (forall id | id in s.children :: UnstoppedOk(s, id, s.children[id]))
    && (forall id | id in s.children :: ConfigKnown(s, id, s.children[id], StartedWith(es, id)))
  }

  lemma StepKnows(es: seq<Event>, id: nat)
    requires es != [] && Possible(IDLE, es) && id in Run(IDLE, es).children
    requires var before := es[..|es| - 1];
             Inv(Run(IDLE, before)) && AllKnown(before) && EndsReaped(Run(IDLE, before), es[|es| - 1])
    ensures var t := Run(IDLE, es);
            UnstoppedOk(t, id, t.children[id]) && ConfigKnown(t, id, t.children[id], StartedWith(es, id))
  {
    var before, e := es[..|es| - 1], es[|es| - 1];
    var s := Run(IDLE, before);
    assert e.StopCancels? || e.StopEnds? ==> StopperOk(s, s.stoppers[e.thread]);
    assert e.WaitReaps? || e.WaitReturns? ==> ChildOk(s, e.id, s.children[e.id]);
    assert id in s.backoffs ==> BackoffOk(s, id, s.backoffs[id]);
    UnstoppedKept(s, e, id);
    if id in s.children {
      ConfigStays(s, e, id, StartedWith(before, id));
    } else {
      ConfigOfNew(s, e, id);
      if e.BackoffTries? {
        assert BackoffOk(s, e.origin, s.backoffs[e.origin]);
        assert ConfigKnown(s, e.origin, s.children[e.origin], StartedWith(before, e.origin));
      }
    }
  }

  lemma {:induction false} ChildrenKnown(es: seq<Event>)
    requires Possible(IDLE, es) && Orderly(IDLE, es) && !Run(IDLE, es).shutdown
    ensures Inv(Run(IDLE, es)) && AllKnown(es)
  {
    if es != [] {
      var before, e := es[..|es| - 1], es[|es| - 1];
      ChildrenKnown(before);
      StepKeepsInv(Run(IDLE, before), e);
      forall id | id in Run(IDLE, es).children
        ensures UnstoppedOk(Run(IDLE, es), id, Run(IDLE, es).children[id])
        ensures ConfigKnown(Run(IDLE, es), id, Run(IDLE, es).children[id], StartedWith(es, id))
      {
        StepKnows(es, id);
      }
    }
  }

  /** In every orderly interleaving a wait goroutine that returns leaves a backoff goroutine behind exactly when no Stop
      found its child running and there is no shutdown; that one is to sleep two seconds and then start OBI with the
      configuration the child was started with. */
  lemma ExitRestartsIff(es: seq<Event>, id: nat)
    requires Possible(IDLE, es) && Orderly(IDLE, es) && Enabled(Run(IDLE, es), WaitReturns(id))
    ensures var s := Run(IDLE, es);
            var t := Step(s, WaitReturns(id));
            && (id in t.backoffs <==> id !in s.stopped && !s.shutdown)
            && (id in t.backoffs ==>
                  StartedWith(es, id).Some? && t.backoffs[id] == Backoff(StartedWith(es, id).value, Sleeping, 2, 0, 0))
  {
    var s := Run(IDLE, es);
    RunKeepsBackoffs(es);
    assert id in s.backoffs ==> BackoffOk(s, id, s.backoffs[id]);
    if s.shutdown {
      assert !Resurrects(s.children[id], s.shutdown);
    } else {
      ChildrenKnown(es);
      assert ChildOk(s, id, s.children[id]) && UnstoppedOk(s, id, s.children[id]);
      assert ConfigKnown(s, id, s.children[id], StartedWith(es, id));
    }
  }

  /** From every orderly run with a live child that nobody has stopped, before shutdown: it may exit and, if nobody else
      acts, is replaced by a child with its configuration. */
  lemma ExitIsFollowedByRestart(es: seq<Event>, id: nat) returns (es': seq<Event>)
    requires Possible(IDLE, es) && Orderly(IDLE, es) && !Run(IDLE, es).shutdown
    requires var s := Run(IDLE, es); id in s.children && s.children[id].alive && id !in s.stopped
    ensures es <= es' && Possible(IDLE, es') && Orderly(IDLE, es')
    ensures var s, t := Run(IDLE, es), Run(IDLE, es');
            && t.f == Fields(true, Child(s.next), false, StartedWith(es, id))
            && s.next in t.children && t.children[s.next].alive && t.children[s.next].cause == Some(id)
  {
    var s := Run(IDLE, es);
    ChildrenKnown(es);
    assert ChildOk(s, id, s.children[id]) && UnstoppedOk(s, id, s.children[id]);
    assert ConfigKnown(s, id, s.children[id], StartedWith(es, id));
    var t;
    es', t := ExitIsReaped(es, s, id);
    es', t := ReapedSleeps(es', t, id);
    es', t := SleeperRestarts(es', t, id);
  }

  lemma SleeperRestarts(es: seq<Event>, s: System, id: nat) returns (es': seq<Event>, t: System)
    requires Possible(IDLE, es) && Orderly(IDLE, es) && s == Run(IDLE, es) && !s.shutdown && !s.f.running
    requires id in s.backoffs && s.backoffs[id].stage == Sleeping
    ensures es <= es' && Possible(IDLE, es') && Orderly(IDLE, es') && t == Run(IDLE, es')
    ensures t.f == Fields(true, Child(s.next), false, Some(s.backoffs[id].cfg))
    ensures s.next in t.children && t.children[s.next].alive && t.children[s.next].cause == Some(id)
  {
    es', t := ExtendOrderly(IDLE, es, s, BackoffWakes(id));
    es', t := ExtendOrderly(IDLE, es', t, BackoffTries(id, Spawns));
  }

  lemma ExitIsReaped(es: seq<Event>, s: System, id: nat) returns (es': seq<Event>, t: System)
    requires Possible(IDLE, es) && Orderly(IDLE, es) && s == Run(IDLE, es)
    requires id in s.children && s.children[id].alive && s.children[id].wait == Waiting && s.f.cmd == Child(id)
    ensures es <= es' && Possible(IDLE, es') && Orderly(IDLE, es') && t == Run(IDLE, es')
    ensures var c := s.children[id].(alive := false, wait := Reaped(s.f.stopping, s.f.lastConfig));
            t == s.(f := s.f.(running := false, cmd := NoProcess), children := s.children[id := c])
  {
    es', t := ExtendOrderly(IDLE, es, s, ChildExits(id));
    assert t == s.(children := s.children[id := s.children[id].(alive := false)]);
    es', t := ExtendOrderly(IDLE, es', t, WaitReaps(id));
  }

  lemma ReapedSleeps(es: seq<Event>, s: System, id: nat) returns (es': seq<Event>, t: System)
    requires Possible(IDLE, es) && Orderly(IDLE, es) && s == Run(IDLE, es) && !s.shutdown
    requires id in s.children && s.children[id].wait.Reaped? && !s.children[id].wait.intentional
    requires s.children[id].wait.cfg.Some? && !s.children[id].cancelled
    ensures es <= es' && Possible(IDLE, es') && Orderly(IDLE, es') && t == Run(IDLE, es')
    ensures t.f == s.f && t.next == s.next && !t.shutdown
    ensures id in t.backoffs && t.backoffs[id] == Backoff(s.children[id].wait.cfg.value, Sleeping, INITIAL_DELAY, 0, 0)
  {
    es', t := ExtendOrderly(IDLE, es, s, WaitCloses(id));
    es', t := ExtendOrderly(IDLE, es', t, WaitReturns(id));
  }

  // ---------------------------------------------------------------- the backoff is bounded

  ghost function TriesFor(es: seq<Event>, origin: nat): nat {
    if es == [] then 0
    else
      var e := es[|es| - 1];
      TriesFor(es[..|es| - 1], origin) + if e.BackoffTries? && e.origin == origin then 1 else 0
  }

  ghost function TriesSoFar(s: System, origin: nat): nat {
    if origin in s.backoffs then s.backoffs[origin].tries else 0
  }

  lemma {:induction false} RunKeepsBackoffs(es: seq<Event>)
    requires Possible(IDLE, es)
    ensures BackoffsOk(Run(IDLE, es))
  {
    if es != [] {
      RunKeepsBackoffs(es[..|es| - 1]);
      StepKeepsBackoffs(Run(IDLE, es[..|es| - 1]), es[|es| - 1]);
    }
  }

  lemma TriesStep(s: System, e: Event, origin: nat)
    requires BackoffsOk(s) && Enabled(s, e)
    ensures TriesSoFar(Step(s, e), origin) ==
            TriesSoFar(s, origin) + if e.BackoffTries? && e.origin == origin then 1 else 0
  {
    assert origin in s.backoffs ==> BackoffOk(s, origin, s.backoffs[origin]);
    if !(e.WaitReturns? && e.id == origin)
       && !((e.BackoffWakes? || e.BackoffQuits? || e.BackoffTries?) && e.origin == origin)
    {
      BackoffFrame(s, e, origin);
    }
  }

  lemma {:induction false} TriesAreCounted(es: seq<Event>, origin: nat)
    requires Possible(IDLE, es)
    ensures TriesFor(es, origin) == TriesSoFar(Run(IDLE, es), origin)
  {
    if es != [] {
      var before := es[..|es| - 1];
      TriesAreCounted(before, origin);
      RunKeepsBackoffs(before);
      TriesStep(Run(IDLE, before), es[|es| - 1], origin);
    }
  }

  /** In every interleaving, one exit causes at most five Start attempts, with delays of at most 60 s that sum to at
      most 62 s. */
  lemma BackoffIsBounded(es: seq<Event>, origin: nat)
    requires Possible(IDLE, es)
    ensures TriesFor(es, origin) <= 5
    ensures var s := Run(IDLE, es);
            origin in s.backoffs ==> s.backoffs[origin].slept <= 62 &&
                                     (s.backoffs[origin].stage != Over ==> s.backoffs[origin].delay <= 60)
  {
    RunKeepsBackoffs(es);
    TriesAreCounted(es, origin);
    var s := Run(IDLE, es);
    if origin in s.backoffs {
      assert BackoffOk(s, origin, s.backoffs[origin]);
    }
  }

  lemma DelayTable()
    ensures Delay(0) == 2 && Delay(1) == 4 && Delay(2) == 8 && Delay(3) == 16 && Delay(4) == 32
  {
  }

  /** A try ends its backoff exactly if it starts a child or is the fifth; otherwise it sleeps on, twice as long. */
  lemma TryEndsIff(es: seq<Event>, o: nat, launch: Launch)
    requires Possible(IDLE, es) && Enabled(Run(IDLE, es), BackoffTries(o, launch))
    ensures var s := Run(IDLE, es);
            var b, c := s.backoffs[o], Step(s, BackoffTries(o, launch)).backoffs[o];
            && c.tries == b.tries + 1 == TriesFor(es, o) + 1
            && (c.stage == Over <==> (!s.f.running && launch == Spawns) || c.tries == 5)
            && (c.stage != Over ==>
                  c.stage == Sleeping && 0 < c.tries < 5 && c.delay == [2, 4, 8, 16, 32][c.tries])
  {
    var s := Run(IDLE, es);
    RunKeepsBackoffs(es);
    TriesAreCounted(es, o);
    DelayTable();
    assert BackoffOk(s, o, s.backoffs[o]);
  }

  // ---------------------------------------------------------------- when OBI stays down

  /** No goroutine is left that could start a child on its own. */
  ghost predicate Quiet(s: System) {
    && (forall o | o in s.backoffs :: s.backoffs[o].stage == Over)
    && (forall id | id in s.children :: !Resurrects(s.children[id], s.shutdown))
  }

  ghost predicate NoCaller(es: seq<Event>) {
    forall e | e in es :: !e.CallStart?
  }

  lemma QuietStep(s: System, e: Event)
    requires Inv(s) && Enabled(s, e) && !e.CallStart?
    requires Quiet(s) && !s.f.running
    ensures Inv(Step(s, e)) && Quiet(Step(s, e)) && !Step(s, e).f.running
  {
    var t := Step(s, e);
    if e.StopEnds? {
      var id := s.stoppers[e.thread].child;
      assert StopperOk(s, s.stoppers[e.thread]) && ChildOk(s, id, s.children[id]);
    }
    StepKeepsInv(s, e);
    forall id | id in t.children ensures !Resurrects(t.children[id], t.shutdown) {
      assert ChildOk(s, id, s.children[id]);
    }
  }

  lemma {:induction false} QuietRun(s: System, es: seq<Event>)
    requires Inv(s) && Quiet(s) && !s.f.running && Possible(s, es) && NoCaller(es)
    ensures Inv(Run(s, es)) && Quiet(Run(s, es)) && !Run(s, es).f.running
  {
    if es != [] {
      QuietRun(s, es[..|es| - 1]);
      QuietStep(Run(s, es[..|es| - 1]), es[|es| - 1]);
    }
  }

  lemma BackoffRevives(s0: System, es: seq<Event>, s: System, o: nat) returns (es': seq<Event>)
    requires Possible(s0, es) && s == Run(s0, es) && NoCaller(es)
    requires !s.shutdown && !s.f.running && o in s.backoffs && s.backoffs[o].stage != Over
    ensures Possible(s0, es') && NoCaller(es') && Run(s0, es').f.running
  {
    var s' := s;
    es' := es;
    if s'.backoffs[o].stage == Sleeping {
      es', s' := Extend(s0, es', s', BackoffWakes(o));
    }
    es', s' := Extend(s0, es', s', BackoffTries(o, Spawns));
  }

  /** With no child running, OBI stays down until somebody calls Start exactly when no backoff goroutine is sleeping
      and none is about to be left behind: a Stop that finds nothing running does not cancel one. */
  lemma StaysDownIff(s: System)
    requires Inv(s) && !s.f.running && !s.shutdown
    ensures Quiet(s) <==> forall es | Possible(s, es) && NoCaller(es) :: !Run(s, es).f.running
  {
    if Quiet(s) {
      forall es | Possible(s, es) && NoCaller(es) ensures !Run(s, es).f.running {
        QuietRun(s, es);
      }
    } else if o :| o in s.backoffs && s.backoffs[o].stage != Over {
      var es := BackoffRevives(s, [], s, o);
    } else {
      var id :| id in s.children && Resurrects(s.children[id], s.shutdown);
      var es, s' := [], s;
      if s.children[id].wait.Reaped? {
        es, s' := Extend(s, es, s', WaitCloses(id));
      }
      es, s' := Extend(s, es, s', WaitReturns(id));
      es := BackoffRevives(s, es, s', id);
    }
  }

  /** A caller's Stop, when nothing runs, leaves the goroutines as they are. */
  lemma IdleStopCancelsNothing(s: System, thread: nat)
    requires Inv(s) && !s.f.running && Enabled(s, CallStop(thread))
    ensures Step(s, CallStop(thread)).backoffs == s.backoffs && Step(s, CallStop(thread)).children == s.children
    ensures Quiet(Step(s, CallStop(thread))) <==> Quiet(s)
  {
  }

  // ---------------------------------------------------------------- when a Stop gives up

  /** From the start, two children can live at once: a Stop gives up on child 0, a Start spawns child 1, and the late
      wait goroutine of child 0 lets a third Start through. */
  lemma GivingUpAllowsTwoChildren() returns (es: seq<Event>)
    ensures Possible(IDLE, es)
    ensures var s := Run(IDLE, es); 1 in s.children && s.children[1].alive && 2 in s.children && s.children[2].alive
  {
    var s: System;
    es, s := StopThatGivesUp();
    es, s := Extend(IDLE, es, s, CallStart("", Spawns));
    es, s := Extend(IDLE, es, s, ChildExits(0));
    es, s := Extend(IDLE, es, s, WaitReaps(0));
    es, s := Extend(IDLE, es, s, CallStart("", Spawns));
  }

  lemma StopThatGivesUp() returns (es: seq<Event>, s: System)
    ensures Possible(IDLE, es) && s == Run(IDLE, es)
    ensures s.f == Fields(false, NoProcess, true, Some("")) && s.next == 1 && !s.shutdown
    ensures s.children == map[0 := ChildState(true, Waiting, true, None)]
  {
    es, s := Extend(IDLE, [], IDLE, CallStart("", Spawns));
    es, s := Extend(IDLE, es, s, CallStop(0));
    es, s := Extend(IDLE, es, s, StopGivesUp(0));
    es, s := Extend(IDLE, es, s, StopCancels(0));
    es, s := Extend(IDLE, es, s, StopEnds(0));
  }
}
