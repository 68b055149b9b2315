/** The manager object itself: its critical sections, and the backoff loop that runs outside the lock. */
module ObiManager {
  import opened Base
  import opened Supervisor

  /** What a backoff goroutine meets on its k-th round: a cancelled context, the fields others have left when it looks
      and when it starts, and the fate of its own Start. */
  datatype Round = Round(quit: bool, seen: Fields, atStart: Fields, launch: Launch)

  function Sum(xs: seq<nat>): nat {
    if xs == [] then 0 else Sum(xs[..|xs| - 1]) + xs[|xs| - 1]
  }

  /** The waits of a backoff so far: 2, 4, 8, 16, 32 seconds. */
  predicate OnSchedule(waits: seq<nat>) {
    |waits| <= MAX_ATTEMPTS && forall k | 0 <= k < |waits| :: waits[k] == Delay(k)
  }

  /** On schedule, no wait exceeds 60 s and all of them together do not exceed 62 s. */
  lemma {:induction false} ScheduleIsBounded(waits: seq<nat>)
    requires OnSchedule(waits)
    ensures Sum(waits) == Slept(|waits|) <= 62
    ensures forall k | 0 <= k < |waits| :: waits[k] <= MAX_DELAY
  {
    if waits != [] {
      ScheduleIsBounded(waits[..|waits| - 1]);
    }
  }

  /** A round whose Start was made and failed. */
  predicate FailedRound(r: Round) {
    !r.quit && !r.seen.running && (r.atStart.running || r.launch != Spawns)
  }

  class OBIManager {
    var running: bool
    var cmd: Process
    var stopping: bool
    var lastConfig: Option<Config>
    var next: nat

    constructor ()
      ensures View() == IDLE.f
    {
      running, cmd, stopping, lastConfig, next := false, NoProcess, false, None, 0;
    }

    function View(): Fields
      reads this
    {
      Fields(running, cmd, stopping, lastConfig)
    }

    /** Other goroutines have held the lock meanwhile. */
    method Interleave(fields: Fields)
      modifies this
      ensures View() == fields && next == old(next)
    {
      running, cmd, stopping, lastConfig := fields.running, fields.cmd, fields.stopping, fields.lastConfig;
    }

    method Start(cfg: Config, launch: Launch) returns (error: bool)
      modifies this
      ensures View() == StartFields(old(View()), cfg, launch, old(next))
      ensures error <==> old(running) || launch != Spawns
      ensures next == if error then old(next) else old(next) + 1
    {
      if running {
        return true;
      }
      if launch == Unavailable {
        return true;
      }
      stopping := false;
      cmd := Unstarted;
      if launch == ExecFails {
        return true;
      }
      cmd := Child(next);
      next := next + 1;
      lastConfig := Some(cfg);
      running := true;
      return false;
    }

    /** Stop up to the signals: the child to wait for, if one runs. */
    method StopBegin() returns (target: Option<nat>)
      modifies this
      ensures View() == StopBeginFields(old(View())) && next == old(next)
      ensures target == if old(running) && old(cmd).Child? then Some(old(cmd).id) else None
    {
      if !running || !cmd.Child? {
        running, cmd := false, NoProcess;
        return None;
      }
      stopping := true;
      return Some(cmd.id);
    }

    /** Stop after the wait and the cancel. */
    method StopEnd(child: nat)
      modifies this
      ensures View() == StopEndFields(old(View()), child) && next == old(next)
    {
      if cmd == Child(child) || !running {
        running, cmd := false, NoProcess;
      }
    }

    /** The wait goroutine of a child, under the lock. */
    method Reap(child: nat) returns (intentional: bool, cfg: Option<Config>)
      modifies this
      ensures View() == ReapFields(old(View()), child) && next == old(next)
      ensures intentional == old(stopping) && cfg == old(lastConfig)
    {
      cfg, intentional := lastConfig, stopping;
      running := false;
      if cmd == Child(child) {
        cmd := NoProcess;
      }
    }

    /** Sleeps, looks and starts, at most five times.  It ends with its child running, or because of the context, a
        child of somebody else, or five failures. */
    method RestartWithBackoff(cfg: Config, world: nat -> Round)
      returns (waits: seq<nat>, attempts: nat, started: bool)
      modifies this
      ensures OnSchedule(waits) && attempts <= |waits| <= attempts + 1
      ensures forall k | 0 <= k < attempts && !(started && k == attempts - 1) :: FailedRound(world(k))
      ensures if started then attempts == |waits| > 0 && running && lastConfig == Some(cfg) && cmd.Child?
              else attempts == MAX_ATTEMPTS || world(attempts).quit || world(attempts).seen.running
    {
      waits, attempts, started := [], 0, false;
      var delay := INITIAL_DELAY;
      while attempts < MAX_ATTEMPTS
        invariant attempts == |waits| && OnSchedule(waits) && !started
        invariant attempts < MAX_ATTEMPTS ==> delay == Delay(attempts)
        invariant forall k | 0 <= k < attempts :: FailedRound(world(k))
      {
        var round := world(attempts);
        waits := waits + [delay];
        if round.quit {
          return;
        }
        Interleave(round.seen);
        if running {
          return;
        }
        Interleave(round.atStart);
        var error := Start(cfg, round.launch);
        attempts := attempts + 1;
        if !error {
          started := true;
          return;
        }
        delay := delay * 2;
        if delay > MAX_DELAY {
          delay := MAX_DELAY;
        }
      }
    }
  }
}
