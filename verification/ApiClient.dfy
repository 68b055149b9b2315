/** The controller's side of the workload protocol: the GET-modify-PUT loops as they run against a server that other
    writers use between any two requests. */
module ApiClient {
  import opened Base
  import opened Decimal
  import opened Workload

  datatype Reply = Answered | LostReply | Refused

  /** One request: what others write before it is served, and how it is answered. */
  datatype Request = Request(outside: seq<Content>, reply: Reply)

  datatype Status = Ok | Conflict | Error

  /** No request of the script fails or loses its reply. */
  ghost predicate AllAnswered(script: seq<Request>) {
    forall i | 0 <= i < |script| :: script[i].reply == Answered
  }

  class ApiServer {
    var live: Versioned
    var script: seq<Request>
    ghost const origin: Content
    ghost var log: seq<Entry>

    /** The object is the replay of the accepted writes, and its version counts them. */
    ghost predicate Valid()
      reads this
    {
      Replayable(origin, log) && live == Versioned(Replay(origin, log), |log|)
    }

    /** `base` is what the server held at that version. */
    ghost predicate Held(base: Versioned)
      reads this
    {
      base.version <= |log| && base.content == Replay(origin, log[..base.version])
    }

    constructor (content: Content, script: seq<Request>)
      ensures Valid() && log == [] && live.content == content && this.script == script
    {
      live, this.script := Versioned(content, 0), script;
      origin, log := content, [];
    }

    /** Takes the next request off the script; an exhausted script means nobody interferes and nothing fails. */
    method NextRequest() returns (reply: Reply)
      requires Valid()
      modifies this
      ensures Valid() && old(log) <= log && live.version >= old(live.version)
      ensures forall i | |old(log)| <= i < |log| :: log[i].External?
      ensures old(script) == [] ==> reply == Answered && script == [] && log == old(log) && live == old(live)
      ensures AllAnswered(old(script)) ==> reply == Answered && AllAnswered(script)
    {
      if script == [] {
        return Answered;
      }
      var request := script[0];
      script := script[1..];
      reply := request.reply;
      for i := 0 to |request.outside|
        invariant Valid() && old(log) <= log && script == old(script)[1..]
        invariant forall k | |old(log)| <= k < |log| :: log[k].External?
      {
        ReplaySnoc(origin, log, External(request.outside[i]));
        live := Versioned(request.outside[i], live.version + 1);
        log := log + [External(request.outside[i])];
      }
    }

    method GetWorkload() returns (workload: Option<Versioned>)
      requires Valid()
      modifies this
      ensures Valid() && old(log) <= log
      ensures forall i | |old(log)| <= i < |log| :: log[i].External?
      ensures workload.Some? ==> workload.value == live && Held(live)
      ensures old(script) == [] ==> workload.Some? && script == [] && live == old(live) && log == old(log)
      ensures AllAnswered(old(script)) ==> workload.Some? && AllAnswered(script)
    {
      var reply := NextRequest();
      assert log[..|log|] == log;
      workload := if reply == Answered then Some(live) else None;
    }

    /** The server accepts the object only at the version it holds; a lost reply hides an accepted one. */
    method PutWorkload(id: nat, ghost op: Op, base: Versioned, next: Content) returns (status: Status)
      requires Valid() && Held(base) && Decide(op, base.content) == Write(next)
      modifies this
      ensures Valid() && old(log) <= log
      ensures var own := |log| > 0 && log[|log| - 1] == Landed(id, op);
              && (status == Ok ==> own && |log| > |old(log)|)
              && (status == Conflict ==> base.version < |log|)
              && (status != Ok ==> forall i | |old(log)| <= i < |log| :: log[i].External? || (i == |log| - 1 && own))
              && (status == Conflict ==> forall i | |old(log)| <= i < |log| :: log[i].External?)
              && (forall i | |old(log)| <= i < |log| - 1 :: log[i].External?)
      ensures status != Error ==> (status == Conflict <==> !(|log| > |old(log)| && log[|log| - 1].Landed?))
      ensures old(script) == [] ==> status == if base.version == |old(log)| then Ok else Conflict
      ensures AllAnswered(old(script)) ==> status != Error && AllAnswered(script)
    {
      var reply := NextRequest();
      if reply == Refused {
        return Error;
      }
      if base.version != live.version {
        return if reply == Answered then Conflict else Error;
      }
      assert old(log)[..base.version] == log;
      assert Decide(op, Replay(origin, log)) == Write(next);
      ReplaySnoc(origin, log, Landed(id, op));
      live := Versioned(next, live.version + 1);
      log := log + [Landed(id, op)];
      status := if reply == Answered then Ok else Error;
    }

    /** What a command has done to the history since it held `before`. */
    ghost predicate Accounted(id: nat, op: Op, before: seq<Entry>, outcome: Outcome)
      reads this
    {
      && before <= log
      && (outcome == Applied ==> |log| > |before| && log[|log| - 1] == Landed(id, op) &&
                                 forall i | |before| <= i < |log| - 1 :: !IsOwn(log[i], id))
      && (outcome == AlreadyThere ==> OnlyOthers(log, |before|, id) && Decide(op, live.content) == Unchanged)
      && (outcome == Conflicted ==> OnlyOthers(log, |before|, id) && |log| >= |before| + MAX_RETRIES)
      && (outcome == Failed ==> forall i | |before| <= i < |log| && IsOwn(log[i], id) ::
                                  i == |log| - 1 && log[i] == Landed(id, op))
    }

    /** The object has this count, and the key is gone unless that is zero. */
    predicate Scaled(c: Content, replicas: int, key: string) {
      c.spec.Some? && Count(c) == replicas && (key != "" && replicas > 0 ==> key !in c.annotations)
    }

    /** The pod template has this entry. */
    predicate Stamped(c: Content, key: string, value: string) {
      Template(c).Some? && key in Template(c).value && Template(c).value[key] == value
    }

    /** Once the write has landed, or is not needed, the object is as the command wants it. */
    lemma LandedAsWanted(op: Op, id: nat)
      requires Valid()
      requires (|log| > 0 && log[|log| - 1] == Landed(id, op)) || Decide(op, live.content) == Unchanged
      ensures op.Scale? ==> Scaled(live.content, op.replicas, op.key)
      ensures op.Bump? ==> Stamped(live.content, op.key, op.value)
    {
      var before := if Decide(op, live.content) == Unchanged then live.content else Replay(origin, log[..|log| - 1]);
      match op {
        case Scale(replicas, key) => ScaleWrites(id, replicas, key, before);
        case Bump(key, value) => BumpWrites(id, key, value, before);
      }
    }

    /** What one attempt to scale makes of the object it has fetched. */
    method PrepareScale(workload: Content, replicas: int, key: string) returns (decision: Decision)
      ensures decision == Decide(Scale(replicas, key), workload)
    {
      if workload.spec.None? {
        return Invalid;
      }
      var spec := workload.spec.value;
      var current := ReadReplicas(spec);
      var annotations := workload.annotations;

      var alreadyAtTarget := current == replicas;
      var annotationMatches := true;
      if key != "" {
        if replicas == 0 {
          annotationMatches := current == 0 && key in annotations;
        } else {
          annotationMatches := key !in annotations;
        }
      }
      if alreadyAtTarget && annotationMatches {
        return Unchanged;
      }

      spec := spec.(replicas := Some(replicas));
      if key != "" {
        if replicas == 0 && current > 0 {
          annotations := annotations[key := FormatNat(current)];
        } else if replicas > 0 {
          annotations := annotations - {key};
        }
      }
      return Write(workload.(spec := Some(spec), annotations := annotations));
    }

    /** What one attempt to stamp the pod template makes of it. */
    method PrepareBump(workload: Content, key: string, value: string) returns (decision: Decision)
      ensures decision == Decide(Bump(key, value), workload)
    {
      if workload.spec.None? || workload.spec.value.template.None? {
        return Invalid;
      }
      var annotations := workload.spec.value.template.value;
      if key in annotations && annotations[key] == value {
        return Unchanged;
      }
      annotations := annotations[key := value];
      return Write(workload.(spec := Some(workload.spec.value.(template := Some(annotations)))));
    }

    ghost predicate AsWanted(op: Op)
      reads this
    {
      match op
      case Scale(replicas, key) => Scaled(live.content, replicas, key)
      case Bump(key, value) => Stamped(live.content, key, value)
    }

    /** The rest of one attempt: done, unless the PUT meets a newer version. */
    method PutDecision(id: nat, ghost op: Op, got: Versioned, decision: Decision) returns (done: bool, outcome: Outcome)
      requires Valid() && got == live && Held(got) && decision == Decide(op, got.content)
      modifies this
      ensures Valid() && old(log) <= log
      ensures done ==> Accounted(id, op, old(log), outcome) && outcome != Conflicted
      ensures done && (outcome == Applied || outcome == AlreadyThere) ==> AsWanted(op)
      ensures !done ==> OnlyOthers(log, |old(log)|, id) && |log| > |old(log)|
      ensures old(script) == [] ==> done && outcome == OutcomeOf(decision)
      ensures AllAnswered(old(script)) ==> AllAnswered(script) && (done && outcome == Failed ==> decision == Invalid)
      ensures done && decision == Invalid ==> log == old(log) && live == old(live)
    {
      if decision == Invalid {
        return true, Failed;
      }
      if decision == Unchanged {
        LandedAsWanted(op, id);
        return true, AlreadyThere;
      }
      var status := PutWorkload(id, op, got, decision.next);
      if status == Ok {
        LandedAsWanted(op, id);
        return true, Applied;
      }
      return status != Conflict, Failed;
    }

    /** atomicScaleWithAnnotation: scales to `replicas`, saving or dropping the prior count in the same write. */
    method AtomicScaleWithAnnotation(id: nat, replicas: int, key: string) returns (outcome: Outcome)
      requires Valid()
      modifies this
      ensures Valid() && Accounted(id, Scale(replicas, key), old(log), outcome)
      // Success means that the count is there, and the key gone unless that is zero.
      ensures outcome == Applied || outcome == AlreadyThere ==> Scaled(live.content, replicas, key)
      ensures old(script) == [] ==> outcome == OutcomeOf(Decide(Scale(replicas, key), old(live.content)))
      // While requests are answered only an object that cannot be changed makes it fail.
      ensures AllAnswered(old(script)) && outcome == Failed ==> Decide(Scale(replicas, key), live.content) == Invalid
    {
      var attempt := 0;
      while attempt < MAX_RETRIES
        invariant attempt <= MAX_RETRIES && Valid()
        invariant old(log) <= log && OnlyOthers(log, |old(log)|, id) && |log| >= |old(log)| + attempt
        invariant old(script) == [] ==> attempt == 0 && script == [] && log == old(log)
        invariant AllAnswered(old(script)) ==> AllAnswered(script)
      {
        var got := GetWorkload();
        if got.None? {
          return Failed;
        }
        var decision := PrepareScale(got.value.content, replicas, key);
        var done;
        done, outcome := PutDecision(id, Scale(replicas, key), got.value, decision);
        if done {
          return outcome;
        }
        attempt := attempt + 1;
      }
      return Conflicted;
    }

    /** bumpRolloutAnnotation: stamps the pod template. */
    method BumpRolloutAnnotation(id: nat, key: string, value: string) returns (outcome: Outcome)
      requires Valid()
      modifies this
      ensures Valid() && Accounted(id, Bump(key, value), old(log), outcome)
      // Success means that the stamp is there.
      ensures outcome == Applied || outcome == AlreadyThere ==> Stamped(live.content, key, value)
      ensures old(script) == [] ==> outcome == OutcomeOf(Decide(Bump(key, value), old(live.content)))
      // While requests are answered only an object that cannot be changed makes it fail.
      ensures AllAnswered(old(script)) && outcome == Failed ==> Decide(Bump(key, value), live.content) == Invalid
    {
      var attempt := 0;
      while attempt < MAX_RETRIES
        invariant attempt <= MAX_RETRIES && Valid()
        invariant old(log) <= log && OnlyOthers(log, |old(log)|, id) && |log| >= |old(log)| + attempt
        invariant old(script) == [] ==> attempt == 0 && script == [] && log == old(log)
        invariant AllAnswered(old(script)) ==> AllAnswered(script)
      {
        var got := GetWorkload();
        if got.None? {
          return Failed;
        }
        var decision := PrepareBump(got.value.content, key, value);
        var done;
        done, outcome := PutDecision(id, Bump(key, value), got.value, decision);
        if done {
          return outcome;
        }
        attempt := attempt + 1;
      }
      return Conflicted;
    }

    method ReadSavedReplicas(key: string) returns (saved: Option<int>)
      requires Valid()
      modifies this
      ensures Valid() && old(log) <= log && forall i | |old(log)| <= i < |log| :: log[i].External?
      ensures saved.Some? ==> saved.value == SavedReplicas(live.content, key)
      ensures old(script) == [] ==> saved.Some? && script == [] && live == old(live) && log == old(log)
      ensures AllAnswered(old(script)) ==> saved.Some? && AllAnswered(script)
    {
      var got := GetWorkload();
      saved := if got.None? then None else Some(SavedReplicas(got.value.content, key));
    }

    /** stopK8s for a controlled workload. */
    method StopControlled(id: nat) returns (outcome: Outcome)
      requires Valid()
      modifies this
      ensures Valid() && Accounted(id, Scale(0, SAVED_REPLICAS), old(log), outcome)
      ensures outcome == Applied || outcome == AlreadyThere ==> Scaled(live.content, 0, SAVED_REPLICAS)
      ensures AllAnswered(old(script)) && outcome == Failed ==> live.content.spec.None?
    {
      outcome := AtomicScaleWithAnnotation(id, 0, SAVED_REPLICAS);
    }

    /** startK8sControlledFromSnapshot: what it scales to is the count saved at some point of its own history, with the
        same account of its writes for every outcome. */
    method StartControlled(id: nat) returns (outcome: Outcome, ghost readAt: nat)
      requires Valid()
      modifies this
      ensures Valid() && old(log) <= log && |old(log)| <= readAt <= |log|
      ensures forall i | |old(log)| <= i < readAt :: log[i].External?
      ensures var op := Scale(SavedReplicas(Replay(origin, log[..readAt]), SAVED_REPLICAS), SAVED_REPLICAS);
              && Accounted(id, op, old(log), outcome) && (outcome == Applied ==> readAt < |log|)
              && (outcome == Applied || outcome == AlreadyThere ==>
                    op.replicas >= 1 && Scaled(live.content, op.replicas, SAVED_REPLICAS))
              && (AllAnswered(old(script)) && outcome == Failed ==> live.content.spec.None?)
    {
      var saved := ReadSavedReplicas(SAVED_REPLICAS);
      readAt := |log|;
      if saved.None? {
        return Failed, readAt;
      }
      ghost var seen := log;
      SavedReplicasReads(live.content, SAVED_REPLICAS);
      outcome := AtomicScaleWithAnnotation(id, saved.value, SAVED_REPLICAS);
      assert log[..readAt] == seen;
    }
  }
}
