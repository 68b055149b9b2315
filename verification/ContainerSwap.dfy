/** Replacing a Docker container: stop and rename the original, create and start a replacement under its name, and
    undo the steps taken when one fails.  Every call to the daemon may be refused or its reply lost. */
module ContainerSwap {
  type Payload = string

  datatype Container = Container(name: string, running: bool, payload: Payload)

  type Containers = map<nat, Container>

  /** The fate of one call: done and answered, refused without effect, or done with the answer lost. */
  datatype Fate = Served | Refused | ReplyLost

  /** The fate of the i-th call from here; an exhausted script serves every call. */
  function FateAt(script: seq<Fate>, i: nat): Fate {
    if i < |script| then script[i] else Served
  }

  ghost predicate UniqueNames(containers: Containers) {
    forall a, b | a in containers && b in containers && containers[a].name == containers[b].name :: a == b
  }

  predicate NameTaken(containers: Containers, name: string) {
    exists c | c in containers :: containers[c].name == name
  }

  predicate CanRename(containers: Containers, id: nat, name: string) {
    id in containers && !NameTaken(containers, name)
  }

  /** The daemon.  It refuses by itself an unknown container and a name in use; the ids it hands out are new. */
  class DockerDaemon {
    var containers: Containers
    var next: nat
    var script: seq<Fate>

    ghost predicate Valid()
      reads this
    {
      0 < next && UniqueNames(containers) && forall c | c in containers :: 0 < c < next
    }

    constructor (containers: Containers, next: nat, script: seq<Fate>)
      requires 0 < next && UniqueNames(containers) && forall c | c in containers :: 0 < c < next
      ensures Valid() && this.containers == containers && this.script == script
    {
      this.containers, this.next, this.script := containers, next, script;
    }

    method NextFate() returns (fate: Fate)
      modifies this`script
      ensures fate == FateAt(old(script), 0)
      ensures forall i: nat :: FateAt(script, i) == FateAt(old(script), i + 1)
    {
      fate := Served;
      if script != [] {
        fate, script := script[0], script[1..];
      }
    }

    /** stopContainer and startContainer: an answer of "not modified" is success. */
    method SetRunning(id: nat, running: bool) returns (error: bool)
      requires Valid()
      modifies this
      ensures Valid() && next == old(next)
      ensures forall i: nat :: FateAt(script, i) == FateAt(old(script), i + 1)
      ensures error <==> FateAt(old(script), 0) != Served || id !in old(containers)
      ensures FateAt(old(script), 0) == Refused || id !in old(containers) ==> containers == old(containers)
      ensures FateAt(old(script), 0) != Refused && id in old(containers) ==>
                containers == old(containers)[id := old(containers)[id].(running := running)]
    {
      var fate := NextFate();
      if fate == Refused || id !in containers {
        return true;
      }
      containers := containers[id := containers[id].(running := running)];
      return fate == ReplyLost;
    }

    method Rename(id: nat, name: string) returns (error: bool)
      requires Valid()
      modifies this
      ensures Valid() && next == old(next)
      ensures forall i: nat :: FateAt(script, i) == FateAt(old(script), i + 1)
      ensures error <==> FateAt(old(script), 0) != Served || !CanRename(old(containers), id, name)
      ensures FateAt(old(script), 0) == Refused || !CanRename(old(containers), id, name) ==>
                containers == old(containers)
      ensures FateAt(old(script), 0) != Refused && CanRename(old(containers), id, name) ==>
                containers == old(containers)[id := old(containers)[id].(name := name)]
    {
      var fate := NextFate();
      if fate == Refused || id !in containers || NameTaken(containers, name) {
        return true;
      }
      containers := containers[id := containers[id].(name := name)];
      return fate == ReplyLost;
    }

    method Create(name: string, payload: Payload) returns (error: bool, id: nat)
      requires Valid()
      modifies this
      ensures Valid()
      ensures forall i: nat :: FateAt(script, i) == FateAt(old(script), i + 1)
      ensures error <==> FateAt(old(script), 0) != Served || NameTaken(old(containers), name)
      ensures !error ==> id == old(next)
      ensures FateAt(old(script), 0) == Refused || NameTaken(old(containers), name) ==> containers == old(containers)
      ensures FateAt(old(script), 0) != Refused && !NameTaken(old(containers), name) ==>
                containers == old(containers)[old(next) := Container(name, false, payload)]
    {
      var fate := NextFate();
      id := 0;
      if fate == Refused || NameTaken(containers, name) {
        return true, id;
      }
      id := next;
      containers := containers[id := Container(name, false, payload)];
      next := id + 1;
      return fate == ReplyLost, id;
    }

    /** removeContainer: an unknown container counts as removed. */
    method Remove(id: nat) returns (error: bool)
      requires Valid()
      modifies this
      ensures Valid()
      ensures forall i: nat :: FateAt(script, i) == FateAt(old(script), i + 1)
      ensures error <==> FateAt(old(script), 0) != Served
      ensures containers == if FateAt(old(script), 0) == Refused then old(containers) else old(containers) - {id}
    {
      var fate := NextFate();
      if fate == Refused {
        return true;
      }
      containers := containers - {id};
      return fate == ReplyLost;
    }
  }

  predicate Untouched(before: Containers, after: Containers, id: nat) {
    forall c | c in before && c != id :: c in after && after[c] == before[c]
  }

  /** The original is still there, with its payload, under its own name or the backup name. */
  predicate OriginalKept(before: Containers, after: Containers, id: nat, name: string, backup: string) {
    id in before ==>
      id in after && after[id].payload == before[id].payload &&
      (after[id].name == before[id].name || after[id].name == backup || after[id].name == name)
  }

  predicate OnlyReplacementNew(before: Containers, after: Containers, newId: nat, name: string, payload: Payload) {
    forall c | c in after && c !in before ::
      c == newId && after[c].name == name && after[c].payload == payload
  }

  /** Everything as it was, but that the original may have been started. */
  predicate Restored(before: Containers, after: Containers, id: nat) {
    after == before || (id in before && after == before[id := before[id].(running := true)])
  }

  /** The reply of the stop is lost: the original is down and nobody starts it. */
  predicate StopUnseen(before: Containers, script: seq<Fate>, id: nat) {
    id in before && before[id].running && FateAt(script, 0) == ReplyLost
  }

  /** The reply of the rename is lost: the original is started again, under the backup name. */
  predicate RenameUnseen(before: Containers, script: seq<Fate>, id: nat, backup: string) {
    CanRename(before, id, backup) && FateAt(script, 0) == Served && FateAt(script, 1) == ReplyLost
  }

  /** The container is there, under its name. */
  predicate Known(containers: Containers, id: nat, name: string) {
    id != 0 && name != "" && id in containers && containers[id].name == name
  }

  /** The original is stopped and renamed, with both answered. */
  predicate GetsHalfway(before: Containers, script: seq<Fate>, backup: string) {
    FateAt(script, 0) == FateAt(script, 1) == Served && !NameTaken(before, backup)
  }

  function From(script: seq<Fate>, i: nat): (rest: seq<Fate>)
    ensures forall k: nat :: FateAt(rest, k) == FateAt(script, i + k)
  {
    if i <= |script| then script[i..] else []
  }

  function BackupName(name: string, suffix: string): string {
    name + "-openlit-backup-" + suffix
  }

  /** recreateDockerContainer, for every state of the daemon and every pattern of failing calls.
      `undoFailures` counts the compensations that failed, which the source logs. */
  method RecreateDockerContainer(daemon: DockerDaemon, id: nat, name: string, suffix: string, payload: Payload)
    returns (error: bool, undoFailures: nat)
    requires daemon.Valid()
    modifies daemon
    // Names stay unique and other containers are left alone.
    ensures daemon.Valid() && Untouched(old(daemon.containers), daemon.containers, id)
    ensures OnlyReplacementNew(old(daemon.containers), daemon.containers, old(daemon.next), name, payload)
    // Success means that the replacement runs under the name; only then can the original be gone.
    ensures !error ==>
              && old(daemon.next) in daemon.containers
              && daemon.containers[old(daemon.next)] == Container(name, true, payload)
              && id in old(daemon.containers)
              && (id in daemon.containers ==>
                    daemon.containers[id] ==
                    Container(BackupName(name, suffix), false, old(daemon.containers)[id].payload))
    ensures error ==>
              OriginalKept(old(daemon.containers), daemon.containers, id, name, BackupName(name, suffix))
    // An error whose compensations succeeded leaves everything as it was, the original running if it ran, exactly
    // unless the reply of the stop or of the rename was lost: those two are not compensated.
    ensures id != 0 && name != "" && (id in old(daemon.containers) ==> old(daemon.containers)[id].name == name) &&
            error && undoFailures == 0 ==>
              (Restored(old(daemon.containers), daemon.containers, id) <==>
               !StopUnseen(old(daemon.containers), old(daemon.script), id) &&
               !RenameUnseen(old(daemon.containers), old(daemon.script), id, BackupName(name, suffix)))
    // A stop that is done but not answered leaves the original down.
    ensures id != 0 && name != "" && id in old(daemon.containers) && FateAt(old(daemon.script), 0) == ReplyLost ==>
              error && daemon.containers == old(daemon.containers)[id := old(daemon.containers)[id].(running := false)]
    // A rename that is done but not answered leaves it under the backup name.
    ensures id != 0 && name != "" && undoFailures == 0 &&
            RenameUnseen(old(daemon.containers), old(daemon.script), id, BackupName(name, suffix)) ==>
              error && daemon.containers ==
              old(daemon.containers)[id := Container(BackupName(name, suffix), true, old(daemon.containers)[id].payload)]
    // It succeeds exactly when stop, rename, create and start are all served and the backup name is free; then the
    // replacement is in the place of the original, which stays only if its removal is refused.
    ensures Known(old(daemon.containers), id, name) ==>
              (error <==> NameTaken(old(daemon.containers), BackupName(name, suffix)) ||
                          exists i: nat :: i < 4 && FateAt(old(daemon.script), i) != Served)
    ensures !error ==>
              && undoFailures == 0
              && daemon.containers == Swapped(old(daemon.containers), old(daemon.script), old(daemon.next), id, name,
                                              BackupName(name, suffix), payload)
    // And what each failure leaves behind.
    ensures Known(old(daemon.containers), id, name) && error ==>
              LeftBehind(old(daemon.containers), old(daemon.script), old(daemon.next), id, name,
                         BackupName(name, suffix), daemon.containers, undoFailures)
  {
    undoFailures := 0;
    if id == 0 || name == "" {
      return true, undoFailures;
    }
    var backupName := BackupName(name, suffix);
    assert |backupName| > |name|;
    ghost var before, script := daemon.containers, daemon.script;
    error, undoFailures := StepAside(daemon, id, backupName);
    if error {
      if id in before && before[id].name == name {
        RestoredIff(before, script, id, name, backupName);
      }
      return true, undoFailures;
    }
    error, undoFailures := FinishSwap(daemon, id, name, payload, backupName, before, script);
  }

  /** After a success: the replacement in the place of the original, which stays only if its removal is refused. */
  function Swapped(before: Containers, script: seq<Fate>, newId: nat, id: nat, name: string, backup: string,
                   payload: Payload): Containers
    requires id in before
  {
    (if FateAt(script, 4) == Refused then before[id := Container(backup, false, before[id].payload)]
     else before - {id})[newId := Container(name, true, payload)]
  }

  /** After an error: whether the replacement is still there, the original has its name, and runs, and whether every
      step of the rollback was answered as done. */
  ghost predicate LeftBehind(before: Containers, script: seq<Fate>, newId: nat, id: nat, name: string, backup: string,
                             after: Containers, undoFailures: nat)
    requires id in before
  {
    var halfway, rest := GetsHalfway(before, script, backup), From(script, 2);
    && id in after
    && (newId in after <==> halfway && LeavesReplacement(rest))
    && (after[id].name == name <==> if halfway then NamesBack(rest) else !SteppedAside(before, script, id, backup))
    && (after[id].running <==> if halfway then StartsAgain(rest) else RunsAfter(script, before[id].running))
    && (undoFailures == 0 <==>
        if halfway then UndoesAll(rest) else FateAt(script, 0) != Served || FateAt(script, 2) == Served)
  }

  /** The second half, in terms of the state before the first. */
  method FinishSwap(daemon: DockerDaemon, id: nat, name: string, payload: Payload, backup: string,
                    ghost before: Containers, ghost script: seq<Fate>)
    returns (error: bool, undoFailures: nat)
    requires daemon.Valid() && id in before && UniqueNames(before) && name != backup
    requires id in daemon.containers && daemon.containers == before[id := Container(backup, false, before[id].payload)]
    requires GetsHalfway(before, script, backup)
    requires forall i: nat :: FateAt(daemon.script, i) == FateAt(script, i + 2)
    modifies daemon
    ensures daemon.Valid() && Untouched(before, daemon.containers, id)
    ensures OnlyReplacementNew(before, daemon.containers, old(daemon.next), name, payload)
    ensures before[id].name == name ==> (error <==> FateAt(script, 2) != Served || FateAt(script, 3) != Served)
    ensures !error ==>
              && undoFailures == 0
              && daemon.containers == Swapped(before, script, old(daemon.next), id, name, backup, payload)
    ensures error ==> OriginalKept(before, daemon.containers, id, name, backup)
    ensures error && undoFailures == 0 ==>
              daemon.containers == before[id := Container(name, true, before[id].payload)]
    ensures before[id].name == name && error ==>
              LeftBehind(before, script, old(daemon.next), id, name, backup, daemon.containers, undoFailures)
  {
    if before[id].name == name {
      NameFreed(before, daemon.containers, id, name);
    }
    SameFates(daemon.script, From(script, 2));
    assert daemon.containers - {id} == before - {id};
    error, undoFailures := SwapIn(daemon, id, name, payload);
    if error && undoFailures == 0 {
      assert daemon.containers == before[id := Container(name, true, before[id].payload)];
    }
  }

  lemma NameFreed(before: Containers, after: Containers, id: nat, name: string)
    requires UniqueNames(before) && id in before && before[id].name == name
    requires id in after && after == before[id := after[id]] && after[id].name != name
    ensures !NameTaken(after, name)
  {
  }

  lemma SameFates(script: seq<Fate>, rest: seq<Fate>)
    requires forall i: nat :: FateAt(script, i) == FateAt(rest, i)
    ensures LeavesReplacement(script) == LeavesReplacement(rest) && NamesBack(script) == NamesBack(rest)
    ensures StartsAgain(script) == StartsAgain(rest) && UndoesAll(script) == UndoesAll(rest)
  {
  }

  /** Whether the original runs after a failed first half, if it ran before or not. */
  predicate RunsAfter(script: seq<Fate>, ran: bool) {
    match FateAt(script, 0)
    case Refused => ran
    case ReplyLost => false
    case Served => FateAt(script, 2) != Refused
  }

  /** Whether it has been renamed, answered or not. */
  predicate SteppedAside(before: Containers, script: seq<Fate>, id: nat, backup: string) {
    FateAt(script, 0) == Served && FateAt(script, 1) != Refused && CanRename(before, id, backup)
  }

  /** Stops the original and renames it, restarting it when the rename fails. */
  method StepAside(daemon: DockerDaemon, id: nat, backupName: string) returns (error: bool, undoFailures: nat)
    requires daemon.Valid()
    modifies daemon
    ensures daemon.Valid() && daemon.next == old(daemon.next)
    ensures error <==> FateAt(old(daemon.script), 0) != Served || FateAt(old(daemon.script), 1) != Served ||
                       !CanRename(old(daemon.containers), id, backupName)
    ensures id !in old(daemon.containers) ==> error && daemon.containers == old(daemon.containers)
    ensures id in old(daemon.containers) ==>
              && id in daemon.containers
              && daemon.containers == old(daemon.containers)[id := daemon.containers[id]]
              && daemon.containers[id].payload == old(daemon.containers)[id].payload
              && (!error ==> !daemon.containers[id].running && daemon.containers[id].name == backupName)
              && (daemon.containers[id].name == old(daemon.containers)[id].name ||
                  daemon.containers[id].name == backupName)
              && (error ==> (daemon.containers[id].running <==>
                             RunsAfter(old(daemon.script), old(daemon.containers)[id].running)))
              && (daemon.containers[id].name == backupName <==>
                  old(daemon.containers)[id].name == backupName ||
                  SteppedAside(old(daemon.containers), old(daemon.script), id, backupName))
    ensures forall i: nat :: !error ==> FateAt(daemon.script, i) == FateAt(old(daemon.script), i + 2)
    ensures undoFailures == 0 <==>
            !error || FateAt(old(daemon.script), 0) != Served || id !in old(daemon.containers) ||
            FateAt(old(daemon.script), 2) == Served
  {
    undoFailures := 0;
    var stopError := daemon.SetRunning(id, false);
    if stopError {
      return true, undoFailures;
    }
    SameNames(old(daemon.containers), daemon.containers, backupName);
    error, undoFailures := RenameOrRestart(daemon, id, backupName);
  }

  /** The second half of that, on the stopped original. */
  method RenameOrRestart(daemon: DockerDaemon, id: nat, backupName: string) returns (error: bool, undoFailures: nat)
    requires daemon.Valid() && id in daemon.containers
    modifies daemon
    ensures daemon.Valid() && daemon.next == old(daemon.next)
    ensures error <==> FateAt(old(daemon.script), 0) != Served || NameTaken(old(daemon.containers), backupName)
    ensures forall i: nat :: !error ==> FateAt(daemon.script, i) == FateAt(old(daemon.script), i + 1)
    ensures id in daemon.containers && daemon.containers == old(daemon.containers)[id := daemon.containers[id]]
    ensures var before, script := old(daemon.containers), old(daemon.script);
            daemon.containers[id] == before[id].(
              name := if Renames(before, script, backupName) then backupName else before[id].name,
              running := before[id].running || (error && FateAt(script, 1) != Refused))
    ensures undoFailures == 0 <==> !error || FateAt(old(daemon.script), 1) == Served
  {
    undoFailures := 0;
    error := daemon.Rename(id, backupName);
    if error {
      var e := daemon.SetRunning(id, true);
      undoFailures := if e then 1 else 0;
    }
  }

  lemma SameNames(before: Containers, after: Containers, name: string)
    requires before.Keys == after.Keys && forall c | c in before :: before[c].name == after[c].name
    ensures NameTaken(before, name) <==> NameTaken(after, name)
  {
    if c :| c in before && before[c].name == name {
      assert after[c].name == name;
    }
    if c :| c in after && after[c].name == name {
      assert before[c].name == name;
    }
  }

  /** The original after a failed first half whose restart, if any, succeeded. */
  function AfterStepAside(before: Containers, script: seq<Fate>, id: nat, backupName: string): Container
    requires id in before
  {
    match FateAt(script, 0)
    case Refused => before[id]
    case ReplyLost => before[id].(running := false)
    case Served =>
      if RenameUnseen(before, script, id, backupName) then before[id].(name := backupName, running := true)
      else before[id].(running := true)
  }

  /** Everything is as it was, or the original started, unless one of the two replies was lost. */
  lemma RestoredIff(before: Containers, script: seq<Fate>, id: nat, name: string, backup: string)
    requires id in before && before[id].name == name != backup
    requires FateAt(script, 0) != Served || FateAt(script, 1) != Served || !CanRename(before, id, backup)
    ensures var after := before[id := AfterStepAside(before, script, id, backup)];
            Restored(before, after, id) <==> !StopUnseen(before, script, id) && !RenameUnseen(before, script, id, backup)
  {
    var after := before[id := AfterStepAside(before, script, id, backup)];
    assert after[id] == AfterStepAside(before, script, id, backup);
    if after[id] == before[id] {
      assert after == before;
    }
  }

  /** From the renamed original on. */
  method SwapIn(daemon: DockerDaemon, id: nat, name: string, payload: Payload)
    returns (error: bool, undoFailures: nat)
    requires daemon.Valid() && id in daemon.containers
    modifies daemon
    ensures daemon.Valid()
    ensures Untouched(old(daemon.containers), daemon.containers, id)
    ensures OnlyReplacementNew(old(daemon.containers), daemon.containers, old(daemon.next), name, payload)
    ensures !error ==>
              && old(daemon.next) in daemon.containers
              && daemon.containers[old(daemon.next)] == Container(name, true, payload)
              && (id in daemon.containers ==> daemon.containers[id] == old(daemon.containers)[id])
    ensures error ==>
              && id in daemon.containers && daemon.containers[id].payload == old(daemon.containers)[id].payload
              && (daemon.containers[id].name == old(daemon.containers)[id].name || daemon.containers[id].name == name)
    ensures error && undoFailures == 0 ==>
              daemon.containers ==
              old(daemon.containers)[id := Container(name, true, old(daemon.containers)[id].payload)]
    ensures error <==> FateAt(old(daemon.script), 0) != Served || NameTaken(old(daemon.containers), name) ||
                       FateAt(old(daemon.script), 1) != Served
    ensures !error ==>
              && undoFailures == 0
              && daemon.containers == (if FateAt(old(daemon.script), 2) == Refused then old(daemon.containers)
                                       else old(daemon.containers) - {id})
                                      [old(daemon.next) := Container(name, true, payload)]
    ensures error && !NameTaken(old(daemon.containers), name) ==>
              var before, script := old(daemon.containers), old(daemon.script);
              && (old(daemon.next) in daemon.containers <==> LeavesReplacement(script))
              && (daemon.containers[id].name == name <==> NamesBack(script))
              && (daemon.containers[id].running <==> before[id].running || StartsAgain(script))
              && (undoFailures == 0 <==> UndoesAll(script))
  {
    var createError, newId;
    createError, newId, undoFailures := CreateReplacement(daemon, id, name, payload);
    if createError {
      return true, undoFailures;
    }

    ghost var before, added := old(daemon.containers), daemon.containers[newId];
    assert daemon.containers == before[newId := added];
    error, undoFailures := StartReplacement(daemon, newId, id, name, payload);
    if error && undoFailures == 0 {
      DropAdded(before, newId, added, id, daemon.containers[id]);
    }
  }

  /** Starts the replacement and removes the original, or drops the replacement. */
  method StartReplacement(daemon: DockerDaemon, newId: nat, id: nat, name: string, payload: Payload)
    returns (error: bool, undoFailures: nat)
    requires daemon.Valid() && id in daemon.containers && newId in daemon.containers && id != newId
    requires daemon.containers[newId] == Container(name, false, payload)
    modifies daemon
    ensures daemon.Valid()
    ensures error <==> FateAt(old(daemon.script), 0) != Served
    ensures !error ==>
              && undoFailures == 0
              && daemon.containers == (if FateAt(old(daemon.script), 1) == Refused then old(daemon.containers)
                                       else old(daemon.containers) - {id})[newId := Container(name, true, payload)]
    ensures error ==>
              var before, script := old(daemon.containers), old(daemon.script);
              && id in daemon.containers && daemon.containers[id].payload == before[id].payload
              && Untouched(before - {newId}, daemon.containers, id) && daemon.containers.Keys + {newId} == before.Keys
              && (daemon.containers[id].name == before[id].name || daemon.containers[id].name == name)
              && (newId in daemon.containers <==> FateAt(script, 1) == Refused)
              && (newId in daemon.containers ==>
                    daemon.containers[newId].name == name && daemon.containers[newId].payload == payload)
              && (daemon.containers[id].name == name <==> FateAt(script, 1) != Refused && FateAt(script, 2) != Refused)
              && (daemon.containers[id].running <==> before[id].running || FateAt(script, 3) != Refused)
              && (undoFailures == 0 <==> FateAt(script, 1) == FateAt(script, 2) == FateAt(script, 3) == Served)
    ensures error && undoFailures == 0 ==>
              daemon.containers ==
              (old(daemon.containers) - {newId})[id := Container(name, true, old(daemon.containers)[id].payload)]
  {
    undoFailures := 0;
    var startError := daemon.SetRunning(newId, true);
    if startError {
      assert daemon.containers - {newId} == old(daemon.containers) - {newId};
      undoFailures := DropReplacement(daemon, newId, id, name);
      return true, undoFailures;
    }
    var removeError := daemon.Remove(id);
    return false, undoFailures;
  }

  /** What becomes of a swap that fails after the rename, by the fates of its calls.  When the create is not answered
      as done, the calls after it are the rename back and the start of the original; when the start of the replacement
      is not, its removal comes before these. */
  predicate LeavesReplacement(script: seq<Fate>) {
    FateAt(script, 0) == ReplyLost || (FateAt(script, 0) == Served && FateAt(script, 2) == Refused)
  }

  predicate NamesBack(script: seq<Fate>) {
    if FateAt(script, 0) == Served then FateAt(script, 2) != Refused && FateAt(script, 3) != Refused
    else FateAt(script, 0) == Refused && FateAt(script, 1) != Refused
  }

  predicate StartsAgain(script: seq<Fate>) {
    FateAt(script, if FateAt(script, 0) == Served then 4 else 2) != Refused
  }

  predicate UndoesAll(script: seq<Fate>) {
    if FateAt(script, 0) == Served then FateAt(script, 2) == FateAt(script, 3) == FateAt(script, 4) == Served
    else FateAt(script, 0) == Refused && FateAt(script, 1) == FateAt(script, 2) == Served
  }

  lemma DropAdded(before: Containers, newId: nat, added: Container, id: nat, c: Container)
    requires newId !in before
    ensures (before[newId := added] - {newId})[id := c] == before[id := c]
  {
  }

  /** Creates the replacement, or restores the original.  A replacement created without an answer holds the name, so
      that the rename back fails. */
  method CreateReplacement(daemon: DockerDaemon, id: nat, name: string, payload: Payload)
    returns (error: bool, newId: nat, undoFailures: nat)
    requires daemon.Valid() && id in daemon.containers
    modifies daemon
    ensures daemon.Valid()
    ensures !error ==> newId == old(daemon.next) && newId != id && undoFailures == 0
    ensures !error ==> daemon.containers == old(daemon.containers)[newId := Container(name, false, payload)]
    ensures error ==>
              && id in daemon.containers && daemon.containers[id].payload == old(daemon.containers)[id].payload
              && (daemon.containers[id].name == old(daemon.containers)[id].name || daemon.containers[id].name == name)
              && (daemon.containers == old(daemon.containers)[id := daemon.containers[id]] ||
                  daemon.containers == old(daemon.containers)[old(daemon.next) := Container(name, false, payload)]
                                                             [id := daemon.containers[id]])
    ensures error && undoFailures == 0 ==>
              daemon.containers ==
              old(daemon.containers)[id := Container(name, true, old(daemon.containers)[id].payload)]
    ensures forall i: nat :: !error ==> FateAt(daemon.script, i) == FateAt(old(daemon.script), i + 1)
    ensures error <==> FateAt(old(daemon.script), 0) != Served || NameTaken(old(daemon.containers), name)
    ensures error ==>
              var before, script := old(daemon.containers), old(daemon.script);
              var free := !NameTaken(before, name);
              && (old(daemon.next) in daemon.containers <==> free && FateAt(script, 0) == ReplyLost)
              && (daemon.containers[id].name == name <==>
                  before[id].name == name || (free && FateAt(script, 0) == Refused && FateAt(script, 1) != Refused))
              && (daemon.containers[id].running <==> before[id].running || FateAt(script, 2) != Refused)
              && (undoFailures == 0 <==>
                  free && FateAt(script, 0) == Refused && FateAt(script, 1) == FateAt(script, 2) == Served)
  {
    undoFailures := 0;
    error, newId := daemon.Create(name, payload);
    if error {
      assert old(daemon.next) in daemon.containers ==> daemon.containers[old(daemon.next)].name == name;
      undoFailures := RestoreOriginal(daemon, id, name);
    }
  }

  /** The rollback of a replacement that does not start. */
  method DropReplacement(daemon: DockerDaemon, newId: nat, id: nat, name: string) returns (failures: nat)
    requires daemon.Valid() && id in daemon.containers && newId in daemon.containers && id != newId
    requires daemon.containers[newId].name == name
    modifies daemon
    ensures daemon.Valid()
    ensures id in daemon.containers && daemon.containers[id].payload == old(daemon.containers)[id].payload
    ensures daemon.containers[id].name == old(daemon.containers)[id].name || daemon.containers[id].name == name
    ensures daemon.containers == (if FateAt(old(daemon.script), 0) == Refused then old(daemon.containers)
                                  else old(daemon.containers) - {newId})[id := daemon.containers[id]]
    ensures failures == 0 ==>
              daemon.containers ==
              (old(daemon.containers) - {newId})[id := Container(name, true, old(daemon.containers)[id].payload)]
    ensures var before, script := old(daemon.containers), old(daemon.script);
            && (newId in daemon.containers <==> FateAt(script, 0) == Refused)
            && (daemon.containers[id].name == name <==> FateAt(script, 0) != Refused && FateAt(script, 1) != Refused)
            && (daemon.containers[id].running <==> before[id].running || FateAt(script, 2) != Refused)
            && (failures == 0 <==> FateAt(script, 0) == FateAt(script, 1) == FateAt(script, 2) == Served)
  {
    var removeError := daemon.Remove(newId);
    assert FateAt(old(daemon.script), 0) != Refused ==> !NameTaken(daemon.containers, name);
    assert FateAt(old(daemon.script), 0) == Refused ==> NameTaken(daemon.containers, name) by {
      assert FateAt(old(daemon.script), 0) == Refused ==> daemon.containers == old(daemon.containers);
    }
    failures := RestoreOriginal(daemon, id, name);
    failures := failures + if removeError then 1 else 0;
  }

  /** The next call, if it is to rename, takes effect. */
  predicate Renames(before: Containers, script: seq<Fate>, name: string) {
    FateAt(script, 0) != Refused && !NameTaken(before, name)
  }

  /** The common tail of both rollbacks: rename back, start. */
  method RestoreOriginal(daemon: DockerDaemon, id: nat, name: string) returns (failures: nat)
    requires daemon.Valid() && id in daemon.containers
    modifies daemon
    ensures daemon.Valid()
    ensures id in daemon.containers && daemon.containers == old(daemon.containers)[id := daemon.containers[id]]
    ensures daemon.containers[id].payload == old(daemon.containers)[id].payload
    ensures daemon.containers[id].name == old(daemon.containers)[id].name || daemon.containers[id].name == name
    ensures daemon.containers[id].name == name <==>
            old(daemon.containers)[id].name == name || Renames(old(daemon.containers), old(daemon.script), name)
    ensures daemon.containers[id].running <==>
            old(daemon.containers)[id].running || FateAt(old(daemon.script), 1) != Refused
    ensures failures == 0 <==> FateAt(old(daemon.script), 0) == FateAt(old(daemon.script), 1) == Served &&
                               !NameTaken(old(daemon.containers), name)
  {
    var renameError := daemon.Rename(id, name);
    var startError := daemon.SetRunning(id, true);
    failures := (if renameError then 1 else 0) + (if startError then 1 else 0);
  }
}
