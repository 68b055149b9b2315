/** The OBI selectors of a workload, derived from what an event said about it. */
module Patterns {
  import opened Text
  import Words

  datatype Mode = Kubernetes | Docker | Linux

  /** What an event says about a workload. */
  datatype Observation = Observation(name: string, runtime: string, deployment: string, pid: int, exePath: string,
                                     cmdline: string, attrs: map<string, string>)

  datatype Pattern = Pattern(serviceId: string, exePath: string, cmdArgs: string, targetPids: seq<int>,
                             containersOnly: bool, namespace: string, pod: string, deployment: string,
                             daemonSet: string, statefulSet: string)

  function Attr(attrs: map<string, string>, key: string): string {
    if key in attrs then attrs[key] else ""
  }

  function DropSlashes(path: string): string {
    if path != "" && path[|path| - 1] == '/' then DropSlashes(path[..|path| - 1]) else path
  }

  function AfterLastSlash(path: string): string {
    if path == "" || path[|path| - 1] == '/' then "" else AfterLastSlash(path[..|path| - 1]) + [path[|path| - 1]]
  }

  /** filepath.Base. */
  function BaseName(path: string): string {
    if path == "" then "."
    else if DropSlashes(path) == "" then "/"
    else AfterLastSlash(DropSlashes(path))
  }

  function FirstOperand(args: seq<string>): string {
    if args == [] then ""
    else if args[0] == "" || args[0][0] != '-' then BaseName(args[0])
    else FirstOperand(args[1..])
  }

  /** extractScriptArg: the base name of the first argument that is no flag. */
  function ScriptArg(cmdline: string): string {
    var parts := Words.WordsOf(cmdline, IsSpace);
    if |parts| < 2 then "" else FirstOperand(parts[1..])
  }

  lemma {:induction false} FirstOperandSkips(args: seq<string>, i: nat)
    requires i <= |args| && forall k | 0 <= k < i :: args[k] != "" && args[k][0] == '-'
    ensures FirstOperand(args) == FirstOperand(args[i..])
  {
    if i == 0 {
      assert args[0..] == args;
    } else {
      FirstOperandSkips(args[1..], i - 1);
      assert args[1..][i - 1..] == args[i..];
    }
  }

  /** extractScriptArg as it runs. */
  method ExtractScriptArg(cmdline: string) returns (script: string)
    ensures script == ScriptArg(cmdline)
  {
    var parts := Words.WordsOf(cmdline, IsSpace);
    if |parts| < 2 {
      return "";
    }
    var args := parts[1..];
    for i := 0 to |args|
      invariant forall k | 0 <= k < i :: args[k] != "" && args[k][0] == '-'
    {
      FirstOperandSkips(args, i);
      if args[i] == "" || args[i][0] != '-' {
        return BaseName(args[i]);
      }
    }
    FirstOperandSkips(args, |args|);
    return "";
  }

  /** instrumentPatternEqual decides equality. */
  method InstrumentPatternEqual(a: Pattern, b: Pattern) returns (equal: bool)
    ensures equal <==> a == b
  {
    if a.serviceId != b.serviceId || a.exePath != b.exePath || a.cmdArgs != b.cmdArgs
       || a.containersOnly != b.containersOnly || a.namespace != b.namespace || a.pod != b.pod
       || a.deployment != b.deployment || a.daemonSet != b.daemonSet || a.statefulSet != b.statefulSet
       || |a.targetPids| != |b.targetPids|
    {
      return false;
    }
    for i := 0 to |a.targetPids|
      invariant forall k | 0 <= k < i :: a.targetPids[k] == b.targetPids[k]
    {
      if a.targetPids[i] != b.targetPids[i] {
        return false;
      }
    }
    return true;
  }

  /** The selectors by executable and command line, for a workload without a better identity. */
  function ByExecutable(p: Pattern, o: Observation): Pattern {
    var runtime := Lower(o.runtime);
    var exe :=
      if Contains(runtime, "python") then "*python*"
      else if Contains(runtime, "node") then "*node*"
      else if Contains(runtime, "java") then "*java*"
      else if Contains(runtime, "ruby") then "*ruby*"
      else if o.exePath != "" then "*" + BaseName(o.exePath) + "*"
      else "";
    var script := ScriptArg(o.cmdline);
    p.(exePath := exe, cmdArgs := if script != "" then "*" + script + "*" else "")
  }

  const NO_PATTERN := Pattern("", "", "", [], false, "", "", "", "", "")

  function DerivePattern(id: string, o: Observation, mode: Mode): Pattern {
    var p := NO_PATTERN.(serviceId := id);
    match mode
    case Kubernetes =>
      var kind := Attr(o.attrs, "k8s.workload.kind");
      var q := p.(namespace := Attr(o.attrs, "k8s.namespace.name"));
      var k :=
        if o.deployment == "" then q.(pod := Attr(o.attrs, "k8s.pod.name"))
        else if kind == "DaemonSet" then q.(daemonSet := o.deployment)
        else if kind == "StatefulSet" then q.(statefulSet := o.deployment)
        else q.(deployment := o.deployment);
      if k.namespace != "" && (k.deployment != "" || k.daemonSet != "" || k.statefulSet != "" || k.pod != "")
      then k else ByExecutable(k, o)
    case Docker =>
      var q := p.(containersOnly := true);
      if o.pid > 0 then q.(targetPids := [o.pid]) else ByExecutable(q, o)
    case Linux =>
      if o.pid > 0 then p.(targetPids := [o.pid]) else ByExecutable(p, o)
  }

  /** A pattern that names processes or one Kubernetes workload. */
  predicate Identifies(p: Pattern) {
    || p.targetPids != []
    || (p.namespace != "" && (p.deployment != "" || p.daemonSet != "" || p.statefulSet != "" || p.pod != ""))
  }

  /** A derived pattern selects by executable and command line exactly when the event identifies nothing better, never
      by two kinds of workload at once, and only containers exactly under Docker. */
  lemma DerivedSelectors(id: string, o: Observation, mode: Mode)
    ensures var p := DerivePattern(id, o, mode);
            && p.serviceId == id && (p.containersOnly <==> mode == Docker)
            && (if Identifies(p) then p.exePath == "" && p.cmdArgs == ""
                else p.exePath == ByExecutable(NO_PATTERN, o).exePath &&
                     p.cmdArgs == ByExecutable(NO_PATTERN, o).cmdArgs)
            && p.targetPids == (if mode != Kubernetes && o.pid > 0 then [o.pid] else [])
            && (p.pod != "" ==> o.deployment == "")
            && (p.pod != "" ==> p.deployment == p.daemonSet == p.statefulSet == "")
            && (p.deployment != "" ==> p.daemonSet == p.statefulSet == "")
            && (p.daemonSet != "" ==> p.statefulSet == "")
  {
  }

  /** A workload of Kubernetes with a namespace is selected by that and by its owner, under the kind it has, or by its
      pod if it has none. */
  lemma DerivedOwner(id: string, o: Observation)
    requires "k8s.namespace.name" in o.attrs && o.attrs["k8s.namespace.name"] != ""
    ensures var p, ns := DerivePattern(id, o, Kubernetes), o.attrs["k8s.namespace.name"];
            var kind := if "k8s.workload.kind" in o.attrs then o.attrs["k8s.workload.kind"] else "";
            if o.deployment == "" then
              "k8s.pod.name" in o.attrs && o.attrs["k8s.pod.name"] != "" ==>
                p == Pattern(id, "", "", [], false, ns, o.attrs["k8s.pod.name"], "", "", "")
            else
              match kind
              case "DaemonSet" => p == Pattern(id, "", "", [], false, ns, "", "", o.deployment, "")
              case "StatefulSet" => p == Pattern(id, "", "", [], false, ns, "", "", "", o.deployment)
              case _ => p == Pattern(id, "", "", [], false, ns, "", o.deployment, "", "")
  {
  }

  /** Elsewhere a known process is selected by its pid alone. */
  lemma DerivedProcess(id: string, o: Observation, mode: Mode)
    requires mode != Kubernetes && o.pid > 0
    ensures DerivePattern(id, o, mode) == Pattern(id, "", "", [o.pid], mode == Docker, "", "", "", "", "")
  {
  }

  /** What is left is selected by the runtime's interpreter, or else the executable, and by the script it runs. */
  lemma DerivedExecutable(id: string, o: Observation, mode: Mode)
    requires !Identifies(DerivePattern(id, o, mode))
    ensures var p, runtime := DerivePattern(id, o, mode), Lower(o.runtime);
            && (Contains(runtime, "python") ==> p.exePath == "*python*")
            && (!Contains(runtime, "python") && Contains(runtime, "node") ==> p.exePath == "*node*")
            && (!Contains(runtime, "python") && !Contains(runtime, "node") && Contains(runtime, "java") ==>
                  p.exePath == "*java*")
            && (!Contains(runtime, "python") && !Contains(runtime, "node") && !Contains(runtime, "java") ==>
                  if Contains(runtime, "ruby") then p.exePath == "*ruby*"
                  else p.exePath == if o.exePath != "" then "*" + BaseName(o.exePath) + "*" else "")
            && p.cmdArgs == if ScriptArg(o.cmdline) != "" then "*" + ScriptArg(o.cmdline) + "*" else ""
  {
  }

  lemma {:induction false} AfterLastSlashOf(dir: string, name: string)
    requires '/' !in name && (dir == "" || dir[|dir| - 1] == '/')
    ensures AfterLastSlash(dir + name) == name
  {
    if name == "" {
      assert dir + name == dir;
    } else {
      assert (dir + name)[..|dir + name| - 1] == dir + name[..|name| - 1];
      AfterLastSlashOf(dir, name[..|name| - 1]);
    }
  }

  predicate OnlySlashes(s: string) {
    forall i | 0 <= i < |s| :: s[i] == '/'
  }

  lemma {:induction false} DropSlashesOf(path: string, end: string)
    requires OnlySlashes(end) && (path == "" || path[|path| - 1] != '/')
    ensures DropSlashes(path + end) == path
  {
    if end == "" {
      assert path + end == path;
    } else {
      assert (path + end)[..|path + end| - 1] == path + end[..|end| - 1];
      DropSlashesOf(path, end[..|end| - 1]);
    }
  }

  /** The base name of a path is its last element, whatever slashes follow. */
  lemma BaseNameOf(dir: string, name: string, end: string)
    requires name != "" && '/' !in name && OnlySlashes(end) && (dir == "" || dir[|dir| - 1] == '/')
    ensures BaseName(dir + name + end) == name
  {
    assert (dir + name)[|dir + name| - 1] == name[|name| - 1];
    DropSlashesOf(dir + name, end);
    AfterLastSlashOf(dir, name);
  }

  predicate IsFlag(arg: string) {
    arg != "" && arg[0] == '-'
  }

  /** The script is the base name of the first word after the command that is no flag. */
  lemma ScriptArgIs(cmdline: string, i: nat)
    requires 1 <= i <= |Words.WordsOf(cmdline, IsSpace)|
    requires forall k | 1 <= k < i :: IsFlag(Words.WordsOf(cmdline, IsSpace)[k])
    ensures var words := Words.WordsOf(cmdline, IsSpace);
            && (i < |words| && !IsFlag(words[i]) ==> ScriptArg(cmdline) == BaseName(words[i]))
            && (i == |words| ==> ScriptArg(cmdline) == "")
  {
    var words := Words.WordsOf(cmdline, IsSpace);
    if |words| >= 2 {
      var args := words[1..];
      assert forall k | 0 <= k < i - 1 :: args[k] == words[k + 1];
      FirstOperandSkips(args, i - 1);
    }
  }
}
