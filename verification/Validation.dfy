/** Validation of a parsed service graph. */
module Validation {
  import opened Topology

  datatype Problem = RequestToUndefinedService(name: string) | NestedConcurrentCommand

  predicate ContainsConcurrent(cmds: seq<Command>) {
    exists i :: 0 <= i < |cmds| && cmds[i].ConcurrentCommand?
  }

  /**
   The reference: every problem of a script, in depth-first order. The nesting problem of a group
   comes after the problems of its members.
   */
  function Problems(cmds: Script, names: set<string>): seq<Problem>
    decreases cmds
  {
    if cmds == [] then [] else ProblemsOf(cmds[0], names) + Problems(cmds[1..], names)
  }

  function ProblemsOf(cmd: Command, names: set<string>): seq<Problem>
    decreases cmd
  {
    match cmd
    case SleepCommand(_) => []
    case RequestCommand(name, _) => if name in names then [] else [RequestToUndefinedService(name)]
    case ConcurrentCommand(members) =>
      Problems(members, names) + if ContainsConcurrent(members) then [NestedConcurrentCommand] else []
  }

  function GraphProblems(services: seq<Service>, names: set<string>): seq<Problem> {
    if services == [] then [] else Problems(services[0].script, names) + GraphProblems(services[1..], names)
  }

  function Names(services: seq<Service>): set<string> {
    set s <- services :: s.name
  }

  function First(problems: seq<Problem>): Option<Problem> {
    if problems == [] then None else Some(problems[0])
  }

  method Validate(services: seq<Service>) returns (problem: Option<Problem>)
    ensures problem == First(GraphProblems(services, Names(services)))
    ensures Reports(services, problem)
  {
    var names := {};
    for i := 0 to |services|
      invariant names == Names(services[..i])
    {
      names := names + {services[i].name};
      assert services[..i + 1] == services[..i] + [services[i]];
    }
    assert services[..|services|] == services;
    problem := ValidateScripts(services, names);
    ReportIsRight(services);
  }

  /** The second loop of validate. */
  method ValidateScripts(services: seq<Service>, names: set<string>) returns (problem: Option<Problem>)
    ensures problem == First(GraphProblems(services, names))
  {
    for i := 0 to |services|
      invariant First(GraphProblems(services, names)) == First(GraphProblems(services[i..], names))
    {
      assert services[i..][1..] == services[i + 1..];
      problem := ValidateCommands(services[i].script, names);
      if problem.Some? {
        return;
      }
    }
    return None;
  }

  method ValidateCommands(cmds: Script, names: set<string>) returns (problem: Option<Problem>)
    ensures problem == First(Problems(cmds, names))
    ensures ScriptReports(cmds, names, problem)
    decreases cmds
  {
    ScriptReportIsRight(cmds, names);
    for i := 0 to |cmds|
      invariant First(Problems(cmds, names)) == First(Problems(cmds[i..], names))
    {
      assert cmds[i..][1..] == cmds[i + 1..];
      match cmds[i] {
        case SleepCommand(_) =>
        case RequestCommand(name, _) =>
          if name !in names {
            return Some(RequestToUndefinedService(name));
          }
        case ConcurrentCommand(members) =>
          problem := ValidateCommands(members, names);
          if problem.Some? {
            return;
          }
          var nested := ContainsConcurrentCommand(members);
          if nested {
            return Some(NestedConcurrentCommand);
          }
      }
    }
    return None;
  }

  method ContainsConcurrentCommand(cmds: seq<Command>) returns (found: bool)
    ensures found <==> ContainsConcurrent(cmds)
  {
    for i := 0 to |cmds|
      invariant forall k | 0 <= k < i :: !cmds[k].ConcurrentCommand?
    {
      if cmds[i].ConcurrentCommand? {
        return true;
      }
    }
    return false;
  }

  // ---------------------------------------------------------------- which problem is reported

  /** The command at a position: the index in a list, then the indices in the groups on the way down. */
  function NodeAt(cmd: Command, path: seq<nat>): Option<Command>
    decreases |path|
  {
    if path == [] then Some(cmd)
    else if cmd.ConcurrentCommand? && path[0] < |cmd.members| then NodeAt(cmd.members[path[0]], path[1..])
    else None
  }

  function CommandAt(cmds: Script, path: seq<nat>): Option<Command> {
    if path == [] || path[0] >= |cmds| then None else NodeAt(cmds[path[0]], path[1..])
  }

  /** The command at `a` ends before the one at `b` does: it lies inside it, or to its left. */
  predicate EndsBefore(a: seq<nat>, b: seq<nat>)
    decreases |a|
  {
    if a == [] then false
    else if b == [] then true
    else if a[0] == b[0] then EndsBefore(a[1..], b[1..])
    else a[0] < b[0]
  }

  /** What is wrong with a command by itself. */
  predicate IsProblem(cmd: Command, names: set<string>, problem: Problem) {
    match problem
    case RequestToUndefinedService(n) => cmd.RequestCommand? && cmd.serviceName == n && n !in names
    case NestedConcurrentCommand =>
      cmd.ConcurrentCommand? && exists i :: 0 <= i < |cmd.members| && cmd.members[i].ConcurrentCommand?
  }

  predicate IsBad(cmd: Command, names: set<string>) {
    IsProblem(cmd, names, NestedConcurrentCommand) ||
    (cmd.RequestCommand? && IsProblem(cmd, names, RequestToUndefinedService(cmd.serviceName)))
  }

  ghost predicate BadNode(cmd: Command, names: set<string>, path: seq<nat>) {
    NodeAt(cmd, path).Some? && IsBad(NodeAt(cmd, path).value, names)
  }

  ghost predicate BadAt(cmds: Script, names: set<string>, path: seq<nat>) {
    CommandAt(cmds, path).Some? && IsBad(CommandAt(cmds, path).value, names)
  }

  /** The problem of the command at `path` of service `i`, and no bad command ends earlier in the graph. */
  ghost predicate FirstBad(services: seq<Service>, names: set<string>, i: nat, path: seq<nat>, problem: Problem) {
    && i < |services|
    && FirstBadIn(services[i].script, names, path, problem)
    && (forall k: nat, other | k < i :: !BadAt(services[k].script, names, other))
  }

  /**
   What a report means, by positions alone: nothing is reported if and only if no command is bad, and
   a reported problem is that of the bad command that ends first.
   */
  ghost predicate Reports(services: seq<Service>, report: Option<Problem>) {
    match report
    case None => forall i: nat, path | i < |services| :: !BadAt(services[i].script, Names(services), path)
    case Some(problem) => exists i, path :: FirstBad(services, Names(services), i, path, problem)
  }

  /** The same for one script. */
  ghost predicate ScriptReports(cmds: Script, names: set<string>, report: Option<Problem>) {
    match report
    case None => forall path :: !BadAt(cmds, names, path)
    case Some(problem) => exists path :: FirstBadIn(cmds, names, path, problem)
  }

  ghost predicate FirstBadIn(cmds: Script, names: set<string>, path: seq<nat>, problem: Problem) {
    && BadAt(cmds, names, path)
    && IsProblem(CommandAt(cmds, path).value, names, problem)
    && forall other | BadAt(cmds, names, other) :: !EndsBefore(other, path)
  }

  lemma {:induction false} NoBadNode(cmd: Command, names: set<string>, path: seq<nat>)
    requires ProblemsOf(cmd, names) == []
    ensures !BadNode(cmd, names, path)
    decreases cmd
  {
    if path != [] && cmd.ConcurrentCommand? && path[0] < |cmd.members| {
      NoBadIn(cmd.members, 0, names, path);
      assert cmd.members[0..] == cmd.members;
    }
  }

  lemma {:induction false} NoBadIn(cmds: Script, k: nat, names: set<string>, path: seq<nat>)
    requires k <= |cmds| && Problems(cmds[k..], names) == [] && path != [] && path[0] >= k
    ensures !BadAt(cmds, names, path)
    decreases cmds, |cmds| - k
  {
    if k < |cmds| {
      assert cmds[k..][1..] == cmds[k + 1..];
      if path[0] == k {
        NoBadNode(cmds[k], names, path[1..]);
      } else {
        NoBadIn(cmds, k + 1, names, path);
      }
    }
  }

  lemma {:induction false} FirstNode(cmd: Command, names: set<string>) returns (path: seq<nat>)
    requires ProblemsOf(cmd, names) != []
    ensures BadNode(cmd, names, path) && IsProblem(NodeAt(cmd, path).value, names, ProblemsOf(cmd, names)[0])
    ensures forall other | BadNode(cmd, names, other) :: !EndsBefore(other, path)
    decreases cmd
  {
    path := [];
    if cmd.ConcurrentCommand? {
      assert cmd.members[0..] == cmd.members;
      if Problems(cmd.members, names) != [] {
        path := FirstIn(cmd.members, 0, names);
        forall other | BadNode(cmd, names, other) ensures !EndsBefore(other, path) {
          assert other != [] ==> BadAt(cmd.members, names, other);
        }
      } else {
        forall other | BadNode(cmd, names, other) ensures !EndsBefore(other, path) {
          if other != [] {
            NoBadIn(cmd.members, 0, names, other);
          }
        }
      }
    }
  }

  lemma {:induction false} FirstIn(cmds: Script, k: nat, names: set<string>) returns (path: seq<nat>)
    requires k <= |cmds| && Problems(cmds[k..], names) != []
    ensures path != [] && path[0] >= k && BadAt(cmds, names, path)
    ensures IsProblem(CommandAt(cmds, path).value, names, Problems(cmds[k..], names)[0])
    ensures forall other | other != [] && other[0] >= k && BadAt(cmds, names, other) :: !EndsBefore(other, path)
    decreases cmds, |cmds| - k
  {
    assert cmds[k..][1..] == cmds[k + 1..];
    if ProblemsOf(cmds[k], names) != [] {
      var inner := FirstNode(cmds[k], names);
      path := [k] + inner;
      assert path[1..] == inner;
      forall other | other != [] && other[0] >= k && BadAt(cmds, names, other) ensures !EndsBefore(other, path) {
        assert other[0] == k ==> BadNode(cmds[k], names, other[1..]);
      }
    } else {
      path := FirstIn(cmds, k + 1, names);
      forall other | other != [] && other[0] >= k && BadAt(cmds, names, other) ensures !EndsBefore(other, path) {
        if other[0] == k {
          NoBadNode(cmds[k], names, other[1..]);
        }
      }
    }
  }

  lemma ScriptReportIsRight(cmds: Script, names: set<string>)
    ensures ScriptReports(cmds, names, First(Problems(cmds, names)))
  {
    assert cmds[0..] == cmds;
    if Problems(cmds, names) == [] {
      forall path ensures !BadAt(cmds, names, path) {
        if path != [] {
          NoBadIn(cmds, 0, names, path);
        }
      }
    } else {
      var path := FirstIn(cmds, 0, names);
      assert FirstBadIn(cmds, names, path, Problems(cmds, names)[0]);
    }
  }

  lemma {:induction false} FirstInGraph(services: seq<Service>, k: nat, names: set<string>)
    returns (i: nat, path: seq<nat>)
    requires k <= |services| && GraphProblems(services[k..], names) != []
    requires forall l: nat, other | l < k :: !BadAt(services[l].script, names, other)
    ensures FirstBad(services, names, i, path, GraphProblems(services[k..], names)[0])
    decreases |services| - k
  {
    assert services[k..][1..] == services[k + 1..];
    var script := services[k].script;
    ScriptReportIsRight(script, names);
    if Problems(script, names) != [] {
      i := k;
      path :| FirstBadIn(script, names, path, Problems(script, names)[0]);
    } else {
      i, path := FirstInGraph(services, k + 1, names);
    }
  }

  lemma {:induction false} NoBadInGraph(services: seq<Service>, names: set<string>, i: nat, path: seq<nat>)
    requires GraphProblems(services, names) == [] && i < |services|
    ensures !BadAt(services[i].script, names, path)
  {
    if i > 0 {
      NoBadInGraph(services[1..], names, i - 1, path);
    } else {
      ScriptReportIsRight(services[0].script, names);
    }
  }

  /** Validation reports the problem of the bad command that ends first, and nothing if there is none. */
  lemma ReportIsRight(services: seq<Service>)
    ensures Reports(services, First(GraphProblems(services, Names(services))))
  {
    var names := Names(services);
    if GraphProblems(services, names) == [] {
      forall i: nat, path | i < |services| ensures !BadAt(services[i].script, names, path) {
        NoBadInGraph(services, names, i, path);
      }
    } else {
      assert services[0..] == services;
      var i, path := FirstInGraph(services, 0, names);
    }
  }

  // ---------------------------------------------------------------- what validity means

  predicate FlatCommand(cmd: Command) {
    cmd.ConcurrentCommand? ==> !ContainsConcurrent(cmd.members)
  }

  /** No concurrent group of the script contains another one. */
  predicate Flat(cmds: Script) {
    forall i | 0 <= i < |cmds| :: FlatCommand(cmds[i])
  }

  predicate CallsIn(cmds: Script, names: set<string>) {
    forall c <- Calls(cmds) :: c.serviceName in names
  }

  lemma {:induction false} NoProblemsMeans(cmds: Script, names: set<string>)
    ensures Problems(cmds, names) == [] <==> CallsIn(cmds, names) && Flat(cmds)
    decreases cmds
  {
    if cmds != [] {
      NoProblemOfMeans(cmds[0], names);
      NoProblemsMeans(cmds[1..], names);
      assert Calls(cmds) == CallsOf(cmds[0]) + Calls(cmds[1..]);
      assert CallsIn(cmds, names) <==>
             (forall c <- CallsOf(cmds[0]) :: c.serviceName in names) && CallsIn(cmds[1..], names);
      assert Flat(cmds) <==> FlatCommand(cmds[0]) && Flat(cmds[1..]) by {
        assert forall i | 0 < i < |cmds| :: cmds[i] == cmds[1..][i - 1];
        if Flat(cmds) {
          forall i | 0 <= i < |cmds[1..]| ensures FlatCommand(cmds[1..][i]) {
            assert cmds[1..][i] == cmds[i + 1];
          }
        }
      }
    }
  }

  lemma {:induction false} NoProblemOfMeans(cmd: Command, names: set<string>)
    ensures ProblemsOf(cmd, names) == [] <==> (forall c <- CallsOf(cmd) :: c.serviceName in names) && FlatCommand(cmd)
    decreases cmd
  {
    match cmd
    case SleepCommand(_) =>
    case RequestCommand(_, _) =>
    case ConcurrentCommand(members) =>
      NoProblemsMeans(members, names);
      if !ContainsConcurrent(members) {
        assert Flat(members);
      }
  }

  /** Every service of the graph is fine on its own. */
  predicate Valid(services: seq<Service>) {
    forall s <- services :: CallsIn(s.script, Names(services)) && Flat(s.script)
  }

  lemma {:induction false} NoGraphProblemsMeans(services: seq<Service>, names: set<string>)
    ensures GraphProblems(services, names) == [] <==> forall s <- services :: CallsIn(s.script, names) && Flat(s.script)
  {
    if services != [] {
      NoProblemsMeans(services[0].script, names);
      NoGraphProblemsMeans(services[1..], names);
      assert services == [services[0]] + services[1..];
    }
  }

  /**
   Validation is exact: it accepts a graph if and only if every call, at any depth, names a defined
   service and no concurrent group contains another.
   */
  lemma ValidationIsExact(services: seq<Service>)
    ensures First(GraphProblems(services, Names(services))) == None <==> Valid(services)
  {
    NoGraphProblemsMeans(services, Names(services));
  }
}
