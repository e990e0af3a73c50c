/**
 The reference meaning of a script: a sequential recursive evaluation, independent of any schedule.
 `depth` bounds the nesting of calls, so that the evaluation is defined on cyclic graphs too; the
 predicate `p` selects which events are counted.
 */
module Evaluation {
  import opened Topology
  import opened Execution

  /** `work` bounds the number of machine steps that the evaluated activity can take. */
  datatype Out = Diverges | Out(ok: bool, count: nat, work: nat)

  function One(e: Event, p: Event -> bool): nat {
    if p(e) then 1 else 0
  }

  /** The selection of one single event. */
  function Exactly(x: Event): Event -> bool {
    (e: Event) => e == x
  }

  function Tally(e: Option<Event>, p: Event -> bool): nat {
    if e.Some? then One(e.value, p) else 0
  }

  function Count(log: seq<Event>, p: Event -> bool): nat {
    if log == [] then 0 else Count(log[..|log| - 1], p) + One(log[|log| - 1], p)
  }

  function Both(a: Out, b: Out): Out {
    if a.Diverges? || b.Diverges? then Diverges else Out(a.ok && b.ok, a.count + b.count, a.work + b.work)
  }

  function Plus(a: Out, count: nat, work: nat): Out {
    if a.Diverges? then Diverges else Out(a.ok, a.count + count, a.work + work)
  }

  /** What the caller makes of the callee's answer. */
  function Answered(env: Env, path: Path, caller: string, dest: string, size: nat, callee: Out, p: Event -> bool): Out {
    if callee.Diverges? then Diverges
    else if env.fault(path).ResponseLost? then
      Out(false, callee.count + One(Broken(path, dest, true), p), callee.work + 1)
    else
      Out(callee.ok, callee.count + One(Sent(path, caller, dest, size), p), callee.work + 1)
  }

  function EvalCommand(env: Env, depth: nat, path: Path, caller: string, h: Header, cmd: Command, p: Event -> bool): Out
    decreases depth, 1, cmd, 0
  {
    match cmd
    case SleepCommand(_) => Out(true, 0, 1)
    case RequestCommand(dest, size) =>
      if dest !in env.scripts then Out(false, One(Unresolved(path, dest), p), 1)
      else if env.fault(path).Undelivered? then Out(false, One(Broken(path, dest, false), p), 1)
      else if depth == 0 then Diverges
      else
        var callee := EvalHandler(env, depth - 1, path, dest, h + env.added(path), p);
        Plus(Answered(env, path, caller, dest, size, callee, p), 0, 1)
    case ConcurrentCommand(members) =>
      Plus(EvalMembers(env, depth, path, caller, h, members, 0, p), 0, 6 * |members| + 2)
  }

  /** Members `k..` of a group: all of them run, whatever the others return. */
  function EvalMembers(env: Env, depth: nat, path: Path, caller: string, h: Header, cmds: seq<Command>, k: nat,
                       p: Event -> bool): Out
    requires k <= |cmds|
    decreases depth, 1, cmds, |cmds| - k
  {
    if k == |cmds| then Out(true, 0, 0)
    else Both(EvalCommand(env, depth, path + [k], caller, h, cmds[k], p),
              EvalMembers(env, depth, path, caller, h, cmds, k + 1, p))
  }

  /** The script from step `pc` on: the first failing step ends it. */
  function EvalSteps(env: Env, depth: nat, path: Path, service: string, header: Header, pc: nat, p: Event -> bool): Out
    requires pc <= |ScriptOf(env, service)|
    decreases depth, 2, |ScriptOf(env, service)| - pc
  {
    var script := ScriptOf(env, service);
    if pc == |script| then Out(true, One(Responded(path, service, 200), p), 1)
    else
      Plus(AfterStep(env, depth, path, service, header, pc,
                     EvalCommand(env, depth, path + [pc], service, Forward(header), script[pc], p), p),
           0, 1)
  }

  function AfterStep(env: Env, depth: nat, path: Path, service: string, header: Header, pc: nat, step: Out,
                     p: Event -> bool): Out
    requires pc < |ScriptOf(env, service)|
    decreases depth, 2, |ScriptOf(env, service)| - pc, 0
  {
    if step.Diverges? then Diverges
    else if !step.ok then Out(false, step.count + One(Responded(path, service, 500), p), step.work + 1)
    else Plus(EvalSteps(env, depth, path, service, header, pc + 1, p), step.count, step.work + 1)
  }

  /** One request served by `service`, from its arrival to the response. */
  function EvalHandler(env: Env, depth: nat, path: Path, service: string, header: Header, p: Event -> bool): Out
    decreases depth, 3
  {
    Plus(EvalSteps(env, depth, path, service, header, 0, p), One(Received(path, service, header), p), 1)
  }

  // ---------------------------------------------------------------- what is left of a machine state

  function PhaseWork(ph: ErrorJoin.Phase<Failure>): nat {
    match ph
    case Running => 6
    case SawPointer(_) => 5
    case SawNil => 4
    case SawList(_, _) => 4
    case Publishing(_) => 3
    case Leaving => 2
    case Finished => 0
  }

  function JoinWork(phases: seq<ErrorJoin.Phase<Failure>>): nat {
    if phases == [] then 0 else PhaseWork(phases[0]) + JoinWork(phases[1..])
  }

  function RestOfTask(env: Env, depth: nat, path: Path, caller: string, h: Header, t: Task, p: Event -> bool): Out
    decreases t, 0
  {
    match t
    case Ready(cmd) => EvalCommand(env, depth, path, caller, h, cmd, p)
    case Waiting(dest, size, callee) =>
      if depth == 0 then Diverges
      else Answered(env, path, caller, dest, size, RestOfFrame(env, depth - 1, path, callee, p), p)
    case Joining(members, join) =>
      Plus(RestOfMembers(env, depth, path, caller, h, members, 0, p), 0, JoinWork(join.phases) + 1)
    case Done(err) => Out(err == [], 0, 0)
  }

  function RestOfMembers(env: Env, depth: nat, path: Path, caller: string, h: Header, members: seq<Task>, k: nat,
                         p: Event -> bool): Out
    requires k <= |members|
    decreases members, |members| - k
  {
    if k == |members| then Out(true, 0, 0)
    else Both(RestOfTask(env, depth, path + [k], caller, h, members[k], p),
              RestOfMembers(env, depth, path, caller, h, members, k + 1, p))
  }

  function RestOfFrame(env: Env, depth: nat, path: Path, fr: Frame, p: Event -> bool): Out
    decreases fr, 0
  {
    match fr
    case Queued(service, header) => EvalHandler(env, depth, path, service, header, p)
    case Looping(service, header, pc) =>
      if pc <= |ScriptOf(env, service)| then EvalSteps(env, depth, path, service, header, pc, p) else Diverges
    case Executing(service, header, pc, task) =>
      if pc < |ScriptOf(env, service)| then
        AfterStep(env, depth, path, service, header, pc,
                  RestOfTask(env, depth, path + [pc], service, Forward(header), task, p), p)
      else Diverges
    case Replied(_, code) => Out(code == 200, 0, 0)
  }
}
