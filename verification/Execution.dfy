/**
 The distributed script executor as a small-step machine. Every request is a handler frame that
 walks the script of its service; a call step opens a frame at the called service; a concurrent
 group forks one task per member and joins them through ErrorJoin. The state of all pods is the
 call tree; a scheduler choice names, group by group, the member that moves.
 */
module Execution {
  import opened Topology
  import ErrorJoin

  type Path = seq<nat>
  type Header = map<string, seq<string>>

  /** How the transport treats one call. A lost response surfaces after the callee answered. */
  datatype Fault = Reliable | Undelivered | ResponseLost

  /** `scripts` maps every defined service to its script; `added` is what the transport adds. */
  datatype Env = Env(scripts: map<string, Script>, fault: Path -> Fault, added: Path -> Header)

  datatype Failure = NoSuchService(dest: string) | TransportError(dest: string) | InternalError(dest: string)

  /** The log holds what the metrics count, and the two ways a call ends without an answer. */
  datatype Event =
    | Received(path: Path, service: string, header: Header)
    | Sent(path: Path, caller: string, dest: string, size: nat)
    | Responded(path: Path, service: string, code: int)
    | Broken(path: Path, dest: string, delivered: bool)
    | Unresolved(path: Path, dest: string)

  datatype Task =
    | Ready(cmd: Command)
    | Waiting(dest: string, size: nat, callee: Frame)
    | Joining(members: seq<Task>, join: ErrorJoin.Join<Failure>)
    | Done(err: seq<Failure>)                    // the nil error is the empty sequence

  datatype Frame =
    | Queued(service: string, header: Header)
    | Looping(service: string, header: Header, pc: nat)
    | Executing(service: string, header: Header, pc: nat, task: Task)
    | Replied(service: string, code: int)

  datatype State = State(root: Frame, log: seq<Event>)

  const FORWARDABLE: set<string> := {
    "X-Request-Id", "X-B3-Traceid", "X-B3-Spanid", "X-B3-Parentspanid",
    "X-B3-Sampled", "X-B3-Flags", "X-Ot-Span-Context"}

  function Forward(h: Header): Header {
    map k | k in h && k in FORWARDABLE :: h[k]
  }

  /** Of the forwardable headers, `added` only sets those of `want`, to the values they have there. */
  predicate KeepsTrace(added: Header, want: Header) {
    forall k | k in FORWARDABLE && k in added :: k in want && added[k] == want[k]
  }

  function ScriptOf(env: Env, service: string): Script {
    if service in env.scripts then env.scripts[service] else []
  }

  function ReadyAll(cmds: seq<Command>): (tasks: seq<Task>)
    ensures |tasks| == |cmds| && forall i | 0 <= i < |cmds| :: tasks[i] == Ready(cmds[i])
  {
    seq(|cmds|, i requires 0 <= i < |cmds| => Ready(cmds[i]))
  }

  /** One step of the task at `path`, running in a handler of `caller` that forwards `h`. */
  function StepTask(env: Env, path: Path, caller: string, h: Header, t: Task, choice: seq<nat>)
    : Option<(Task, Option<Event>)>
    decreases t
  {
    match t
    case Ready(SleepCommand(_)) => Some((Done([]), None))
    case Ready(RequestCommand(dest, size)) =>
      if dest !in env.scripts then
        Some((Done([NoSuchService(dest)]), Some(Unresolved(path, dest))))
      else if env.fault(path).Undelivered? then
        Some((Done([TransportError(dest)]), Some(Broken(path, dest, false))))
      else
        Some((Waiting(dest, size, Queued(dest, h + env.added(path))), None))
    case Ready(ConcurrentCommand(members)) =>
      Some((Joining(ReadyAll(members), ErrorJoin.Start(|members|)), None))
    case Waiting(dest, size, callee) =>
      if callee.Replied? then
        if env.fault(path).ResponseLost? then
          Some((Done([TransportError(dest)]), Some(Broken(path, dest, true))))
        else
          Some((Done(if callee.code == 500 then [InternalError(dest)] else []),
                Some(Sent(path, caller, dest, size))))
      else (
        match StepFrame(env, path, callee, choice)
        case None => None
        case Some((callee', e)) => Some((Waiting(dest, size, callee'), e)))
    case Joining(members, join) =>
      if choice == [] then
        if join.pending == 0 then Some((Done(ErrorJoin.Outcome(join)), None)) else None
      else if choice[0] >= |members| || |join.phases| != |members| then None
      else (
        var i := choice[0];
        if members[i].Done? then
          match ErrorJoin.Step(join, i, members[i].err)
          case None => None
          case Some(join') => Some((Joining(members, join'), None))
        else
          match StepTask(env, path + [i], caller, h, members[i], choice[1..])
          case None => None
          case Some((m, e)) => Some((Joining(members[i := m], join), e)))
    case Done(_) => None
  }

  /** One step of the handler frame opened by the call at `path`. */
  function StepFrame(env: Env, path: Path, fr: Frame, choice: seq<nat>): Option<(Frame, Option<Event>)>
    decreases fr
  {
    match fr
    case Queued(service, header) =>
      Some((Looping(service, header, 0), Some(Received(path, service, header))))
    case Looping(service, header, pc) =>
      var script := ScriptOf(env, service);
      if pc < |script| then Some((Executing(service, header, pc, Ready(script[pc])), None))
      else Some((Replied(service, 200), Some(Responded(path, service, 200))))
    case Executing(service, header, pc, task) =>
      if task.Done? then
        if task.err == [] then Some((Looping(service, header, pc + 1), None))
        else Some((Replied(service, 500), Some(Responded(path, service, 500))))
      else (
        match StepTask(env, path + [pc], service, Forward(header), task, choice)
        case None => None
        case Some((task', e)) => Some((Executing(service, header, pc, task'), e)))
    case Replied(_, _) => None
  }

  function Init(service: string, header: Header): State {
    State(Queued(service, header), [])
  }

  function Emit(log: seq<Event>, e: Option<Event>): seq<Event> {
    if e.Some? then log + [e.value] else log
  }

  function Step(env: Env, st: State, choice: seq<nat>): Option<State> {
    match StepFrame(env, [], st.root, choice)
    case None => None
    case Some((root, e)) => Some(State(root, Emit(st.log, e)))
  }

  /** A run under a scheduler: None as soon as a choice is not enabled. */
  function Run(env: Env, st: State, schedule: seq<seq<nat>>): Option<State>
    decreases schedule
  {
    if schedule == [] then Some(st)
    else
      match Step(env, st, schedule[0])
      case None => None
      case Some(st') => Run(env, st', schedule[1..])
  }

  // ---------------------------------------------------------------- well-formed states

  function Results(members: seq<Task>): (rs: seq<seq<Failure>>)
    ensures |rs| == |members|
  {
    seq(|members|, i requires 0 <= i < |members| => if members[i].Done? then members[i].err else [])
  }

  ghost predicate OkTask(env: Env, path: Path, t: Task)
    decreases t
  {
    match t
    case Ready(_) => true
    case Waiting(dest, _, callee) =>
      dest in env.scripts && !env.fault(path).Undelivered? && callee.service == dest && OkFrame(env, path, callee)
    case Joining(members, join) =>
      && ErrorJoin.Inv(join, Results(members))
      && (forall i | 0 <= i < |members| :: OkTask(env, path + [i], members[i]))
      && (forall i | 0 <= i < |members| :: !join.phases[i].Running? ==> members[i].Done?)
    case Done(_) => true
  }

  ghost predicate OkFrame(env: Env, path: Path, fr: Frame)
    decreases fr
  {
    match fr
    case Queued(_, _) => true
    case Looping(service, _, pc) => pc <= |ScriptOf(env, service)|
    case Executing(service, _, pc, task) =>
      pc < |ScriptOf(env, service)| && OkTask(env, path + [pc], task)
    case Replied(_, code) => code == 200 || code == 500
  }

  lemma ResultsUpdate(members: seq<Task>, i: nat, m: Task)
    requires i < |members| && !members[i].Done?
    ensures Results(members[i := m]) == Results(members)[i := if m.Done? then m.err else []]
  {
  }

  lemma {:induction false} TaskStaysOk(env: Env, path: Path, caller: string, h: Header, t: Task, choice: seq<nat>)
    requires OkTask(env, path, t) && StepTask(env, path, caller, h, t, choice).Some?
    ensures OkTask(env, path, StepTask(env, path, caller, h, t, choice).value.0)
    decreases t
  {
    match t
    case Ready(ConcurrentCommand(members)) =>
      var tasks := ReadyAll(members);
      ErrorJoin.InvStart(Results(tasks));
    case Waiting(dest, size, callee) =>
      if !callee.Replied? {
        FrameStaysOk(env, path, callee, choice);
      }
    case Joining(members, join) =>
      if choice != [] {
        var i := choice[0];
        if members[i].Done? {
          ErrorJoin.StepKeepsInv(join, i, Results(members));
        } else {
          TaskStaysOk(env, path + [i], caller, h, members[i], choice[1..]);
          var m := StepTask(env, path + [i], caller, h, members[i], choice[1..]).value.0;
          ResultsUpdate(members, i, m);
          ErrorJoin.InvIgnoresRunning(join, Results(members), i, if m.Done? then m.err else []);
        }
      }
    case _ =>
  }

  lemma {:induction false} FrameStaysOk(env: Env, path: Path, fr: Frame, choice: seq<nat>)
    requires OkFrame(env, path, fr) && StepFrame(env, path, fr, choice).Some?
    ensures OkFrame(env, path, StepFrame(env, path, fr, choice).value.0)
    ensures StepFrame(env, path, fr, choice).value.0.service == fr.service
    decreases fr
  {
    if fr.Executing? && !fr.task.Done? {
      TaskStaysOk(env, path + [fr.pc], fr.service, Forward(fr.header), fr.task, choice);
    }
  }

  lemma {:induction false} RunStaysOk(env: Env, st: State, schedule: seq<seq<nat>>)
    requires OkFrame(env, [], st.root) && Run(env, st, schedule).Some?
    ensures OkFrame(env, [], Run(env, st, schedule).value.root)
    ensures Run(env, st, schedule).value.root.service == st.root.service
    decreases schedule
  {
    if schedule != [] {
      FrameStaysOk(env, [], st.root, schedule[0]);
      RunStaysOk(env, Step(env, st, schedule[0]).value, schedule[1..]);
    }
  }

  // ---------------------------------------------------------------- progress

  /** Some choice moves every task that is not done: no join waits for ever. */
  lemma {:induction false} TaskCanMove(env: Env, path: Path, caller: string, h: Header, t: Task)
    returns (choice: seq<nat>)
    requires OkTask(env, path, t) && !t.Done?
    ensures StepTask(env, path, caller, h, t, choice).Some?
    decreases t
  {
    choice := [];
    match t
    case Ready(_) =>
    case Waiting(dest, size, callee) =>
      if !callee.Replied? {
        choice := FrameCanMove(env, path, callee);
      }
    case Joining(members, join) =>
      if join.pending != 0 {
        ErrorJoin.UnfinishedZero(join.phases);
        var i: nat :| i < |members| && !join.phases[i].Finished?;
        if members[i].Done? {
          ErrorJoin.StepEnabled(join, i, Results(members));
          choice := [i];
        } else {
          var rest := TaskCanMove(env, path + [i], caller, h, members[i]);
          choice := [i] + rest;
          assert choice[1..] == rest;
        }
      }
  }

  lemma {:induction false} FrameCanMove(env: Env, path: Path, fr: Frame) returns (choice: seq<nat>)
    requires OkFrame(env, path, fr) && !fr.Replied?
    ensures StepFrame(env, path, fr, choice).Some?
    decreases fr
  {
    choice := [];
    if fr.Executing? && !fr.task.Done? {
      choice := TaskCanMove(env, path + [fr.pc], fr.service, Forward(fr.header), fr.task);
    }
  }
}
