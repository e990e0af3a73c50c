/** Every schedule of the machine computes what the sequential evaluation computes. */
module Refinement {
  import opened Topology
  import opened Execution
  import opened Evaluation
  import ErrorJoin

  /** One step turned the remainder `before` into `after` and emitted `emitted` counted events. */
  ghost predicate Advances(before: Out, after: Out, emitted: nat) {
    before.Out? ==>
      after.Out? && after.ok == before.ok && before.count == emitted + after.count && after.work < before.work
  }

  lemma {:induction false} ReadyMembers(env: Env, depth: nat, path: Path, caller: string, h: Header,
                                        cmds: seq<Command>, k: nat, p: Event -> bool)
    requires k <= |cmds|
    ensures RestOfMembers(env, depth, path, caller, h, ReadyAll(cmds), k, p)
         == EvalMembers(env, depth, path, caller, h, cmds, k, p)
    decreases |cmds| - k
  {
    if k < |cmds| {
      ReadyMembers(env, depth, path, caller, h, cmds, k + 1, p);
    }
  }

  lemma JoinWorkStart(n: nat)
    ensures JoinWork(seq(n, _ => ErrorJoin.Running)) == 6 * n
  {
    if n > 0 {
      assert seq(n, _ => ErrorJoin.Phase<Failure>.Running)[1..] == seq(n - 1, _ => ErrorJoin.Phase<Failure>.Running);
      JoinWorkStart(n - 1);
    }
  }

  lemma JoinWorkUpdate(phases: seq<ErrorJoin.Phase<Failure>>, i: nat, ph: ErrorJoin.Phase<Failure>)
    requires i < |phases|
    ensures JoinWork(phases[i := ph]) == JoinWork(phases) - PhaseWork(phases[i]) + PhaseWork(ph)
  {
    if i == 0 {
      assert phases[i := ph][1..] == phases[1..];
    } else {
      assert phases[i := ph][1..] == phases[1..][i - 1 := ph];
      JoinWorkUpdate(phases[1..], i - 1, ph);
    }
  }

  lemma JoinStepWork(join: ErrorJoin.Join<Failure>, i: nat, r: seq<Failure>)
    requires i < |join.phases| && ErrorJoin.Step(join, i, r).Some?
    ensures JoinWork(ErrorJoin.Step(join, i, r).value.phases) < JoinWork(join.phases)
  {
    var join' := ErrorJoin.Step(join, i, r).value;
    JoinWorkUpdate(join.phases, i, join'.phases[i]);
    assert join'.phases == join.phases[i := join'.phases[i]];
  }

  /** Replacing one member by its successor advances the whole group. */
  lemma {:induction false} MemberAdvances(env: Env, depth: nat, path: Path, caller: string, h: Header,
                                          members: seq<Task>, i: nat, m: Task, k: nat, emitted: nat, p: Event -> bool)
    requires i < |members| && k <= |members|
    requires Advances(RestOfTask(env, depth, path + [i], caller, h, members[i], p),
                      RestOfTask(env, depth, path + [i], caller, h, m, p), emitted)
    ensures k <= i ==> Advances(RestOfMembers(env, depth, path, caller, h, members, k, p),
                                RestOfMembers(env, depth, path, caller, h, members[i := m], k, p), emitted)
    ensures i < k ==>
              RestOfMembers(env, depth, path, caller, h, members, k, p)
              == RestOfMembers(env, depth, path, caller, h, members[i := m], k, p)
    decreases |members| - k
  {
    if k < |members| {
      MemberAdvances(env, depth, path, caller, h, members, i, m, k + 1, emitted, p);
    }
  }

  /** Members that have all returned leave nothing to do; the group is ok when all of them are. */
  lemma {:induction false} AllDone(env: Env, depth: nat, path: Path, caller: string, h: Header,
                                   members: seq<Task>, k: nat, p: Event -> bool)
    requires k <= |members| && forall i | 0 <= i < |members| :: members[i].Done?
    ensures var rest := RestOfMembers(env, depth, path, caller, h, members, k, p);
            && rest.Out? && rest.count == 0 && rest.work == 0
            && (rest.ok <==> forall i | k <= i < |members| :: Results(members)[i] == [])
    decreases |members| - k
  {
    if k < |members| {
      AllDone(env, depth, path, caller, h, members, k + 1, p);
      assert RestOfTask(env, depth, path + [k], caller, h, members[k], p) == Out(members[k].err == [], 0, 0);
      var rs := Results(members);
      assert rs[k] == members[k].err;
      assert (forall i | k <= i < |members| :: rs[i] == []) <==>
             rs[k] == [] && forall i | k + 1 <= i < |members| :: rs[i] == [];
    }
  }

  lemma WaitAdvances(env: Env, depth: nat, path: Path, caller: string, h: Header, members: seq<Task>,
                     join: ErrorJoin.Join<Failure>, p: Event -> bool)
    requires ErrorJoin.Inv(join, Results(members)) && join.pending == 0
    requires forall i | 0 <= i < |members| :: members[i].Done?
    ensures Advances(RestOfTask(env, depth, path, caller, h, Joining(members, join), p),
                     RestOfTask(env, depth, path, caller, h, Done(ErrorJoin.Outcome(join)), p), 0)
  {
    var rest := RestOfMembers(env, depth, path, caller, h, members, 0, p);
    var out := ErrorJoin.Outcome(join);
    assert rest.Out? && rest.count == 0 && (rest.ok <==> out == []) by {
      AllDone(env, depth, path, caller, h, members, 0, p);
      ErrorJoin.WaitResult(join, Results(members));
    }
    assert RestOfTask(env, depth, path, caller, h, Done(out), p) == Out(out == [], 0, 0);
  }

  lemma ForkAdvances(env: Env, depth: nat, path: Path, caller: string, h: Header, members: seq<Command>,
                     p: Event -> bool)
    ensures Advances(RestOfTask(env, depth, path, caller, h, Ready(ConcurrentCommand(members)), p),
                     RestOfTask(env, depth, path, caller, h,
                                Joining(ReadyAll(members), ErrorJoin.Start(|members|)), p), 0)
  {
    ReadyMembers(env, depth, path, caller, h, members, 0, p);
    JoinWorkStart(|members|);
  }

  lemma JoinAdvances(env: Env, depth: nat, path: Path, caller: string, h: Header, members: seq<Task>,
                     join: ErrorJoin.Join<Failure>, i: nat, r: seq<Failure>, p: Event -> bool)
    requires i < |join.phases| && ErrorJoin.Step(join, i, r).Some?
    ensures Advances(RestOfTask(env, depth, path, caller, h, Joining(members, join), p),
                     RestOfTask(env, depth, path, caller, h,
                                Joining(members, ErrorJoin.Step(join, i, r).value), p), 0)
  {
    JoinStepWork(join, i, r);
  }

  lemma MemberStepAdvances(env: Env, depth: nat, path: Path, caller: string, h: Header, members: seq<Task>,
                           join: ErrorJoin.Join<Failure>, i: nat, m: Task, emitted: nat, p: Event -> bool)
    requires i < |members|
    requires Advances(RestOfTask(env, depth, path + [i], caller, h, members[i], p),
                      RestOfTask(env, depth, path + [i], caller, h, m, p), emitted)
    ensures Advances(RestOfTask(env, depth, path, caller, h, Joining(members, join), p),
                     RestOfTask(env, depth, path, caller, h, Joining(members[i := m], join), p), emitted)
  {
    MemberAdvances(env, depth, path, caller, h, members, i, m, 0, emitted, p);
  }

  lemma CallAdvances(env: Env, depth: nat, path: Path, caller: string, h: Header, dest: string, size: nat,
                     choice: seq<nat>, p: Event -> bool)
    ensures var t := Ready(RequestCommand(dest, size));
            var (t', e) := StepTask(env, path, caller, h, t, choice).value;
            Advances(RestOfTask(env, depth, path, caller, h, t, p),
                     RestOfTask(env, depth, path, caller, h, t', p), Tally(e, p))
  {
  }

  /** The heart of the refinement: one step of a task, whoever was scheduled. */
  lemma {:induction false} TaskAdvances(env: Env, depth: nat, path: Path, caller: string, h: Header, t: Task,
                                        choice: seq<nat>, p: Event -> bool)
    requires OkTask(env, path, t) && StepTask(env, path, caller, h, t, choice).Some?
    ensures var (t', e) := StepTask(env, path, caller, h, t, choice).value;
            Advances(RestOfTask(env, depth, path, caller, h, t, p),
                     RestOfTask(env, depth, path, caller, h, t', p), Tally(e, p))
    decreases t
  {
    match t
    case Ready(SleepCommand(_)) =>
    case Ready(RequestCommand(dest, size)) =>
      CallAdvances(env, depth, path, caller, h, dest, size, choice, p);
    case Ready(ConcurrentCommand(members)) =>
      ForkAdvances(env, depth, path, caller, h, members, p);
    case Waiting(dest, size, callee) =>
      if !callee.Replied? && depth > 0 {
        FrameAdvances(env, depth - 1, path, callee, choice, p);
      }
    case Joining(members, join) =>
      if choice == [] {
        ErrorJoin.UnfinishedZero(join.phases);
        WaitAdvances(env, depth, path, caller, h, members, join, p);
      } else {
        var i := choice[0];
        if members[i].Done? {
          JoinAdvances(env, depth, path, caller, h, members, join, i, members[i].err, p);
        } else {
          TaskAdvances(env, depth, path + [i], caller, h, members[i], choice[1..], p);
          var (m, e) := StepTask(env, path + [i], caller, h, members[i], choice[1..]).value;
          MemberStepAdvances(env, depth, path, caller, h, members, join, i, m, Tally(e, p), p);
        }
      }
  }

  lemma {:induction false} FrameAdvances(env: Env, depth: nat, path: Path, fr: Frame, choice: seq<nat>,
                                         p: Event -> bool)
    requires OkFrame(env, path, fr) && StepFrame(env, path, fr, choice).Some?
    ensures var (fr', e) := StepFrame(env, path, fr, choice).value;
            Advances(RestOfFrame(env, depth, path, fr, p), RestOfFrame(env, depth, path, fr', p), Tally(e, p))
    decreases fr
  {
    if fr.Executing? && !fr.task.Done? {
      TaskAdvances(env, depth, path + [fr.pc], fr.service, Forward(fr.header), fr.task, choice, p);
    }
  }

  // ---------------------------------------------------------------- more depth never hurts

  ghost predicate Extends(a: Out, b: Out) {
    a.Out? ==> b == a
  }

  lemma {:induction false} CommandDeeper(env: Env, depth: nat, path: Path, caller: string, h: Header, cmd: Command,
                                         p: Event -> bool)
    ensures Extends(EvalCommand(env, depth, path, caller, h, cmd, p),
                    EvalCommand(env, depth + 1, path, caller, h, cmd, p))
    decreases depth, 1, cmd, 0
  {
    match cmd
    case SleepCommand(_) =>
    case RequestCommand(dest, _) =>
      if depth > 0 {
        HandlerDeeper(env, depth - 1, path, dest, h + env.added(path), p);
      }
    case ConcurrentCommand(members) =>
      MembersDeeper(env, depth, path, caller, h, members, 0, p);
  }

  lemma {:induction false} MembersDeeper(env: Env, depth: nat, path: Path, caller: string, h: Header,
                                         cmds: seq<Command>, k: nat, p: Event -> bool)
    requires k <= |cmds|
    ensures Extends(EvalMembers(env, depth, path, caller, h, cmds, k, p),
                    EvalMembers(env, depth + 1, path, caller, h, cmds, k, p))
    decreases depth, 1, cmds, |cmds| - k
  {
    if k < |cmds| {
      CommandDeeper(env, depth, path + [k], caller, h, cmds[k], p);
      MembersDeeper(env, depth, path, caller, h, cmds, k + 1, p);
    }
  }

  lemma {:induction false} StepsDeeper(env: Env, depth: nat, path: Path, service: string, header: Header, pc: nat,
                                       p: Event -> bool)
    requires pc <= |ScriptOf(env, service)|
    ensures Extends(EvalSteps(env, depth, path, service, header, pc, p),
                    EvalSteps(env, depth + 1, path, service, header, pc, p))
    decreases depth, 2, |ScriptOf(env, service)| - pc
  {
    var script := ScriptOf(env, service);
    if pc < |script| {
      CommandDeeper(env, depth, path + [pc], service, Forward(header), script[pc], p);
      StepsDeeper(env, depth, path, service, header, pc + 1, p);
    }
  }

  lemma {:induction false} HandlerDeeper(env: Env, depth: nat, path: Path, service: string, header: Header,
                                         p: Event -> bool)
    ensures Extends(EvalHandler(env, depth, path, service, header, p),
                    EvalHandler(env, depth + 1, path, service, header, p))
    decreases depth, 3
  {
    StepsDeeper(env, depth, path, service, header, 0, p);
  }

  lemma {:induction false} HandlerDeepest(env: Env, depth: nat, deeper: nat, path: Path, service: string,
                                          header: Header, p: Event -> bool)
    requires depth <= deeper
    ensures Extends(EvalHandler(env, depth, path, service, header, p),
                    EvalHandler(env, deeper, path, service, header, p))
    decreases deeper - depth
  {
    if depth < deeper {
      HandlerDeeper(env, depth, path, service, header, p);
      HandlerDeepest(env, depth + 1, deeper, path, service, header, p);
    }
  }

  lemma {:induction false} TaskDeeper(env: Env, depth: nat, path: Path, caller: string, h: Header, t: Task,
                                      p: Event -> bool)
    ensures Extends(RestOfTask(env, depth, path, caller, h, t, p), RestOfTask(env, depth + 1, path, caller, h, t, p))
    decreases t, 0
  {
    match t
    case Ready(cmd) => CommandDeeper(env, depth, path, caller, h, cmd, p);
    case Waiting(_, _, callee) =>
      if depth > 0 {
        FrameDeeper(env, depth - 1, path, callee, p);
      }
    case Joining(members, _) => TasksDeeper(env, depth, path, caller, h, members, 0, p);
    case Done(_) =>
  }

  lemma {:induction false} TasksDeeper(env: Env, depth: nat, path: Path, caller: string, h: Header,
                                       members: seq<Task>, k: nat, p: Event -> bool)
    requires k <= |members|
    ensures Extends(RestOfMembers(env, depth, path, caller, h, members, k, p),
                    RestOfMembers(env, depth + 1, path, caller, h, members, k, p))
    decreases members, |members| - k
  {
    if k < |members| {
      TaskDeeper(env, depth, path + [k], caller, h, members[k], p);
      TasksDeeper(env, depth, path, caller, h, members, k + 1, p);
    }
  }

  lemma {:induction false} FrameDeeper(env: Env, depth: nat, path: Path, fr: Frame, p: Event -> bool)
    ensures Extends(RestOfFrame(env, depth, path, fr, p), RestOfFrame(env, depth + 1, path, fr, p))
    decreases fr, 0
  {
    match fr
    case Queued(service, header) => HandlerDeeper(env, depth, path, service, header, p);
    case Looping(service, header, pc) =>
      if pc <= |ScriptOf(env, service)| {
        StepsDeeper(env, depth, path, service, header, pc, p);
      }
    case Executing(service, header, pc, task) =>
      if pc < |ScriptOf(env, service)| {
        TaskDeeper(env, depth, path + [pc], service, Forward(header), task, p);
        StepsDeeper(env, depth, path, service, header, pc + 1, p);
      }
    case Replied(_, _) =>
  }

  // ---------------------------------------------------------------- a defined successor has a defined predecessor

  lemma {:induction false} MemberDefined(env: Env, depth: nat, path: Path, caller: string, h: Header,
                                         members: seq<Task>, i: nat, m: Task, k: nat, p: Event -> bool)
    requires i < |members| && k <= |members|
    requires RestOfTask(env, depth, path + [i], caller, h, m, p).Out? ==>
               RestOfTask(env, depth + 1, path + [i], caller, h, members[i], p).Out?
    ensures RestOfMembers(env, depth, path, caller, h, members[i := m], k, p).Out? ==>
              RestOfMembers(env, depth + 1, path, caller, h, members, k, p).Out?
    decreases |members| - k
  {
    if k < |members| {
      if k != i {
        TaskDeeper(env, depth, path + [k], caller, h, members[k], p);
      }
      MemberDefined(env, depth, path, caller, h, members, i, m, k + 1, p);
    }
  }

  lemma {:induction false} TaskDefined(env: Env, depth: nat, path: Path, caller: string, h: Header, t: Task,
                                       choice: seq<nat>, p: Event -> bool)
    requires OkTask(env, path, t) && StepTask(env, path, caller, h, t, choice).Some?
    ensures RestOfTask(env, depth, path, caller, h, StepTask(env, path, caller, h, t, choice).value.0, p).Out? ==>
              RestOfTask(env, depth + 1, path, caller, h, t, p).Out?
    decreases t
  {
    match t
    case Ready(SleepCommand(_)) =>
    case Ready(RequestCommand(dest, _)) =>
      if depth > 0 {
        var header := h + env.added(path);
        HandlerDeeper(env, depth - 1, path, dest, header, p);
        assert RestOfFrame(env, depth - 1, path, Queued(dest, header), p)
            == EvalHandler(env, depth - 1, path, dest, header, p);
      }
    case Ready(ConcurrentCommand(members)) =>
      ReadyMembers(env, depth, path, caller, h, members, 0, p);
      MembersDeeper(env, depth, path, caller, h, members, 0, p);
    case Waiting(dest, size, callee) =>
      if !callee.Replied? && depth > 0 {
        FrameDefined(env, depth - 1, path, callee, choice, p);
      }
    case Joining(members, join) =>
      if choice == [] {
        ErrorJoin.UnfinishedZero(join.phases);
        AllDone(env, depth + 1, path, caller, h, members, 0, p);
      } else {
        var i := choice[0];
        if members[i].Done? {
          TasksDeeper(env, depth, path, caller, h, members, 0, p);
        } else {
          TaskDefined(env, depth, path + [i], caller, h, members[i], choice[1..], p);
          var m := StepTask(env, path + [i], caller, h, members[i], choice[1..]).value.0;
          MemberDefined(env, depth, path, caller, h, members, i, m, 0, p);
        }
      }
  }

  lemma {:induction false} FrameDefined(env: Env, depth: nat, path: Path, fr: Frame, choice: seq<nat>,
                                        p: Event -> bool)
    requires OkFrame(env, path, fr) && StepFrame(env, path, fr, choice).Some?
    ensures RestOfFrame(env, depth, path, StepFrame(env, path, fr, choice).value.0, p).Out? ==>
              RestOfFrame(env, depth + 1, path, fr, p).Out?
    decreases fr
  {
    var fr' := StepFrame(env, path, fr, choice).value.0;
    FrameDeeper(env, depth, path, fr', p);
    if fr.Looping? && fr.pc < |ScriptOf(env, fr.service)| {
      var cmd := ScriptOf(env, fr.service)[fr.pc];
      assert RestOfTask(env, depth + 1, path + [fr.pc], fr.service, Forward(fr.header), Ready(cmd), p)
          == EvalCommand(env, depth + 1, path + [fr.pc], fr.service, Forward(fr.header), cmd, p);
    }
    if fr.Executing? {
      StepsDeeper(env, depth, path, fr.service, fr.header, fr.pc + 1, p);
      if !fr.task.Done? {
        TaskDefined(env, depth, path + [fr.pc], fr.service, Forward(fr.header), fr.task, choice, p);
        FrameAdvancesOk(env, depth, path, fr, choice, p);
      }
    }
  }

  /** Whether the running step succeeds does not depend on how much of it has been executed. */
  lemma {:induction false} FrameAdvancesOk(env: Env, depth: nat, path: Path, fr: Frame, choice: seq<nat>,
                                           p: Event -> bool)
    requires OkFrame(env, path, fr) && StepFrame(env, path, fr, choice).Some? && fr.Executing? && !fr.task.Done?
    ensures var rest := RestOfTask(env, depth + 1, path + [fr.pc], fr.service, Forward(fr.header), fr.task, p);
            var task' := StepTask(env, path + [fr.pc], fr.service, Forward(fr.header), fr.task, choice).value.0;
            var rest' := RestOfTask(env, depth, path + [fr.pc], fr.service, Forward(fr.header), task', p);
            rest.Out? && rest'.Out? ==> rest.ok == rest'.ok
  {
    var task' := StepTask(env, path + [fr.pc], fr.service, Forward(fr.header), fr.task, choice).value.0;
    TaskAdvances(env, depth + 1, path + [fr.pc], fr.service, Forward(fr.header), fr.task, choice, p);
    TaskDeeper(env, depth, path + [fr.pc], fr.service, Forward(fr.header), task', p);
  }

  // ---------------------------------------------------------------- whole runs

  /** Events already logged plus events still to come never change, and work runs down. */
  lemma {:induction false} RunConserves(env: Env, depth: nat, st: State, schedule: seq<seq<nat>>, p: Event -> bool)
    requires OkFrame(env, [], st.root) && Run(env, st, schedule).Some?
    ensures var st' := Run(env, st, schedule).value;
            var before := RestOfFrame(env, depth, [], st.root, p);
            var after := RestOfFrame(env, depth, [], st'.root, p);
            before.Out? ==>
              && after.Out? && after.ok == before.ok
              && Count(st.log, p) + before.count == Count(st'.log, p) + after.count
              && after.work + |schedule| <= before.work
    decreases schedule
  {
    if schedule != [] {
      FrameAdvances(env, depth, [], st.root, schedule[0], p);
      FrameStaysOk(env, [], st.root, schedule[0]);
      var st1 := Step(env, st, schedule[0]).value;
      RunConserves(env, depth, st1, schedule[1..], p);
    }
  }

  lemma {:induction false} RunDefined(env: Env, st: State, schedule: seq<seq<nat>>, p: Event -> bool)
    requires OkFrame(env, [], st.root) && Run(env, st, schedule).Some?
    requires Run(env, st, schedule).value.root.Replied?
    ensures RestOfFrame(env, |schedule|, [], st.root, p).Out?
    decreases schedule
  {
    if schedule != [] {
      FrameStaysOk(env, [], st.root, schedule[0]);
      RunDefined(env, Step(env, st, schedule[0]).value, schedule[1..], p);
      FrameDefined(env, |schedule| - 1, [], st.root, schedule[0], p);
    }
  }

  /**
   Schedule independence. Whatever the scheduler did, a completed request returned the status of the
   sequential evaluation and logged the events that it counts, for every selection `p` of events.
   No acyclicity is assumed: the evaluation is defined at the depth of the run's length.
   */
  lemma EveryScheduleRefinesEval(env: Env, service: string, header: Header, schedule: seq<seq<nat>>, st: State,
                                 p: Event -> bool)
    requires Run(env, Init(service, header), schedule) == Some(st) && st.root.Replied?
    ensures var out := EvalHandler(env, |schedule|, [], service, header, p);
            out.Out? && st.root.code == (if out.ok then 200 else 500) && Count(st.log, p) == out.count
  {
    var st0 := Init(service, header);
    RunDefined(env, st0, schedule, p);
    RunConserves(env, |schedule|, st0, schedule, p);
    RunStaysOk(env, st0, schedule);
  }

  lemma CountExactly(log: seq<Event>, x: Event)
    ensures Count(log, Exactly(x)) == multiset(log)[x]
  {
    if log != [] {
      var front := log[..|log| - 1];
      CountExactly(front, x);
      assert log == front + [log[|log| - 1]];
    }
  }

  /** Any two completed runs answer alike, and their logs are permutations of each other. */
  lemma AnyTwoSchedulesAgree(env: Env, service: string, header: Header,
                             schedule1: seq<seq<nat>>, st1: State, schedule2: seq<seq<nat>>, st2: State)
    requires Run(env, Init(service, header), schedule1) == Some(st1) && st1.root.Replied?
    requires Run(env, Init(service, header), schedule2) == Some(st2) && st2.root.Replied?
    ensures st1.root == st2.root
    ensures multiset(st1.log) == multiset(st2.log)
  {
    RunStaysOk(env, Init(service, header), schedule1);
    RunStaysOk(env, Init(service, header), schedule2);
    var n := if |schedule1| < |schedule2| then |schedule2| else |schedule1|;
    forall e ensures multiset(st1.log)[e] == multiset(st2.log)[e] && st1.root == st2.root {
      var p := Exactly(e);
      EveryScheduleRefinesEval(env, service, header, schedule1, st1, p);
      EveryScheduleRefinesEval(env, service, header, schedule2, st2, p);
      HandlerDeepest(env, |schedule1|, n, [], service, header, p);
      HandlerDeepest(env, |schedule2|, n, [], service, header, p);
      CountExactly(st1.log, e);
      CountExactly(st2.log, e);
    }
    assert multiset(st1.log)[Received([], service, header)] == multiset(st2.log)[Received([], service, header)];
  }

  // ---------------------------------------------------------------- termination

  function Nothing(): Event -> bool {
    (e: Event) => false
  }

  ghost predicate Terminates(env: Env, service: string, header: Header) {
    exists depth: nat :: Defined(env, depth, service, header)
  }

  /** The sequential evaluation of one request needs at most `depth` nested calls. */
  ghost predicate Defined(env: Env, depth: nat, service: string, header: Header) {
    EvalHandler(env, depth, [], service, header, Nothing()).Out?
  }

  /** A run can be continued to completion as long as the remaining work is defined. */
  lemma {:induction false} CanComplete(env: Env, depth: nat, st: State) returns (schedule: seq<seq<nat>>)
    requires OkFrame(env, [], st.root) && RestOfFrame(env, depth, [], st.root, Nothing()).Out?
    ensures Run(env, st, schedule).Some? && Run(env, st, schedule).value.root.Replied?
    decreases RestOfFrame(env, depth, [], st.root, Nothing()).work
  {
    if st.root.Replied? {
      schedule := [];
    } else {
      var choice := FrameCanMove(env, [], st.root);
      FrameAdvances(env, depth, [], st.root, choice, Nothing());
      FrameStaysOk(env, [], st.root, choice);
      var rest := CanComplete(env, depth, Step(env, st, choice).value);
      schedule := [choice] + rest;
      assert schedule[1..] == rest;
    }
  }

  /** Some schedule gets the request answered. */
  ghost predicate Completes(env: Env, service: string, header: Header) {
    exists schedule :: CompletedBy(env, service, header, schedule)
  }

  ghost predicate CompletedBy(env: Env, service: string, header: Header, schedule: seq<seq<nat>>) {
    var run := Run(env, Init(service, header), schedule);
    run.Some? && run.value.root.Replied?
  }

  /** Some schedule completes the request exactly when the sequential evaluation is defined. */
  lemma CompletesIffEvalDefined(env: Env, service: string, header: Header)
    ensures Completes(env, service, header) <==> Terminates(env, service, header)
  {
    if depth: nat :| Defined(env, depth, service, header) {
      var schedule := CanComplete(env, depth, Init(service, header));
      assert CompletedBy(env, service, header, schedule);
    }
    if schedule :| CompletedBy(env, service, header, schedule) {
      var st := Run(env, Init(service, header), schedule).value;
      EveryScheduleRefinesEval(env, service, header, schedule, st, Nothing());
      assert Defined(env, |schedule|, service, header);
    }
  }

  /** Progress, on any graph: a reachable state that has not answered can move, so no join waits for ever. */
  lemma NeverStuck(env: Env, service: string, header: Header, schedule: seq<seq<nat>>, st: State)
    requires Run(env, Init(service, header), schedule) == Some(st) && !st.root.Replied?
    ensures exists choice :: Step(env, st, choice).Some?
  {
    RunStaysOk(env, Init(service, header), schedule);
    var choice := FrameCanMove(env, [], st.root);
    assert Step(env, st, choice).Some?;
  }

  /** A run from a frame whose remainder is `out` takes at most `out.work` steps. */
  lemma WorkBoundsRun(env: Env, depth: nat, st: State, schedule: seq<seq<nat>>, out: Out)
    requires StartsWith(env, depth, st, out) && out.Out? && Run(env, st, schedule).Some?
    ensures |schedule| <= out.work
  {
    RunConserves(env, depth, st, schedule, Nothing());
  }

  ghost predicate StartsWith(env: Env, depth: nat, st: State, out: Out) {
    OkFrame(env, [], st.root) && RestOfFrame(env, depth, [], st.root, Nothing()) == out
  }

  /** The sequential evaluation of one request is defined and its work is at least `steps`. */
  ghost predicate WithinWork(env: Env, depth: nat, service: string, header: Header, steps: nat) {
    var out := EvalHandler(env, depth, [], service, header, Nothing());
    out.Out? && steps <= out.work
  }

  /** Where the evaluation is defined, its work bounds the length of every run. */
  lemma EveryRunTerminates(env: Env, depth: nat, service: string, header: Header, schedule: seq<seq<nat>>, st: State)
    requires Defined(env, depth, service, header)
    requires Run(env, Init(service, header), schedule) == Some(st)
    ensures WithinWork(env, depth, service, header, |schedule|)
  {
    WorkBoundsRun(env, depth, Init(service, header), schedule, EvalHandler(env, depth, [], service, header, Nothing()));
  }
}
