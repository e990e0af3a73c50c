/**
 What the log tells about every handler of the call tree, at every point of every run: events are
 logged once, steps run one after the other and none after a failure, groups run all their members,
 and a handler answers 500 exactly when something below it broke. Nothing here assumes that the run
 completes.
 */
module History {
  import opened Topology
  import opened Execution
  import ErrorJoin

  predicate Fault(x: Event) {
    x.Broken? || x.Unresolved?
  }

  ghost predicate NoneAt(log: seq<Event>, path: Path) {
    forall x <- log :: !(path <= x.path)
  }

  /** Something broke at `path` or below it. */
  ghost predicate FaultAt(log: seq<Event>, path: Path) {
    exists x <- log :: Fault(x) && path <= x.path
  }

  /** Something broke strictly below `path`. */
  ghost predicate FaultBelow(log: seq<Event>, path: Path) {
    exists x <- log :: Fault(x) && path < x.path
  }

  /** The event that ends the call `cmd` made at `path`. */
  predicate IsOutcome(x: Event, path: Path, cmd: Request) {
    x.path == path &&
    match x
    case Sent(_, _, dest, size) => dest == cmd.serviceName && size == cmd.size
    case Broken(_, dest, _) => dest == cmd.serviceName
    case Unresolved(_, dest) => dest == cmd.serviceName
    case _ => false
  }

  /** Every call of the command, in every member of every group, has ended one way or the other. */
  ghost predicate Executed(log: seq<Event>, path: Path, cmd: Command)
    decreases cmd
  {
    match cmd
    case SleepCommand(_) => true
    case RequestCommand(_, _) => exists x <- log :: IsOutcome(x, path, cmd)
    case ConcurrentCommand(members) => forall i | 0 <= i < |members| :: Executed(log, path + [i], members[i])
  }

  /** The first `n` steps of the handler at `q` were executed in full. */
  ghost predicate StepsDone(env: Env, log: seq<Event>, q: Path, service: string, n: nat) {
    && n <= |ScriptOf(env, service)|
    && forall k | 0 <= k < n :: Executed(log, q + [k], ScriptOf(env, service)[k])
  }

  /** Nothing happened below `q` in step `n` or a later one. */
  ghost predicate Before(log: seq<Event>, q: Path, n: nat) {
    forall x <- log | q < x.path :: x.path[|q|] < n
  }

  // ---------------------------------------------------------------- what a live state and the log have in common

  /** The task runs `cmd` at `path`. */
  ghost predicate TaskTells(env: Env, log: seq<Event>, path: Path, cmd: Command, t: Task)
    decreases t
  {
    match t
    case Ready(c) => c == cmd && NoneAt(log, path)
    case Waiting(dest, size, callee) => cmd == RequestCommand(dest, size) && FrameTells(env, log, path, callee)
    case Joining(members, _) =>
      && cmd.ConcurrentCommand? && |cmd.members| == |members|
      && InMembers(log, path, |members|)
      && forall i | 0 <= i < |members| :: TaskTells(env, log, path + [i], cmd.members[i], members[i])
    case Done(err) => Executed(log, path, cmd) && (err != [] <==> FaultAt(log, path))
  }

  ghost predicate InMembers(log: seq<Event>, path: Path, n: nat) {
    forall x <- log | path <= x.path :: path < x.path && x.path[|path|] < n
  }

  ghost predicate HasArrived(log: seq<Event>, q: Path, service: string) {
    exists r <- log :: r.Received? && r.path == q && r.service == service
  }

  /** The only event of the handler itself is the arrival of its request. */
  ghost predicate OnlyArrived(log: seq<Event>, q: Path, service: string) {
    HasArrived(log, q, service) && forall x <- log | x.path == q :: x.Received? && x.service == service
  }

  ghost predicate FaultsInStep(log: seq<Event>, q: Path, pc: nat) {
    forall x <- log | Fault(x) && q <= x.path :: q + [pc] <= x.path
  }

  ghost predicate FrameTells(env: Env, log: seq<Event>, q: Path, fr: Frame)
    decreases fr
  {
    match fr
    case Queued(_, _) => NoneAt(log, q)
    case Looping(service, _, pc) =>
      OnlyArrived(log, q, service) && Before(log, q, pc) && StepsDone(env, log, q, service, pc) && !FaultAt(log, q)
    case Executing(service, _, pc, task) =>
      && OnlyArrived(log, q, service) && Before(log, q, pc + 1) && StepsDone(env, log, q, service, pc)
      && pc < |ScriptOf(env, service)| && FaultsInStep(log, q, pc)
      && TaskTells(env, log, q + [pc], ScriptOf(env, service)[pc], task)
    case Replied(_, code) =>
      (forall x <- log | x.path == q :: x.Received? || x.Responded?) && (code == 500 <==> FaultAt(log, q))
  }

  // ---------------------------------------------------------------- what the log alone tells about a handler

  /** Where the handler at `q` got to step `n`, earlier steps were executed in full and nothing in them broke. */
  ghost predicate InOrder(env: Env, log: seq<Event>, q: Path) {
    forall r <- log, x <- log | r.path == q && r.Received? && q < x.path ::
      && StepsDone(env, log, q, r.service, x.path[|q|])
      && forall e <- log | Fault(e) && q < e.path :: x.path[|q|] <= e.path[|q|]
  }

  /** What an answer with `code` means: how many steps were executed, and whether something broke. */
  ghost predicate AnswerOk(env: Env, log: seq<Event>, q: Path, service: string, code: int) {
    && (code == 200 || code == 500)
    && (code == 500 <==> FaultBelow(log, q))
    && HasArrived(log, q, service)
    && exists n :: RanTo(env, log, q, service, code, n)
  }

  ghost predicate RanTo(env: Env, log: seq<Event>, q: Path, service: string, code: int, n: nat) {
    StepsDone(env, log, q, service, n) && Before(log, q, n) && (code == 200 ==> n == |ScriptOf(env, service)|)
  }

  ghost predicate AnswersOk(env: Env, log: seq<Event>, q: Path) {
    forall d <- log | d.path == q && d.Responded? :: AnswerOk(env, log, q, d.service, d.code)
  }

  ghost predicate Past(env: Env, log: seq<Event>, q: Path) {
    InOrder(env, log, q) && AnswersOk(env, log, q)
  }

  ghost predicate PastFrom(env: Env, log: seq<Event>, path: Path) {
    forall q | path <= q :: Past(env, log, q)
  }

  // ---------------------------------------------------------------- one more event

  lemma {:induction false} ExecutedStays(log: seq<Event>, x: Event, path: Path, cmd: Command)
    requires Executed(log, path, cmd)
    ensures Executed(log + [x], path, cmd)
    decreases cmd
  {
    match cmd
    case SleepCommand(_) =>
    case RequestCommand(_, _) =>
      var y :| y in log && IsOutcome(y, path, cmd);
      assert y in log + [x];
    case ConcurrentCommand(members) =>
      forall i | 0 <= i < |members| ensures Executed(log + [x], path + [i], members[i]) {
        ExecutedStays(log, x, path + [i], members[i]);
      }
  }

  lemma ArrivedStays(log: seq<Event>, x: Event, q: Path, service: string)
    requires HasArrived(log, q, service)
    ensures HasArrived(log + [x], q, service)
  {
    var r :| r in log && r.Received? && r.path == q && r.service == service;
    assert r in log + [x];
  }

  lemma StepsDoneStay(env: Env, log: seq<Event>, x: Event, q: Path, service: string, n: nat)
    requires StepsDone(env, log, q, service, n)
    ensures StepsDone(env, log + [x], q, service, n)
  {
    forall k | 0 <= k < n ensures Executed(log + [x], q + [k], ScriptOf(env, service)[k]) {
      ExecutedStays(log, x, q + [k], ScriptOf(env, service)[k]);
    }
  }

  lemma PathIndex(path: Path, k: nat, long: Path)
    ensures path + [k] <= long <==> path < long && long[|path|] == k
  {
    if path + [k] <= long {
      assert (path + [k])[|path|] == k && path <= path + [k];
    }
  }

  /** An event elsewhere does not concern a task. */
  lemma {:induction false} TaskStillTells(env: Env, log: seq<Event>, x: Event, path: Path, cmd: Command, t: Task)
    requires TaskTells(env, log, path, cmd, t) && !(path <= x.path)
    ensures TaskTells(env, log + [x], path, cmd, t)
    decreases t
  {
    match t
    case Ready(_) =>
    case Waiting(_, _, callee) => FrameStillTells(env, log, x, path, callee);
    case Joining(members, _) =>
      forall i | 0 <= i < |members| ensures TaskTells(env, log + [x], path + [i], cmd.members[i], members[i]) {
        PathIndex(path, i, x.path);
        TaskStillTells(env, log, x, path + [i], cmd.members[i], members[i]);
      }
    case Done(_) =>
      ExecutedStays(log, x, path, cmd);
  }

  lemma {:induction false} FrameStillTells(env: Env, log: seq<Event>, x: Event, q: Path, fr: Frame)
    requires FrameTells(env, log, q, fr) && !(q <= x.path)
    ensures FrameTells(env, log + [x], q, fr)
    decreases fr
  {
    match fr
    case Queued(_, _) =>
    case Looping(service, _, pc) =>
      ArrivedStays(log, x, q, service);
      StepsDoneStay(env, log, x, q, service, pc);
    case Executing(service, _, pc, task) =>
      ArrivedStays(log, x, q, service);
      StepsDoneStay(env, log, x, q, service, pc);
      PathIndex(q, pc, x.path);
      TaskStillTells(env, log, x, q + [pc], ScriptOf(env, service)[pc], task);
    case Replied(_, _) =>
  }

  lemma InOrderStays(env: Env, log: seq<Event>, x: Event, q: Path)
    requires InOrder(env, log, q) && !(q < x.path) && !(x.path == q && x.Received?)
    ensures InOrder(env, log + [x], q)
  {
    forall r, y | r in log + [x] && y in log + [x] && r.path == q && r.Received? && q < y.path
      ensures StepsDone(env, log + [x], q, r.service, y.path[|q|])
    {
      StepsDoneStay(env, log, x, q, r.service, y.path[|q|]);
    }
  }

  lemma AnswerStays(env: Env, log: seq<Event>, x: Event, q: Path, service: string, code: int)
    requires AnswerOk(env, log, q, service, code) && !(q < x.path)
    ensures AnswerOk(env, log + [x], q, service, code)
  {
    var n :| RanTo(env, log, q, service, code, n);
    ArrivedStays(log, x, q, service);
    StepsDoneStay(env, log, x, q, service, n);
    assert RanTo(env, log + [x], q, service, code, n);
  }

  /** An event that is neither below a handler nor its own arrival or answer does not concern it. */
  lemma PastStays(env: Env, log: seq<Event>, x: Event, q: Path)
    requires Past(env, log, q) && !(q < x.path) && !(x.path == q && (x.Received? || x.Responded?))
    ensures Past(env, log + [x], q)
  {
    InOrderStays(env, log, x, q);
    forall d | d in log + [x] && d.path == q && d.Responded? ensures AnswerOk(env, log + [x], q, d.service, d.code) {
      AnswerStays(env, log, x, q, d.service, d.code);
    }
  }

  /** The event of a call itself concerns no handler at the call's path or below. */
  lemma PastFromStays(env: Env, log: seq<Event>, x: Event)
    requires PastFrom(env, log, x.path) && !x.Received? && !x.Responded?
    ensures PastFrom(env, log + [x], x.path)
  {
    forall q | x.path <= q ensures Past(env, log + [x], q) {
      PastStays(env, log, x, q);
    }
  }

  /** Handlers below `path` outside the child `i` in which the event happened. */
  lemma PastFromChild(env: Env, log: seq<Event>, x: Event, path: Path, i: nat)
    requires PastFrom(env, log, path) && path + [i] <= x.path
    requires PastFrom(env, log + [x], path + [i]) && Past(env, log + [x], path)
    ensures PastFrom(env, log + [x], path)
  {
    PathIndex(path, i, x.path);
    forall q | path <= q ensures Past(env, log + [x], q) {
      PathIndex(path, i, q);
      if q != path && !(path + [i] <= q) {
        assert q[|path|] != i;
        assert !(q <= x.path);
        PastStays(env, log, x, q);
      }
    }
  }

  // ---------------------------------------------------------------- steps

  /** What a step promises: the new state and log agree again, and the event is new. */
  ghost predicate Fresh(log: seq<Event>, path: Path, e: Option<Event>) {
    e.Some? ==> path <= e.value.path && e.value !in log
  }

  lemma AnswerIsOk(env: Env, log: seq<Event>, q: Path, service: string, code: int, n: nat)
    requires OnlyArrived(log, q, service) && StepsDone(env, log, q, service, n)
    requires Before(log, q, n) && (code == 200 || code == 500) && (code == 200 ==> n == |ScriptOf(env, service)|)
    requires code == 500 <==> FaultAt(log, q)
    ensures AnswerOk(env, log + [Responded(q, service, code)], q, service, code)
  {
    var x := Responded(q, service, code);
    ArrivedStays(log, x, q, service);
    StepsDoneStay(env, log, x, q, service, n);
    if FaultAt(log, q) {
      var y :| y in log && Fault(y) && q <= y.path;
      assert q < y.path;
    }
    assert RanTo(env, log + [x], q, service, code, n);
  }

  lemma Answers(env: Env, log: seq<Event>, q: Path, service: string, code: int, n: nat)
    requires PastFrom(env, log, q) && OnlyArrived(log, q, service) && StepsDone(env, log, q, service, n)
    requires Before(log, q, n) && (code == 200 || code == 500) && (code == 200 ==> n == |ScriptOf(env, service)|)
    requires code == 500 <==> FaultAt(log, q)
    ensures FrameKept(env, log, q, Replied(service, code), Some(Responded(q, service, code)))
  {
    var x := Responded(q, service, code);
    AnswerIsOk(env, log, q, service, code, n);
    forall p | q <= p ensures Past(env, log + [x], p) {
      assert Past(env, log, p);
      if p == q {
        InOrderStays(env, log, x, q);
      } else {
        PastStays(env, log, x, p);
      }
    }
  }

  /** A handler's own history after an event in its current step. */
  lemma HandlerGoesOn(env: Env, log: seq<Event>, x: Event, q: Path, service: string, pc: nat)
    requires Past(env, log, q) && OnlyArrived(log, q, service) && Before(log, q, pc + 1)
    requires StepsDone(env, log, q, service, pc) && FaultsInStep(log, q, pc) && q + [pc] <= x.path
    ensures Past(env, log + [x], q)
    ensures OnlyArrived(log + [x], q, service) && Before(log + [x], q, pc + 1)
    ensures StepsDone(env, log + [x], q, service, pc) && FaultsInStep(log + [x], q, pc)
  {
    PathIndex(q, pc, x.path);
    ArrivedStays(log, x, q, service);
    StepsDoneStay(env, log, x, q, service, pc);
    forall r, y | r in log + [x] && y in log + [x] && r.path == q && r.Received? && q < y.path
      ensures StepsDone(env, log + [x], q, r.service, y.path[|q|])
      ensures forall e <- log + [x] | Fault(e) && q < e.path :: y.path[|q|] <= e.path[|q|]
    {
      assert r in log && y.path[|q|] <= pc;
      forall e | e in log + [x] && Fault(e) && q < e.path ensures y.path[|q|] <= e.path[|q|] {
        PathIndex(q, pc, e.path);
      }
    }
  }

  /** All members have returned: the join fails exactly when something below the group broke. */
  lemma GroupReturns(env: Env, log: seq<Event>, path: Path, cmd: Command, members: seq<Task>,
                     join: ErrorJoin.Join<Failure>)
    requires OkTask(env, path, Joining(members, join)) && TaskTells(env, log, path, cmd, Joining(members, join))
    requires join.pending == 0
    ensures TaskTells(env, log, path, cmd, Done(ErrorJoin.Outcome(join)))
  {
    ErrorJoin.UnfinishedZero(join.phases);
    ErrorJoin.WaitResult(join, Results(members));
    forall i | 0 <= i < |members|
      ensures Executed(log, path + [i], cmd.members[i])
      ensures Results(members)[i] != [] <==> FaultAt(log, path + [i])
    {
      assert TaskTells(env, log, path + [i], cmd.members[i], members[i]);
    }
    if FaultAt(log, path) {
      var x :| x in log && Fault(x) && path <= x.path;
      var i := x.path[|path|];
      PathIndex(path, i, x.path);
      assert FaultAt(log, path + [i]);
      assert Results(members)[i] != [];
    }
    if i :| 0 <= i < |members| && Results(members)[i] != [] {
      var x :| x in log && Fault(x) && path + [i] <= x.path;
      PathIndex(path, i, x.path);
      assert path <= x.path;
    }
  }

  lemma CallEnds(env: Env, log: seq<Event>, path: Path, cmd: Request, x: Event, err: seq<Failure>)
    requires PastFrom(env, log, path) && IsOutcome(x, path, cmd)
    requires forall y <- log | y.path == path :: y.Received? || y.Responded?
    requires err != [] <==> FaultAt(log, path) || Fault(x)
    ensures TaskTells(env, log + [x], path, cmd, Done(err)) && PastFrom(env, log + [x], path) && x !in log
  {
    assert x in log + [x];
    PastFromStays(env, log, x);
  }

  ghost predicate TaskKept(env: Env, log: seq<Event>, path: Path, cmd: Command, t: Task, e: Option<Event>) {
    && TaskTells(env, Emit(log, e), path, cmd, t)
    && PastFrom(env, Emit(log, e), path)
    && Fresh(log, path, e)
  }

  ghost predicate FrameKept(env: Env, log: seq<Event>, q: Path, fr: Frame, e: Option<Event>) {
    FrameTells(env, Emit(log, e), q, fr) && PastFrom(env, Emit(log, e), q) && Fresh(log, q, e)
  }

  lemma {:induction false} TaskStepTells(env: Env, log: seq<Event>, path: Path, caller: string, h: Header, cmd: Command,
                                         t: Task, choice: seq<nat>)
    requires OkTask(env, path, t) && TaskTells(env, log, path, cmd, t) && PastFrom(env, log, path)
    requires StepTask(env, path, caller, h, t, choice).Some?
    ensures var (t', e) := StepTask(env, path, caller, h, t, choice).value; TaskKept(env, log, path, cmd, t', e)
    decreases t
  {
    var (t', e) := StepTask(env, path, caller, h, t, choice).value;
    match t
    case Ready(SleepCommand(_)) =>
    case Ready(RequestCommand(dest, size)) =>
      if e.Some? {
        CallEnds(env, log, path, cmd, e.value, t'.err);
      }
    case Ready(ConcurrentCommand(_)) =>
    case Waiting(dest, size, callee) =>
      if callee.Replied? {
        CallEnds(env, log, path, cmd, e.value, t'.err);
      } else {
        FrameStepTells(env, log, path, callee, choice);
      }
    case Joining(members, join) =>
      if choice == [] {
        GroupReturns(env, log, path, cmd, members, join);
      } else if !members[choice[0]].Done? {
        MemberSteps(env, log, path, caller, h, cmd, members, join, choice);
      }
    case Done(_) =>
  }

  lemma {:induction false} MemberSteps(env: Env, log: seq<Event>, path: Path, caller: string, h: Header, cmd: Command,
                                       members: seq<Task>, join: ErrorJoin.Join<Failure>, choice: seq<nat>)
    requires OkTask(env, path, Joining(members, join)) && TaskTells(env, log, path, cmd, Joining(members, join))
    requires PastFrom(env, log, path) && choice != [] && choice[0] < |members| && !members[choice[0]].Done?
    requires StepTask(env, path + [choice[0]], caller, h, members[choice[0]], choice[1..]).Some?
    ensures var i := choice[0];
            var (m, e) := StepTask(env, path + [i], caller, h, members[i], choice[1..]).value;
            TaskKept(env, log, path, cmd, Joining(members[i := m], join), e)
    decreases members, 0
  {
    var i := choice[0];
    var (m, e) := StepTask(env, path + [i], caller, h, members[i], choice[1..]).value;
    TaskStepTells(env, log, path + [i], caller, h, cmd.members[i], members[i], choice[1..]);
    if e.Some? {
      var x := e.value;
      PathIndex(path, i, x.path);
      forall j | 0 <= j < |members|
        ensures TaskTells(env, log + [x], path + [j], cmd.members[j], members[i := m][j])
      {
        if j != i {
          PathIndex(path, j, x.path);
          TaskStillTells(env, log, x, path + [j], cmd.members[j], members[j]);
        }
      }
      PastFromChild(env, log, x, path, i);
    }
  }

  lemma {:induction false} FrameStepTells(env: Env, log: seq<Event>, q: Path, fr: Frame, choice: seq<nat>)
    requires OkFrame(env, q, fr) && FrameTells(env, log, q, fr) && PastFrom(env, log, q)
    requires StepFrame(env, q, fr, choice).Some?
    ensures var (fr', e) := StepFrame(env, q, fr, choice).value; FrameKept(env, log, q, fr', e)
    decreases fr
  {
    match fr
    case Queued(service, header) =>
      assert Received(q, service, header) in log + [Received(q, service, header)];
    case Looping(service, header, pc) =>
      if pc == |ScriptOf(env, service)| {
        Answers(env, log, q, service, 200, pc);
      }
    case Executing(service, header, pc, task) =>
      if task.Done? {
        if task.err != [] {
          StepFails(env, log, q, service, header, pc, task);
        }
      } else {
        TaskStepsInFrame(env, log, q, fr, choice);
      }
    case Replied(_, _) =>
  }

  lemma StepFails(env: Env, log: seq<Event>, q: Path, service: string, header: Header, pc: nat, task: Task)
    requires FrameTells(env, log, q, Executing(service, header, pc, task)) && task.Done? && task.err != []
    requires PastFrom(env, log, q)
    ensures FrameKept(env, log, q, Replied(service, 500), Some(Responded(q, service, 500)))
  {
    var x :| x in log && Fault(x) && q + [pc] <= x.path;
    PathIndex(q, pc, x.path);
    assert q <= x.path;
    Answers(env, log, q, service, 500, pc + 1);
  }

  lemma {:induction false} TaskStepsInFrame(env: Env, log: seq<Event>, q: Path, fr: Frame, choice: seq<nat>)
    requires OkFrame(env, q, fr) && FrameTells(env, log, q, fr) && PastFrom(env, log, q)
    requires fr.Executing? && !fr.task.Done? && StepFrame(env, q, fr, choice).Some?
    ensures var (fr', e) := StepFrame(env, q, fr, choice).value; FrameKept(env, log, q, fr', e)
    decreases fr, 0
  {
    var (service, pc, script) := (fr.service, fr.pc, ScriptOf(env, fr.service));
    var (task', e) := StepTask(env, q + [pc], service, Forward(fr.header), fr.task, choice).value;
    TaskStepTells(env, log, q + [pc], service, Forward(fr.header), script[pc], fr.task, choice);
    if e.Some? {
      PathIndex(q, pc, e.value.path);
      HandlerGoesOn(env, log, e.value, q, service, pc);
      PastFromChild(env, log, e.value, q, pc);
    }
  }

  // ---------------------------------------------------------------- runs

  ghost predicate Distinct(log: seq<Event>) {
    forall i, j | 0 <= i < j < |log| :: log[i] != log[j]
  }

  ghost predicate Tells(env: Env, st: State) {
    FrameTells(env, st.log, [], st.root) && PastFrom(env, st.log, []) && Distinct(st.log)
  }

  lemma {:induction false} RunTells(env: Env, st: State, schedule: seq<seq<nat>>)
    requires OkFrame(env, [], st.root) && Tells(env, st) && Run(env, st, schedule).Some?
    ensures Tells(env, Run(env, st, schedule).value)
    decreases schedule
  {
    if schedule != [] {
      FrameStepTells(env, st.log, [], st.root, schedule[0]);
      FrameStaysOk(env, [], st.root, schedule[0]);
      RunTells(env, Step(env, st, schedule[0]).value, schedule[1..]);
    }
  }

  lemma ReachableTells(env: Env, service: string, header: Header, schedule: seq<seq<nat>>, st: State)
    requires Run(env, Init(service, header), schedule) == Some(st)
    ensures Tells(env, st)
  {
    RunTells(env, Init(service, header), schedule);
  }

  /**
   At every reachable state no call was attempted twice and no handler arrived or answered twice. With
   AnyTwoSchedulesAgree, completed runs log the same set of events; events carry the path of the call,
   so this identifies the calls that were executed.
   */
  lemma EveryEventOnce(env: Env, service: string, header: Header, schedule: seq<seq<nat>>, st: State)
    requires Run(env, Init(service, header), schedule) == Some(st)
    ensures forall i, j | 0 <= i < j < |st.log| :: st.log[i] != st.log[j]
  {
    ReachableTells(env, service, header, schedule, st);
  }

  /**
   Steps run in order and stop at a failure. At every reachable state, if the request `r` was received
   at path `q` and something happened below it in step `n`, then every step before `n` was executed in
   full, and nothing that broke below the handler belongs to a step before `n`.
   */
  lemma StepsRunInOrder(env: Env, service: string, header: Header, schedule: seq<seq<nat>>, st: State, r: Event,
                        f: Event, n: nat)
    requires Run(env, Init(service, header), schedule) == Some(st)
    requires r in st.log && r.Received?
    requires f in st.log && r.path + [n] <= f.path
    ensures StepsDone(env, st.log, r.path, r.service, n)
    ensures forall e, k | e in st.log && (e.Broken? || e.Unresolved?) && r.path + [k] <= e.path :: n <= k
  {
    ReachableTells(env, service, header, schedule, st);
    PathIndex(r.path, n, f.path);
    assert Past(env, st.log, r.path);
    forall e, k | e in st.log && (e.Broken? || e.Unresolved?) && r.path + [k] <= e.path ensures n <= k {
      PathIndex(r.path, k, e.path);
    }
  }

  /**
   Every answer reflects its subtree. At every reachable state, a handler at any depth that answered
   had received its request, under the same service, and said 500 if and only if something strictly
   below it broke; it executed a prefix of its script in full and nothing beyond it, and with 200 the
   prefix is the whole script.
   */
  lemma EveryAnswer(env: Env, service: string, header: Header, schedule: seq<seq<nat>>, st: State, d: Event)
    returns (n: nat)
    requires Run(env, Init(service, header), schedule) == Some(st)
    requires d in st.log && d.Responded?
    ensures d.code == 200 || d.code == 500
    ensures exists r <- st.log :: r.Received? && r.path == d.path && r.service == d.service
    ensures d.code == 500 <==> exists e <- st.log :: (e.Broken? || e.Unresolved?) && d.path < e.path
    ensures StepsDone(env, st.log, d.path, d.service, n) && Before(st.log, d.path, n)
    ensures d.code == 200 ==> n == |ScriptOf(env, d.service)|
  {
    ReachableTells(env, service, header, schedule, st);
    assert Past(env, st.log, d.path);
    n :| RanTo(env, st.log, d.path, d.service, d.code, n);
  }

  /**
   A group runs all of its members, whatever the others return. Once a handler has answered, every call
   among the members of a group that it started has ended.
   */
  lemma AllMembersRun(env: Env, service: string, header: Header, schedule: seq<seq<nat>>, st: State, d: Event,
                      f: Event, k: nat, i: nat)
    requires Run(env, Init(service, header), schedule) == Some(st)
    requires d in st.log && d.Responded? && f in st.log && d.path + [k] <= f.path
    ensures k < |ScriptOf(env, d.service)|
    ensures var step := ScriptOf(env, d.service)[k];
            step.ConcurrentCommand? && i < |step.members| && step.members[i].RequestCommand? ==>
              exists x <- st.log :: IsOutcome(x, d.path + [k] + [i], step.members[i])
  {
    var n := EveryAnswer(env, service, header, schedule, st, d);
    PathIndex(d.path, k, f.path);
    var step := ScriptOf(env, d.service)[k];
    assert Executed(st.log, d.path + [k], step);
    if step.ConcurrentCommand? && i < |step.members| {
      assert Executed(st.log, d.path + [k] + [i], step.members[i]);
    }
  }
}
