/**
 Who is charged for a call: the pod whose handler made it. At every reachable state that is the service
 of the innermost request under which the call was made, and the counters of a completed run follow
 from the scripts.
 */
module Attribution {
  import opened Topology
  import opened Execution
  import opened Evaluation
  import opened Refinement
  import opened ExecutorProperties
  import opened History
  import ErrorJoin

  /** `r` is the innermost request above `path`: what happens there happens in its handler. */
  ghost predicate MadeIn(log: seq<Event>, r: Event, path: Path) {
    && r in log && r.Received? && r.path < path
    && forall y <- log | y.Received? && y.path < path :: y.path <= r.path
  }

  /** The call that `x` reports is charged to the handler that made it. */
  ghost predicate Attributed(log: seq<Event>, x: Event)
    requires x.Sent?
  {
    exists r <- log :: MadeIn(log, r, x.path) && r.service == x.caller
  }

  /** A request made at `q` carries what its handler forwards, and what the transport adds, and nothing else. */
  ghost predicate Forwarded(env: Env, log: seq<Event>, q: Path, header: Header) {
    q == [] || exists r <- log :: MadeIn(log, r, q) && header == Forward(r.header) + env.added(q)
  }

  ghost predicate Traced(env: Env, log: seq<Event>, x: Event) {
    && (x.Sent? ==> Attributed(log, x))
    && (x.Received? ==> Forwarded(env, log, x.path, x.header))
  }

  ghost predicate AllTraced(env: Env, log: seq<Event>) {
    forall x <- log :: Traced(env, log, x)
  }

  /** Some call at `path` or below it failed as `f` says. */
  ghost predicate Explained(log: seq<Event>, path: Path, f: Failure) {
    exists x <- log :: path <= x.path && Explains(log, x, f)
  }

  ghost predicate Explains(log: seq<Event>, x: Event, f: Failure) {
    match f
    case NoSuchService(dest) => x == Unresolved(x.path, dest)
    case TransportError(dest) => x.Broken? && x.dest == dest
    case InternalError(dest) => x.Sent? && x.dest == dest && Responded(x.path, dest, 500) in log
  }

  /**
   The handlers of the task are those of received requests, the calls it makes forward `h`, and the
   failures that finished commands returned are those of their calls.
   */
  ghost predicate HeldTask(env: Env, log: seq<Event>, path: Path, h: Header, t: Task)
    decreases t
  {
    match t
    case Waiting(_, _, callee) =>
      (callee.Queued? ==> callee.header == h + env.added(path)) && HeldFrame(env, log, path, callee)
    case Joining(members, _) => forall i | 0 <= i < |members| :: HeldTask(env, log, path + [i], h, members[i])
    case Done(err) => forall f <- err :: Explained(log, path, f)
    case Ready(_) => true
  }

  ghost predicate HeldFrame(env: Env, log: seq<Event>, q: Path, fr: Frame)
    decreases fr
  {
    match fr
    case Looping(service, header, _) => Received(q, service, header) in log
    case Executing(service, header, pc, task) =>
      Received(q, service, header) in log && HeldTask(env, log, q + [pc], Forward(header), task)
    case Replied(service, code) => Responded(q, service, code) in log
    case Queued(_, _) => true
  }

  lemma {:induction false} HeldTaskStays(env: Env, log: seq<Event>, x: Event, path: Path, h: Header, t: Task)
    requires HeldTask(env, log, path, h, t)
    ensures HeldTask(env, log + [x], path, h, t)
    decreases t
  {
    match t
    case Waiting(_, _, callee) => HeldFrameStays(env, log, x, path, callee);
    case Joining(members, _) =>
      forall i | 0 <= i < |members| ensures HeldTask(env, log + [x], path + [i], h, members[i]) {
        HeldTaskStays(env, log, x, path + [i], h, members[i]);
      }
    case Done(err) =>
      forall f | f in err ensures Explained(log + [x], path, f) {
        var y :| y in log && path <= y.path && Explains(log, y, f);
        assert y in log + [x] && Explains(log + [x], y, f);
      }
    case Ready(_) =>
  }

  lemma {:induction false} HeldFrameStays(env: Env, log: seq<Event>, x: Event, q: Path, fr: Frame)
    requires HeldFrame(env, log, q, fr)
    ensures HeldFrame(env, log + [x], q, fr)
    decreases fr
  {
    if fr.Executing? {
      HeldTaskStays(env, log, x, q + [fr.pc], Forward(fr.header), fr.task);
    }
  }

  /** A group returns failures of its members only. */
  lemma GroupExplained(env: Env, log: seq<Event>, path: Path, h: Header, members: seq<Task>,
                       join: ErrorJoin.Join<Failure>)
    requires OkTask(env, path, Joining(members, join)) && join.pending == 0
    requires HeldTask(env, log, path, h, Joining(members, join))
    ensures HeldTask(env, log, path, h, Done(ErrorJoin.Outcome(join)))
  {
    var rs := Results(members);
    ErrorJoin.WaitResult(join, rs);
    forall f | f in ErrorJoin.Outcome(join) ensures Explained(log, path, f) {
      var i :| 0 <= i < |rs| && f in rs[i];
      assert HeldTask(env, log, path + [i], h, members[i]);
      assert members[i] == Done(rs[i]);
      var x :| x in log && path + [i] <= x.path && Explains(log, x, f);
      PathIndex(path, i, x.path);
    }
  }

  /** What a step promises: its event is traced, and a request arrives before anything below it. */
  ghost predicate Charged(env: Env, log: seq<Event>, e: Option<Event>) {
    e.Some? ==> Traced(env, log, e.value) && (e.value.Received? ==> NoneAt(log, e.value.path))
  }

  lemma MadeBelow(log: seq<Event>, r: Event, path: Path, i: nat)
    requires MadeIn(log, r, path) && forall y <- log | y.path == path :: !y.Received?
    ensures MadeIn(log, r, path + [i])
  {
    assert path < path + [i];
    forall y | y in log && y.Received? && y.path < path + [i] ensures y.path <= r.path {
      assert y.path <= path;
    }
  }

  lemma {:induction false} TaskCharges(env: Env, log: seq<Event>, path: Path, r: Event, cmd: Command, t: Task,
                                       choice: seq<nat>)
    requires MadeIn(log, r, path)
    requires OkTask(env, path, t) && TaskTells(env, log, path, cmd, t)
    requires HeldTask(env, log, path, Forward(r.header), t)
    requires StepTask(env, path, r.service, Forward(r.header), t, choice).Some?
    ensures var (t', e) := StepTask(env, path, r.service, Forward(r.header), t, choice).value;
            Charged(env, log, e) && HeldTask(env, Emit(log, e), path, Forward(r.header), t')
    decreases t
  {
    var e := StepTask(env, path, r.service, Forward(r.header), t, choice).value.1;
    assert e.Some? ==> e.value in Emit(log, e);
    match t
    case Waiting(_, _, callee) =>
      if !callee.Replied? {
        FrameCharges(env, log, path, callee, choice);
      }
    case Joining(members, join) =>
      if choice == [] {
        GroupExplained(env, log, path, Forward(r.header), members, join);
      } else if !members[choice[0]].Done? {
        MemberCharges(env, log, path, r, cmd, members, join, choice);
      }
    case _ =>
  }

  lemma {:induction false} MemberCharges(env: Env, log: seq<Event>, path: Path, r: Event, cmd: Command,
                                         members: seq<Task>, join: ErrorJoin.Join<Failure>, choice: seq<nat>)
    requires MadeIn(log, r, path)
    requires OkTask(env, path, Joining(members, join)) && TaskTells(env, log, path, cmd, Joining(members, join))
    requires HeldTask(env, log, path, Forward(r.header), Joining(members, join))
    requires choice != [] && choice[0] < |members| && !members[choice[0]].Done?
    requires StepTask(env, path + [choice[0]], r.service, Forward(r.header), members[choice[0]], choice[1..]).Some?
    ensures var i := choice[0];
            var (m, e) := StepTask(env, path + [i], r.service, Forward(r.header), members[i], choice[1..]).value;
            && Charged(env, log, e)
            && HeldTask(env, Emit(log, e), path, Forward(r.header), Joining(members[i := m], join))
    decreases members, 0
  {
    var i, h := choice[0], Forward(r.header);
    MadeBelow(log, r, path, i);
    TaskCharges(env, log, path + [i], r, cmd.members[i], members[i], choice[1..]);
    var (m, e) := StepTask(env, path + [i], r.service, h, members[i], choice[1..]).value;
    forall j | 0 <= j < |members| ensures HeldTask(env, Emit(log, e), path + [j], h, members[i := m][j]) {
      if j != i && e.Some? {
        HeldTaskStays(env, log, e.value, path + [j], h, members[j]);
      }
    }
  }

  lemma {:induction false} FrameCharges(env: Env, log: seq<Event>, q: Path, fr: Frame, choice: seq<nat>)
    requires OkFrame(env, q, fr) && FrameTells(env, log, q, fr) && HeldFrame(env, log, q, fr)
    requires fr.Queued? ==> Forwarded(env, log, q, fr.header)
    requires StepFrame(env, q, fr, choice).Some?
    ensures var (fr', e) := StepFrame(env, q, fr, choice).value;
            Charged(env, log, e) && HeldFrame(env, Emit(log, e), q, fr')
    decreases fr
  {
    if fr.Executing? && !fr.task.Done? {
      var pc, r := fr.pc, Received(q, fr.service, fr.header);
      assert MadeIn(log, r, q + [pc]) by {
        assert q < q + [pc];
      }
      TaskCharges(env, log, q + [pc], r, ScriptOf(env, fr.service)[pc], fr.task, choice);
    }
  }

  lemma StaysTraced(env: Env, log: seq<Event>, e: Event, x: Event)
    requires Traced(env, log, x) && (e.Received? ==> !(e.path < x.path))
    ensures Traced(env, log + [e], x)
  {
    if x.Sent? {
      var r :| r in log && MadeIn(log, r, x.path) && r.service == x.caller;
      assert r in log + [e] && MadeIn(log + [e], r, x.path);
    } else if x.Received? && x.path != [] {
      var r :| r in log && MadeIn(log, r, x.path) && x.header == Forward(r.header) + env.added(x.path);
      assert r in log + [e] && MadeIn(log + [e], r, x.path);
    }
  }

  lemma TracesGrow(env: Env, log: seq<Event>, e: Option<Event>)
    requires AllTraced(env, log) && Charged(env, log, e)
    ensures AllTraced(env, Emit(log, e))
  {
    if e.Some? {
      forall x | x in log + [e.value] ensures Traced(env, log + [e.value], x) {
        StaysTraced(env, log, e.value, x);
      }
    }
  }

  ghost predicate Held(env: Env, st: State) {
    && HeldFrame(env, st.log, [], st.root)
    && AllTraced(env, st.log)
  }

  lemma {:induction false} RunTraces(env: Env, st: State, schedule: seq<seq<nat>>)
    requires OkFrame(env, [], st.root) && Tells(env, st) && Held(env, st) && Run(env, st, schedule).Some?
    ensures Held(env, Run(env, st, schedule).value)
    decreases schedule
  {
    if schedule != [] {
      FrameCharges(env, st.log, [], st.root, schedule[0]);
      TracesGrow(env, st.log, StepFrame(env, [], st.root, schedule[0]).value.1);
      FrameStepTells(env, st.log, [], st.root, schedule[0]);
      FrameStaysOk(env, [], st.root, schedule[0]);
      RunTraces(env, Step(env, st, schedule[0]).value, schedule[1..]);
    }
  }

  /**
   At every reachable state, whatever the transport does, every outgoing request that was counted names
   as its caller the service of the innermost request under which it was made: the received request
   whose path is the longest proper prefix of the call's path.
   */
  lemma CallersAreRight(env: Env, service: string, header: Header, schedule: seq<seq<nat>>, st: State, x: Event)
    returns (r: Event)
    requires Run(env, Init(service, header), schedule) == Some(st)
    requires x in st.log && x.Sent?
    ensures r in st.log && r.Received? && r.service == x.caller && r.path < x.path
    ensures forall y <- st.log | y.Received? && y.path < x.path :: y.path <= r.path
  {
    RunTraces(env, Init(service, header), schedule);
    assert Traced(env, st.log, x);
    r :| r in st.log && MadeIn(st.log, r, x.path) && r.service == x.caller;
  }

  /**
   At every reachable state every request but the root's carries the forwardable headers of the innermost
   request under which it was made and what the transport adds, and no other header.
   */
  lemma HeadersAreForwarded(env: Env, service: string, header: Header, schedule: seq<seq<nat>>, st: State, x: Event)
    returns (r: Event)
    requires Run(env, Init(service, header), schedule) == Some(st)
    requires x in st.log && x.Received? && x.path != []
    ensures r in st.log && r.Received? && r.path < x.path
    ensures forall y <- st.log | y.Received? && y.path < x.path :: y.path <= r.path
    ensures x.header == Forward(r.header) + env.added(x.path)
  {
    RunTraces(env, Init(service, header), schedule);
    assert Traced(env, st.log, x);
    r :| r in st.log && MadeIn(st.log, r, x.path) && x.header == Forward(r.header) + env.added(x.path);
  }

  /**
   At every reachable state, at any depth of the call tree, every failure that a finished command holds
   names the service of a call at or below it that had no such service, broke, or was answered with 500.
   */
  lemma FailuresAreReal(env: Env, service: string, header: Header, schedule: seq<seq<nat>>, st: State)
    requires Run(env, Init(service, header), schedule) == Some(st)
    ensures HeldFrame(env, st.log, [], st.root)
  {
    RunTraces(env, Init(service, header), schedule);
  }

  // ---------------------------------------------------------------- how often a service calls another

  /** How many of the calls name `dest`. */
  function CallsTo(calls: seq<Request>, dest: string): nat {
    if calls == [] then 0 else (if calls[0].serviceName == dest then 1 else 0) + CallsTo(calls[1..], dest)
  }

  lemma CallsToOne(call: Request, dest: string)
    ensures CallsTo([call], dest) == if call.serviceName == dest then 1 else 0
  {
    assert [call][1..] == [];
  }

  lemma {:induction false} CallsToConcat(a: seq<Request>, b: seq<Request>, dest: string)
    ensures CallsTo(a + b, dest) == CallsTo(a, dest) + CallsTo(b, dest)
  {
    if a == [] {
      assert a + b == b;
    } else {
      assert (a + b)[1..] == a[1..] + b;
      CallsToConcat(a[1..], b, dest);
    }
  }

  /** Calls to `dest` in a stretch of the script of `caller`, if that is the service whose calls are counted. */
  function Own(caller: string, from: string, calls: seq<Request>, dest: string): nat {
    if caller == from then CallsTo(calls, dest) else 0
  }

  /** Every request to the service counted `perRequest` calls, and `own` more were counted for it. */
  ghost predicate Proportional(sent: Out, received: Out, perRequest: nat, own: nat) {
    sent.Out? && received.Out? ==> sent.ok && received.ok && sent.count == received.count * perRequest + own
  }

  lemma Distributes(a: nat, b: nat, k: nat)
    ensures (a + b) * k == a * k + b * k
  {
  }

  lemma BothProportional(s1: Out, r1: Out, own1: nat, s2: Out, r2: Out, own2: nat, k: nat)
    requires Proportional(s1, r1, k, own1) && Proportional(s2, r2, k, own2)
    ensures Proportional(Both(s1, s2), Both(r1, r2), k, own1 + own2)
  {
    if s1.Out? && r1.Out? && s2.Out? && r2.Out? {
      Distributes(r1.count, r2.count, k);
    }
  }

  lemma {:induction false} CommandCounts(env: Env, depth: nat, path: Path, caller: string, h: Header, cmd: Command,
                                         from: string, dest: string, k: nat)
    requires Dependable(env) && forall c <- CallsOf(cmd) :: c.serviceName in env.scripts
    requires k == CallsTo(Calls(ScriptOf(env, from)), dest)
    ensures Proportional(EvalCommand(env, depth, path, caller, h, cmd, SentBy(from, dest)),
                         EvalCommand(env, depth, path, caller, h, cmd, IncomingTo(from)), k,
                         Own(caller, from, CallsOf(cmd), dest))
    decreases depth, 1, cmd, 0
  {
    match cmd
    case SleepCommand(_) =>
    case RequestCommand(callee, _) =>
      assert cmd in CallsOf(cmd);
      CallsToOne(cmd, dest);
      if depth > 0 {
        HandlerCounts(env, depth - 1, path, callee, h + env.added(path), from, dest, k);
      }
    case ConcurrentCommand(members) =>
      MembersCount(env, depth, path, caller, h, members, 0, from, dest, k);
      assert members[0..] == members;
  }

  lemma {:induction false} MembersCount(env: Env, depth: nat, path: Path, caller: string, h: Header,
                                        cmds: seq<Command>, i: nat, from: string, dest: string, k: nat)
    requires Dependable(env) && i <= |cmds| && ClosedScript(env, cmds)
    requires k == CallsTo(Calls(ScriptOf(env, from)), dest)
    ensures Proportional(EvalMembers(env, depth, path, caller, h, cmds, i, SentBy(from, dest)),
                         EvalMembers(env, depth, path, caller, h, cmds, i, IncomingTo(from)), k,
                         Own(caller, from, Calls(cmds[i..]), dest))
    decreases depth, 1, cmds, |cmds| - i
  {
    if i == |cmds| {
      assert Calls(cmds[i..]) == [];
    } else {
      CallsOfMember(cmds, i);
      CommandCounts(env, depth, path + [i], caller, h, cmds[i], from, dest, k);
      MembersCount(env, depth, path, caller, h, cmds, i + 1, from, dest, k);
      OwnFrom(caller, from, cmds, i, dest);
      BothProportional(EvalCommand(env, depth, path + [i], caller, h, cmds[i], SentBy(from, dest)),
                       EvalCommand(env, depth, path + [i], caller, h, cmds[i], IncomingTo(from)),
                       Own(caller, from, CallsOf(cmds[i]), dest),
                       EvalMembers(env, depth, path, caller, h, cmds, i + 1, SentBy(from, dest)),
                       EvalMembers(env, depth, path, caller, h, cmds, i + 1, IncomingTo(from)),
                       Own(caller, from, Calls(cmds[i + 1..]), dest), k);
    }
  }

  /** A step that succeeded, then the rest of the script. */
  ghost predicate Continues(steps: Out, step: Out, rest: Out) {
    steps.Out? ==>
      step.Out? && (step.ok ==> rest.Out? && steps.ok == rest.ok && steps.count == step.count + rest.count)
  }

  lemma OneMoreStep(env: Env, depth: nat, path: Path, service: string, header: Header, pc: nat, p: Event -> bool)
    requires pc < |ScriptOf(env, service)|
    ensures Continues(EvalSteps(env, depth, path, service, header, pc, p),
                      EvalCommand(env, depth, path + [pc], service, Forward(header), ScriptOf(env, service)[pc], p),
                      EvalSteps(env, depth, path, service, header, pc + 1, p))
  {
    var step := EvalCommand(env, depth, path + [pc], service, Forward(header), ScriptOf(env, service)[pc], p);
    assert EvalSteps(env, depth, path, service, header, pc, p)
        == Plus(AfterStep(env, depth, path, service, header, pc, step, p), 0, 1);
  }

  lemma StepProportional(s1: Out, r1: Out, own1: nat, s2: Out, r2: Out, own2: nat, s: Out, r: Out, k: nat)
    requires Proportional(s1, r1, k, own1) && Proportional(s2, r2, k, own2)
    requires Continues(s, s1, s2) && Continues(r, r1, r2)
    ensures Proportional(s, r, k, own1 + own2)
  {
    if s.Out? && r.Out? {
      Distributes(r1.count, r2.count, k);
    }
  }

  lemma OwnFrom(service: string, from: string, cmds: Script, i: nat, dest: string)
    requires i < |cmds|
    ensures Own(service, from, Calls(cmds[i..]), dest)
         == Own(service, from, CallsOf(cmds[i]), dest) + Own(service, from, Calls(cmds[i + 1..]), dest)
  {
    CallsFrom(cmds, i);
    CallsToConcat(CallsOf(cmds[i]), Calls(cmds[i + 1..]), dest);
  }

  lemma {:induction false} StepsCount(env: Env, depth: nat, path: Path, service: string, header: Header, pc: nat,
                                      from: string, dest: string, k: nat)
    requires Dependable(env) && pc <= |ScriptOf(env, service)|
    requires k == CallsTo(Calls(ScriptOf(env, from)), dest)
    ensures Proportional(EvalSteps(env, depth, path, service, header, pc, SentBy(from, dest)),
                         EvalSteps(env, depth, path, service, header, pc, IncomingTo(from)), k,
                         Own(service, from, Calls(ScriptOf(env, service)[pc..]), dest))
    decreases depth, 2, |ScriptOf(env, service)| - pc
  {
    var script := ScriptOf(env, service);
    if pc == |script| {
      assert Calls(script[pc..]) == [];
    } else {
      CallsOfMember(script, pc);
      CommandCounts(env, depth, path + [pc], service, Forward(header), script[pc], from, dest, k);
      StepsCount(env, depth, path, service, header, pc + 1, from, dest, k);
      OneMoreStep(env, depth, path, service, header, pc, SentBy(from, dest));
      OneMoreStep(env, depth, path, service, header, pc, IncomingTo(from));
      StepProportional(EvalCommand(env, depth, path + [pc], service, Forward(header), script[pc], SentBy(from, dest)),
                       EvalCommand(env, depth, path + [pc], service, Forward(header), script[pc], IncomingTo(from)),
                       Own(service, from, CallsOf(script[pc]), dest),
                       EvalSteps(env, depth, path, service, header, pc + 1, SentBy(from, dest)),
                       EvalSteps(env, depth, path, service, header, pc + 1, IncomingTo(from)),
                       Own(service, from, Calls(script[pc + 1..]), dest),
                       EvalSteps(env, depth, path, service, header, pc, SentBy(from, dest)),
                       EvalSteps(env, depth, path, service, header, pc, IncomingTo(from)), k);
      OwnFrom(service, from, script, pc, dest);
    }
  }

  lemma {:induction false} HandlerCounts(env: Env, depth: nat, path: Path, service: string, header: Header,
                                         from: string, dest: string, k: nat)
    requires Dependable(env) && k == CallsTo(Calls(ScriptOf(env, from)), dest)
    ensures Proportional(EvalHandler(env, depth, path, service, header, SentBy(from, dest)),
                         EvalHandler(env, depth, path, service, header, IncomingTo(from)), k, 0)
    decreases depth, 3
  {
    StepsCount(env, depth, path, service, header, 0, from, dest, k);
    assert ScriptOf(env, service)[0..] == ScriptOf(env, service);
    var steps := EvalSteps(env, depth, path, service, header, 0, IncomingTo(from));
    if steps.Out? {
      Distributes(steps.count, 1, k);
    }
  }

  /**
   The outgoing counters of a completed run, caller by caller: where every call names a defined service
   and the transport is reliable, each request that `from` received made it call `dest` once for every
   call to `dest` in its script.
   */
  lemma OutgoingCounts(env: Env, service: string, header: Header, schedule: seq<seq<nat>>, st: State, from: string,
                       dest: string)
    requires Dependable(env)
    requires Run(env, Init(service, header), schedule) == Some(st) && st.root.Replied?
    ensures Count(st.log, SentBy(from, dest))
         == Count(st.log, IncomingTo(from)) * CallsTo(Calls(ScriptOf(env, from)), dest)
  {
    EveryScheduleRefinesEval(env, service, header, schedule, st, SentBy(from, dest));
    EveryScheduleRefinesEval(env, service, header, schedule, st, IncomingTo(from));
    HandlerCounts(env, |schedule|, [], service, header, from, dest, CallsTo(Calls(ScriptOf(env, from)), dest));
  }
}
