/** What holds of every run of the executor, stated on the log of a reachable state. */
module ExecutorProperties {
  import opened Topology
  import opened Execution
  import opened Evaluation
  import opened Refinement
  import ErrorJoin
  import History

  // ---------------------------------------------------------------- status and faults

  lemma CountZero(log: seq<Event>, p: Event -> bool)
    ensures Count(log, p) == 0 <==> forall e <- log :: !p(e)
  {
    if log != [] {
      CountZero(log[..|log| - 1], p);
      assert log == log[..|log| - 1] + [log[|log| - 1]];
    }
  }

  /**
   A completed request answered 500 if and only if, somewhere in its call tree, a call broke in
   transport or named a service that does not exist, under every schedule.
   */
  lemma StatusReflectsFaults(env: Env, service: string, header: Header, schedule: seq<seq<nat>>, st: State)
    requires Run(env, Init(service, header), schedule) == Some(st) && st.root.Replied?
    ensures st.root.code == 500 <==> exists e <- st.log :: e.Broken? || e.Unresolved?
    ensures st.root.code == 200 || st.root.code == 500
  {
    History.ReachableTells(env, service, header, schedule, st);
    RunStaysOk(env, Init(service, header), schedule);
    assert st.root.code == 500 <==> History.FaultAt(st.log, []);
    assert History.FaultAt(st.log, []) <==> exists e <- st.log :: e.Broken? || e.Unresolved?;
  }

  // ---------------------------------------------------------------- what every event satisfies

  /** Every call of every script names a defined service. */
  ghost predicate Closed(env: Env) {
    forall s <- env.scripts :: ClosedScript(env, env.scripts[s])
  }

  ghost predicate ClosedScript(env: Env, cmds: Script) {
    forall c <- Calls(cmds) :: c.serviceName in env.scripts
  }

  /** The transport keeps the trace headers `want` on every call. */
  ghost predicate Transparent(env: Env, want: Header) {
    forall path :: KeepsTrace(env.added(path), want)
  }

  ghost predicate EventOk(env: Env, want: Header, e: Event) {
    match e
    case Received(_, _, header) => Transparent(env, want) ==> Forward(header) == want
    case Sent(path, _, dest, _) => dest in env.scripts && env.fault(path).Reliable?
    case Responded(_, _, code) => code == 200 || code == 500
    case Broken(path, dest, delivered) =>
      dest in env.scripts && env.fault(path) == (if delivered then ResponseLost else Undelivered)
    case Unresolved(_, dest) => dest !in env.scripts && !Closed(env)
  }

  ghost predicate CarriesTask(env: Env, want: Header, t: Task)
    decreases t
  {
    match t
    case Ready(cmd) => Closed(env) ==> forall c <- CallsOf(cmd) :: c.serviceName in env.scripts
    case Waiting(_, _, callee) => CarriesFrame(env, want, callee)
    case Joining(members, _) => forall m <- members :: CarriesTask(env, want, m)
    case Done(_) => true
  }

  ghost predicate CarriesFrame(env: Env, want: Header, fr: Frame)
    decreases fr
  {
    match fr
    case Queued(_, header) => Transparent(env, want) ==> Forward(header) == want
    case Looping(_, header, _) => Transparent(env, want) ==> Forward(header) == want
    case Executing(_, header, _, task) =>
      (Transparent(env, want) ==> Forward(header) == want) && CarriesTask(env, want, task)
    case Replied(_, _) => true
  }

  lemma {:induction false} TaskEmitsOk(env: Env, path: Path, caller: string, header: Header, want: Header, t: Task,
                                       choice: seq<nat>)
    requires OkTask(env, path, t) && CarriesTask(env, want, t)
    requires Transparent(env, want) ==> Forward(header) == want
    requires StepTask(env, path, caller, Forward(header), t, choice).Some?
    ensures var (t', e) := StepTask(env, path, caller, Forward(header), t, choice).value;
            CarriesTask(env, want, t') && (e.Some? ==> EventOk(env, want, e.value))
    decreases t
  {
    match t
    case Ready(SleepCommand(_)) =>
    case Ready(RequestCommand(dest, _)) =>
      assert t.cmd in CallsOf(t.cmd);
    case Ready(ConcurrentCommand(members)) =>
      forall m | m in ReadyAll(members) ensures CarriesTask(env, want, m) {
        var i :| 0 <= i < |members| && m == ReadyAll(members)[i];
        CallsOfMember(members, i);
      }
    case Waiting(_, _, callee) =>
      if !callee.Replied? {
        FrameEmitsOk(env, path, want, callee, choice);
      }
    case Joining(members, _) =>
      if choice != [] && !members[choice[0]].Done? {
        TaskEmitsOk(env, path + [choice[0]], caller, header, want, members[choice[0]], choice[1..]);
      }
  }

  lemma {:induction false} FrameEmitsOk(env: Env, path: Path, want: Header, fr: Frame, choice: seq<nat>)
    requires OkFrame(env, path, fr) && CarriesFrame(env, want, fr) && StepFrame(env, path, fr, choice).Some?
    ensures var (fr', e) := StepFrame(env, path, fr, choice).value;
            CarriesFrame(env, want, fr') && (e.Some? ==> EventOk(env, want, e.value))
    decreases fr
  {
    match fr
    case Looping(service, header, pc) =>
      if pc < |ScriptOf(env, service)| {
        CallsOfMember(ScriptOf(env, service), pc);
      }
    case Executing(service, header, pc, task) =>
      if !task.Done? {
        TaskEmitsOk(env, path + [pc], service, header, want, task, choice);
      }
    case _ =>
  }

  lemma {:induction false} RunEmitsOk(env: Env, want: Header, st: State, schedule: seq<seq<nat>>)
    requires OkFrame(env, [], st.root) && CarriesFrame(env, want, st.root) && Run(env, st, schedule).Some?
    requires forall e <- st.log :: EventOk(env, want, e)
    ensures forall e <- Run(env, st, schedule).value.log :: EventOk(env, want, e)
    decreases schedule
  {
    if schedule != [] {
      FrameEmitsOk(env, [], want, st.root, schedule[0]);
      FrameStaysOk(env, [], st.root, schedule[0]);
      RunEmitsOk(env, want, Step(env, st, schedule[0]).value, schedule[1..]);
    }
  }

  /**
   Trace headers survive any call tree: at every point of every run, each request that was received,
   at any depth, carries exactly the root request's forwardable headers.
   */
  lemma HeadersReachEveryRequest(env: Env, service: string, header: Header, schedule: seq<seq<nat>>, st: State)
    requires Transparent(env, Forward(header))
    requires Run(env, Init(service, header), schedule) == Some(st)
    ensures forall e <- st.log :: e.Received? ==> Forward(e.header) == Forward(header)
  {
    RunEmitsOk(env, Forward(header), Init(service, header), schedule);
  }

  /** When every call names a defined service, the "does not exist" branch is unreachable. */
  lemma NothingUnresolved(env: Env, service: string, header: Header, schedule: seq<seq<nat>>, st: State)
    requires Closed(env)
    requires Run(env, Init(service, header), schedule) == Some(st)
    ensures forall e <- st.log :: !e.Unresolved?
    ensures forall e <- st.log :: e.Broken? ==> !env.fault(e.path).Reliable?
  {
    RunEmitsOk(env, Forward(header), Init(service, header), schedule);
  }

  /** On such graphs reliable transport makes every completed request answer 200. */
  lemma ReliableMeansOk(env: Env, service: string, header: Header, schedule: seq<seq<nat>>, st: State)
    requires Closed(env) && forall path :: env.fault(path).Reliable?
    requires Run(env, Init(service, header), schedule) == Some(st) && st.root.Replied?
    ensures st.root.code == 200
  {
    NothingUnresolved(env, service, header, schedule, st);
    StatusReflectsFaults(env, service, header, schedule, st);
  }

  // ---------------------------------------------------------------- conservation of the metrics

  function IncomingTo(d: string): Event -> bool {
    (e: Event) => e.Received? && e.service == d
  }

  function OutgoingTo(d: string): Event -> bool {
    (e: Event) => e.Sent? && e.dest == d
  }

  function SentBy(caller: string, dest: string): Event -> bool {
    (e: Event) => e.Sent? && e.caller == caller && e.dest == dest
  }

  function AnsweredBy(service: string, code: int): Event -> bool {
    (e: Event) => e.Responded? && e.service == service && e.code == code
  }

  function LostFrom(d: string): Event -> bool {
    (e: Event) => e.Broken? && e.dest == d && e.delivered
  }

  /** Calls to `d` that `d` has counted as received and whose caller has not counted them yet. */
  function OpenInTask(t: Task, d: string): nat
    decreases t, 0
  {
    match t
    case Ready(_) => 0
    case Waiting(dest, _, callee) =>
      (if dest == d && !callee.Queued? then 1 else 0) + OpenInFrame(callee, d)
    case Joining(members, _) => OpenInMembers(members, 0, d)
    case Done(_) => 0
  }

  function OpenInMembers(members: seq<Task>, k: nat, d: string): nat
    requires k <= |members|
    decreases members, |members| - k
  {
    if k == |members| then 0 else OpenInTask(members[k], d) + OpenInMembers(members, k + 1, d)
  }

  function OpenInFrame(fr: Frame, d: string): nat
    decreases fr, 0
  {
    if fr.Executing? then OpenInTask(fr.task, d) else 0
  }

  lemma {:induction false} OpenUpdate(members: seq<Task>, i: nat, m: Task, k: nat, d: string)
    requires i < |members| && k <= |members|
    ensures OpenInMembers(members[i := m], k, d)
         == OpenInMembers(members, k, d)
            + (if k <= i then OpenInTask(m, d) - OpenInTask(members[i], d) else 0)
    decreases |members| - k
  {
    if k < |members| {
      OpenUpdate(members, i, m, k + 1, d);
    }
  }

  lemma {:induction false} OpenNone(members: seq<Task>, k: nat, d: string)
    requires k <= |members| && forall m <- members :: m.Done? || m.Ready?
    ensures OpenInMembers(members, k, d) == 0
    decreases |members| - k
  {
    if k < |members| {
      OpenNone(members, k + 1, d);
    }
  }

  function Balance(e: Option<Event>, d: string): int {
    Tally(e, IncomingTo(d)) - Tally(e, OutgoingTo(d)) - Tally(e, LostFrom(d))
  }

  lemma {:induction false} TaskBalance(env: Env, path: Path, caller: string, h: Header, t: Task, choice: seq<nat>,
                                       d: string)
    requires OkTask(env, path, t) && StepTask(env, path, caller, h, t, choice).Some?
    ensures var (t', e) := StepTask(env, path, caller, h, t, choice).value;
            OpenInTask(t', d) - OpenInTask(t, d) == Balance(e, d)
    decreases t
  {
    match t
    case Ready(SleepCommand(_)) =>
    case Ready(RequestCommand(_, _)) =>
    case Ready(ConcurrentCommand(members)) => OpenNone(ReadyAll(members), 0, d);
    case Waiting(dest, _, callee) =>
      if !callee.Replied? {
        FrameBalance(env, path, callee, choice, d);
      }
    case Joining(members, join) =>
      if choice == [] {
        ErrorJoin.UnfinishedZero(join.phases);
        OpenNone(members, 0, d);
      } else if !members[choice[0]].Done? {
        var i := choice[0];
        TaskBalance(env, path + [i], caller, h, members[i], choice[1..], d);
        OpenUpdate(members, i, StepTask(env, path + [i], caller, h, members[i], choice[1..]).value.0, 0, d);
      }
  }

  lemma {:induction false} FrameBalance(env: Env, path: Path, fr: Frame, choice: seq<nat>, d: string)
    requires OkFrame(env, path, fr) && StepFrame(env, path, fr, choice).Some?
    ensures var (fr', e) := StepFrame(env, path, fr, choice).value;
            OpenInFrame(fr', d) - OpenInFrame(fr, d)
              == Balance(e, d) - (if fr.Queued? && fr.service == d then 1 else 0)
    decreases fr
  {
    if fr.Executing? && !fr.task.Done? {
      TaskBalance(env, path + [fr.pc], fr.service, Forward(fr.header), fr.task, choice, d);
    }
  }

  /** Requests to `d` that entered from outside: the root request, once it was received. */
  function External(root: Frame, d: string): nat {
    if root.service == d && !root.Queued? then 1 else 0
  }

  /** What `d` counted as incoming beyond what the rest of the state accounts for. */
  function Surplus(st: State, d: string): int {
    Count(st.log, IncomingTo(d)) - External(st.root, d) - Count(st.log, OutgoingTo(d)) - Count(st.log, LostFrom(d))
      - OpenInFrame(st.root, d)
  }

  lemma StepBalance(env: Env, st: State, choice: seq<nat>, d: string)
    requires OkFrame(env, [], st.root) && Step(env, st, choice).Some?
    ensures Surplus(Step(env, st, choice).value, d) == Surplus(st, d)
  {
    FrameBalance(env, [], st.root, choice, d);
    FrameStaysOk(env, [], st.root, choice);
    var e := StepFrame(env, [], st.root, choice).value.1;
  }

  lemma {:induction false} RunBalance(env: Env, st: State, schedule: seq<seq<nat>>, d: string)
    requires OkFrame(env, [], st.root) && Run(env, st, schedule).Some?
    ensures Surplus(Run(env, st, schedule).value, d) == Surplus(st, d)
    decreases schedule
  {
    if schedule != [] {
      StepBalance(env, st, schedule[0], d);
      FrameStaysOk(env, [], st.root, schedule[0]);
      RunBalance(env, Step(env, st, schedule[0]).value, schedule[1..], d);
    }
  }

  /**
   Metric conservation, at every reachable state: what `d` counted as incoming, less the external
   requests, is what all callers together counted as outgoing to `d`, plus the calls still open,
   plus the calls whose response the transport lost.
   */
  lemma IncomingMatchesOutgoing(env: Env, service: string, header: Header, schedule: seq<seq<nat>>, st: State,
                                d: string)
    requires Run(env, Init(service, header), schedule) == Some(st)
    ensures Count(st.log, IncomingTo(d))
         == External(st.root, d) + Count(st.log, OutgoingTo(d)) + OpenInFrame(st.root, d) + Count(st.log, LostFrom(d))
    ensures st.root.Replied? ==> OpenInFrame(st.root, d) == 0
    ensures (forall path :: env.fault(path).Reliable?) ==> Count(st.log, LostFrom(d)) == 0
  {
    RunBalance(env, Init(service, header), schedule, d);
    RunEmitsOk(env, Forward(header), Init(service, header), schedule);
    CountZero(st.log, LostFrom(d));
  }

  // ---------------------------------------------------------------- demand

  /** How often one request to `from` makes `target` be called, by the call structure alone. */
  function Demand(env: Env, depth: nat, from: string, target: string): nat
    decreases depth, 1
  {
    (if from == target then 1 else 0) + DemandOfCalls(env, depth, Calls(ScriptOf(env, from)), target)
  }

  function DemandOfCalls(env: Env, depth: nat, calls: seq<Request>, target: string): nat
    decreases depth, 0, |calls|
  {
    if calls == [] || depth == 0 then 0
    else Demand(env, depth - 1, calls[0].serviceName, target) + DemandOfCalls(env, depth, calls[1..], target)
  }

  lemma DemandConcat(env: Env, depth: nat, a: seq<Request>, b: seq<Request>, target: string)
    ensures DemandOfCalls(env, depth, a + b, target)
         == DemandOfCalls(env, depth, a, target) + DemandOfCalls(env, depth, b, target)
  {
    if a == [] {
      assert a + b == b;
    } else {
      assert (a + b)[1..] == a[1..] + b;
      DemandConcat(env, depth, a[1..], b, target);
    }
  }

  ghost predicate Dependable(env: Env) {
    Closed(env) && forall path :: env.fault(path).Reliable?
  }

  ghost predicate Meets(out: Out, demand: nat) {
    out.Out? ==> out.ok && out.count == demand
  }

  lemma {:induction false} CommandMeetsDemand(env: Env, depth: nat, path: Path, caller: string, h: Header, cmd: Command,
                                              target: string)
    requires Dependable(env) && forall c <- CallsOf(cmd) :: c.serviceName in env.scripts
    ensures Meets(EvalCommand(env, depth, path, caller, h, cmd, IncomingTo(target)),
                  DemandOfCalls(env, depth, CallsOf(cmd), target))
    decreases depth, 1, cmd, 0
  {
    match cmd
    case SleepCommand(_) =>
    case RequestCommand(dest, _) =>
      assert cmd in CallsOf(cmd);
      if depth > 0 {
        HandlerMeetsDemand(env, depth - 1, path, dest, h + env.added(path), target);
        assert [cmd][1..] == [];
      }
    case ConcurrentCommand(members) =>
      MembersMeetDemand(env, depth, path, caller, h, members, 0, target);
      assert members[0..] == members;
  }

  lemma {:induction false} MembersMeetDemand(env: Env, depth: nat, path: Path, caller: string, h: Header,
                                             cmds: seq<Command>, k: nat, target: string)
    requires Dependable(env) && k <= |cmds| && ClosedScript(env, cmds)
    ensures Meets(EvalMembers(env, depth, path, caller, h, cmds, k, IncomingTo(target)),
                  DemandOfCalls(env, depth, Calls(cmds[k..]), target))
    decreases depth, 1, cmds, |cmds| - k
  {
    if k == |cmds| {
      assert Calls(cmds[k..]) == [];
    } else {
      CallsOfMember(cmds, k);
      CommandMeetsDemand(env, depth, path + [k], caller, h, cmds[k], target);
      MembersMeetDemand(env, depth, path, caller, h, cmds, k + 1, target);
      CallsFrom(cmds, k);
      DemandConcat(env, depth, CallsOf(cmds[k]), Calls(cmds[k + 1..]), target);
    }
  }

  lemma {:induction false} StepsMeetDemand(env: Env, depth: nat, path: Path, service: string, header: Header, pc: nat,
                                           target: string)
    requires Dependable(env) && pc <= |ScriptOf(env, service)|
    ensures Meets(EvalSteps(env, depth, path, service, header, pc, IncomingTo(target)),
                  DemandOfCalls(env, depth, Calls(ScriptOf(env, service)[pc..]), target))
    decreases depth, 2, |ScriptOf(env, service)| - pc
  {
    var script := ScriptOf(env, service);
    if pc < |script| {
      CallsOfMember(script, pc);
      CommandMeetsDemand(env, depth, path + [pc], service, Forward(header), script[pc], target);
      StepsMeetDemand(env, depth, path, service, header, pc + 1, target);
      CallsFrom(script, pc);
      DemandConcat(env, depth, CallsOf(script[pc]), Calls(script[pc + 1..]), target);
    }
  }

  lemma {:induction false} HandlerMeetsDemand(env: Env, depth: nat, path: Path, service: string, header: Header,
                                              target: string)
    requires Dependable(env)
    ensures Meets(EvalHandler(env, depth, path, service, header, IncomingTo(target)),
                  Demand(env, depth, service, target))
    decreases depth, 3
  {
    StepsMeetDemand(env, depth, path, service, header, 0, target);
    assert ScriptOf(env, service)[0..] == ScriptOf(env, service);
  }

  // ---------------------------------------------------------------- acyclic graphs

  /** A rank that falls along every call: the explicit form of "the graph has no cycle". */
  ghost predicate Ranked(env: Env, rank: map<string, nat>) {
    forall s <- env.scripts :: s in rank && CallsBelow(env, rank, env.scripts[s], rank[s])
  }

  ghost predicate CallsBelow(env: Env, rank: map<string, nat>, cmds: Script, bound: nat) {
    forall c <- Calls(cmds) ::
      c.serviceName in env.scripts ==> c.serviceName in rank && rank[c.serviceName] < bound
  }

  lemma {:induction false} CommandIsDefined(env: Env, rank: map<string, nat>, depth: nat, path: Path, caller: string,
                                            h: Header, cmd: Command, p: Event -> bool)
    requires Ranked(env, rank)
    requires forall c <- CallsOf(cmd) :: c.serviceName in env.scripts ==> rank[c.serviceName] < depth
    ensures EvalCommand(env, depth, path, caller, h, cmd, p).Out?
    decreases depth, 1, cmd, 0
  {
    match cmd
    case SleepCommand(_) =>
    case RequestCommand(dest, _) =>
      assert cmd in CallsOf(cmd);
      if dest in env.scripts {
        HandlerIsDefined(env, rank, depth - 1, path, dest, h + env.added(path), p);
      }
    case ConcurrentCommand(members) =>
      MembersAreDefined(env, rank, depth, path, caller, h, members, 0, p);
  }

  lemma {:induction false} MembersAreDefined(env: Env, rank: map<string, nat>, depth: nat, path: Path, caller: string,
                                             h: Header, cmds: seq<Command>, k: nat, p: Event -> bool)
    requires Ranked(env, rank) && k <= |cmds|
    requires forall c <- Calls(cmds) :: c.serviceName in env.scripts ==> rank[c.serviceName] < depth
    ensures EvalMembers(env, depth, path, caller, h, cmds, k, p).Out?
    decreases depth, 1, cmds, |cmds| - k
  {
    if k < |cmds| {
      CallsOfMember(cmds, k);
      CommandIsDefined(env, rank, depth, path + [k], caller, h, cmds[k], p);
      MembersAreDefined(env, rank, depth, path, caller, h, cmds, k + 1, p);
    }
  }

  lemma {:induction false} StepsAreDefined(env: Env, rank: map<string, nat>, depth: nat, path: Path, service: string,
                                           header: Header, pc: nat, p: Event -> bool)
    requires Ranked(env, rank) && pc <= |ScriptOf(env, service)|
    requires service in env.scripts ==> rank[service] <= depth
    ensures EvalSteps(env, depth, path, service, header, pc, p).Out?
    decreases depth, 2, |ScriptOf(env, service)| - pc
  {
    var script := ScriptOf(env, service);
    if pc < |script| {
      CallsOfMember(script, pc);
      assert CallsBelow(env, rank, script, rank[service]);
      CommandIsDefined(env, rank, depth, path + [pc], service, Forward(header), script[pc], p);
      StepsAreDefined(env, rank, depth, path, service, header, pc + 1, p);
    }
  }

  /** On an acyclic graph the evaluation of a request is defined, whatever the transport does. */
  lemma {:induction false} HandlerIsDefined(env: Env, rank: map<string, nat>, depth: nat, path: Path, service: string,
                                            header: Header, p: Event -> bool)
    requires Ranked(env, rank)
    requires service in env.scripts ==> rank[service] <= depth
    ensures EvalHandler(env, depth, path, service, header, p).Out?
    decreases depth, 3
  {
    StepsAreDefined(env, rank, depth, path, service, header, 0, p);
  }

  /** Along a rank, the depth at which demand is taken stops mattering: it is a plain recursion. */
  lemma {:induction false} DemandStable(env: Env, rank: map<string, nat>, depth: nat, from: string, target: string)
    requires Closed(env) && Ranked(env, rank) && from in env.scripts && rank[from] <= depth
    ensures Demand(env, depth, from, target) == Demand(env, rank[from], from, target)
    decreases depth, 1
  {
    CallsStable(env, rank, depth, rank[from], Calls(env.scripts[from]), target);
  }

  lemma {:induction false} CallsStable(env: Env, rank: map<string, nat>, depth: nat, shallow: nat, calls: seq<Request>,
                                       target: string)
    requires Closed(env) && Ranked(env, rank) && shallow <= depth
    requires forall c <- calls :: c.serviceName in env.scripts && rank[c.serviceName] < shallow
    ensures DemandOfCalls(env, depth, calls, target) == DemandOfCalls(env, shallow, calls, target)
    decreases depth, 0, |calls|
  {
    if calls != [] {
      assert calls[0] in calls;
      DemandStable(env, rank, depth - 1, calls[0].serviceName, target);
      DemandStable(env, rank, shallow - 1, calls[0].serviceName, target);
      CallsStable(env, rank, depth, shallow, calls[1..], target);
    }
  }

  /**
   Exact request counts. On an acyclic graph whose calls are all defined, with reliable transport,
   at every point of every run the requests `target` has received plus those the machine state
   still demands add up to the structural demand; a completed run has delivered exactly that many.
   */
  lemma ExactRequestCounts(env: Env, rank: map<string, nat>, service: string, header: Header,
                           schedule: seq<seq<nat>>, st: State, target: string)
    requires Dependable(env) && Ranked(env, rank) && service in env.scripts
    requires Run(env, Init(service, header), schedule) == Some(st)
    ensures var rest := RestOfFrame(env, rank[service], [], st.root, IncomingTo(target));
            && rest.Out?
            && Count(st.log, IncomingTo(target)) + rest.count == Demand(env, rank[service], service, target)
            && (st.root.Replied? ==> rest.count == 0 && st.root.code == 200)
    ensures st.root.Replied? ==> Count(st.log, IncomingTo(target)) == Demand(env, rank[service], service, target)
  {
    var depth := rank[service];
    var st0 := Init(service, header);
    HandlerIsDefined(env, rank, depth, [], service, header, IncomingTo(target));
    HandlerMeetsDemand(env, depth, [], service, header, target);
    RunConserves(env, depth, st0, schedule, IncomingTo(target));
    if st.root.Replied? {
      ReliableMeansOk(env, service, header, schedule, st);
    }
  }

  /** On an acyclic graph every run is finite, never stuck, and can only end with the answer. */
  lemma AcyclicRunsTerminate(env: Env, rank: map<string, nat>, service: string, header: Header,
                             schedule: seq<seq<nat>>, st: State)
    requires Ranked(env, rank) && service in env.scripts
    requires Run(env, Init(service, header), schedule) == Some(st)
    ensures Terminates(env, service, header)
    ensures WithinWork(env, rank[service], service, header, |schedule|)
    ensures !st.root.Replied? ==> exists choice :: Step(env, st, choice).Some?
  {
    HandlerIsDefined(env, rank, rank[service], [], service, header, Nothing());
    assert Defined(env, rank[service], service, header);
    EveryRunTerminates(env, rank[service], service, header, schedule, st);
    if !st.root.Replied? {
      NeverStuck(env, service, header, schedule, st);
    }
  }
}
