/** What validation means for the pods that run a parsed graph, and what it leaves open: cycles. */
module Deployment {
  import opened Topology
  import opened Execution
  import opened Evaluation
  import opened Refinement
  import opened ExecutorProperties
  import opened CallGraph
  import Decoding
  import History
  import Json
  import Parsing
  import PodSetup
  import RoundTrip
  import Validation

  lemma {:induction false} ScriptFromGraph(services: seq<Service>, name: string) returns (i: nat)
    requires name in PodSetup.ScriptsOf(services)
    ensures i < |services| && PodSetup.ScriptsOf(services)[name] == services[i].script
  {
    if services[0].name == name {
      i := 0;
    } else {
      var k := ScriptFromGraph(services[1..], name);
      i := k + 1;
    }
  }

  /** On a valid graph every call that a pod can meet names a service that it knows. */
  lemma ValidMeansClosed(services: seq<Service>, env: Env)
    requires Validation.Valid(services) && env.scripts == PodSetup.ScriptsOf(services)
    ensures Closed(env)
  {
    forall s | s in env.scripts ensures ClosedScript(env, env.scripts[s]) {
      var i := ScriptFromGraph(services, s);
      assert services[i] in services;
      assert Validation.CallsIn(services[i].script, Validation.Names(services));
      forall c | c in Calls(env.scripts[s]) ensures c.serviceName in env.scripts {
        PodSetup.ScriptsOfNames(services, c.serviceName);
      }
    }
  }

  /**
   Whatever document the pods parsed, the "does not exist" branch is unreachable, and with reliable
   transport every answer of every handler is 200, whether or not the root request completes.
   */
  lemma ParsedGraphRuns(codec: Json.Codec, amb: Decoding.Ambient, j: Json.Json, services: seq<Service>, env: Env,
                        service: string, header: Header, schedule: seq<seq<nat>>, st: State)
    requires Parsing.Parse(codec, amb, j) == Topology.Ok(services)
    requires env.scripts == PodSetup.ScriptsOf(services)
    requires Run(env, Init(service, header), schedule) == Some(st)
    ensures forall e <- st.log :: !e.Unresolved?
    ensures (forall path :: env.fault(path).Reliable?) && st.root.Replied? ==> st.root.code == 200
    ensures (forall path :: env.fault(path).Reliable?) ==> forall d <- st.log :: d.Responded? ==> d.code == 200
  {
    RoundTrip.ParsedIsWellTyped(codec, amb, j);
    ValidMeansClosed(services, env);
    NothingUnresolved(env, service, header, schedule, st);
    if forall path :: env.fault(path).Reliable? {
      forall d | d in st.log && d.Responded? ensures d.code == 200 {
        var _ := History.EveryAnswer(env, service, header, schedule, st, d);
      }
    }
    if (forall path :: env.fault(path).Reliable?) && st.root.Replied? {
      ReliableMeansOk(env, service, header, schedule, st);
    }
  }

  // ---------------------------------------------------------------- which requests are answered

  /** The calls of each of the commands are bounded. */
  ghost predicate EachBounded(env: Env, depth: nat, cmds: Script, k: nat) {
    forall i | k <= i < |cmds| :: CallsBounded(env, depth, CallsOf(cmds[i]))
  }

  lemma {:induction false} EachIsAll(env: Env, depth: nat, cmds: Script)
    ensures EachBounded(env, depth, cmds, 0) <==> CallsBounded(env, depth, Calls(cmds))
  {
    if cmds != [] {
      var first, rest := CallsOf(cmds[0]), Calls(cmds[1..]);
      EachIsAll(env, depth, cmds[1..]);
      assert forall i | 0 <= i < |cmds[1..]| :: cmds[1..][i] == cmds[i + 1];
      assert EachBounded(env, depth, cmds, 0) <==>
             CallsBounded(env, depth, first) && EachBounded(env, depth, cmds[1..], 0) by {
        if EachBounded(env, depth, cmds, 0) {
          forall i | 0 <= i < |cmds[1..]| ensures CallsBounded(env, depth, CallsOf(cmds[1..][i])) {
            assert CallsBounded(env, depth, CallsOf(cmds[i + 1]));
          }
        } else {
          var i :| 0 <= i < |cmds| && !CallsBounded(env, depth, CallsOf(cmds[i]));
          assert i > 0 ==> !CallsBounded(env, depth, CallsOf(cmds[1..][i - 1]));
        }
      }
      assert forall c <- first :: c in first + rest;
      assert forall c <- rest :: c in first + rest;
    }
  }

  lemma {:induction false} CommandIffBounded(env: Env, depth: nat, path: Path, caller: string, h: Header, cmd: Command,
                                             p: Event -> bool)
    requires Dependable(env) && forall c <- CallsOf(cmd) :: c.serviceName in env.scripts
    ensures var out := EvalCommand(env, depth, path, caller, h, cmd, p);
            (out.Out? <==> CallsBounded(env, depth, CallsOf(cmd))) && (out.Out? ==> out.ok)
    decreases depth, 1, cmd, 0
  {
    match cmd
    case SleepCommand(_) =>
    case RequestCommand(dest, _) =>
      assert CallsOf(cmd) == [cmd] && cmd in CallsOf(cmd);
      if depth > 0 {
        HandlerIffBounded(env, depth - 1, path, dest, h + env.added(path), p);
      }
    case ConcurrentCommand(members) =>
      MembersIffBounded(env, depth, path, caller, h, members, 0, p);
      EachIsAll(env, depth, members);
  }

  lemma {:induction false} MembersIffBounded(env: Env, depth: nat, path: Path, caller: string, h: Header,
                                             cmds: seq<Command>, k: nat, p: Event -> bool)
    requires Dependable(env) && k <= |cmds| && ClosedScript(env, cmds)
    ensures var out := EvalMembers(env, depth, path, caller, h, cmds, k, p);
            (out.Out? <==> EachBounded(env, depth, cmds, k)) && (out.Out? ==> out.ok)
    decreases depth, 1, cmds, |cmds| - k
  {
    if k < |cmds| {
      CallsOfMember(cmds, k);
      CommandIffBounded(env, depth, path + [k], caller, h, cmds[k], p);
      MembersIffBounded(env, depth, path, caller, h, cmds, k + 1, p);
    }
  }

  lemma {:induction false} StepsIffBounded(env: Env, depth: nat, path: Path, service: string, header: Header, pc: nat,
                                           p: Event -> bool)
    requires Dependable(env) && pc <= |ScriptOf(env, service)|
    ensures var out := EvalSteps(env, depth, path, service, header, pc, p);
            (out.Out? <==> EachBounded(env, depth, ScriptOf(env, service), pc)) && (out.Out? ==> out.ok)
    decreases depth, 2, |ScriptOf(env, service)| - pc
  {
    var script := ScriptOf(env, service);
    if pc < |script| {
      assert ClosedScript(env, script);
      CallsOfMember(script, pc);
      CommandIffBounded(env, depth, path + [pc], service, Forward(header), script[pc], p);
      StepsIffBounded(env, depth, path, service, header, pc + 1, p);
    }
  }

  lemma {:induction false} HandlerIffBounded(env: Env, depth: nat, path: Path, service: string, header: Header,
                                             p: Event -> bool)
    requires Dependable(env)
    ensures var out := EvalHandler(env, depth, path, service, header, p);
            (out.Out? <==> Bounded(env, depth, service)) && (out.Out? ==> out.ok)
    decreases depth, 3
  {
    StepsIffBounded(env, depth, path, service, header, 0, p);
    EachIsAll(env, depth, ScriptOf(env, service));
  }

  lemma DefinedIffBounded(env: Env, depth: nat, service: string, header: Header)
    requires Dependable(env)
    ensures Defined(env, depth, service, header) <==> Bounded(env, depth, service)
  {
    HandlerIffBounded(env, depth, [], service, header, Nothing());
    assert EvalHandler(env, depth, [], service, header, Nothing()).Out? <==> Bounded(env, depth, service);
  }

  /**
   The exact condition for an answer. With defined calls and reliable transport, some schedule
   completes a request if and only if the chains of calls that start at its service are bounded.
   */
  lemma CompletesIffBounded(env: Env, service: string, header: Header)
    requires Dependable(env)
    ensures Completes(env, service, header) <==> exists depth: nat :: Bounded(env, depth, service)
  {
    CompletesIffEvalDefined(env, service, header);
    if Terminates(env, service, header) {
      var depth: nat :| Defined(env, depth, service, header);
      DefinedIffBounded(env, depth, service, header);
      assert Bounded(env, depth, service);
    }
    if exists depth: nat :: Bounded(env, depth, service) {
      var depth: nat :| Bounded(env, depth, service);
      DefinedIffBounded(env, depth, service, header);
      assert Defined(env, depth, service, header);
    }
  }

  /**
   The same condition on the graph: a request can complete if and only if no chain of calls from its
   service meets a service twice.
   */
  lemma CompletesIffNoLasso(env: Env, service: string, header: Header)
    requires Dependable(env) && service in env.scripts
    ensures Completes(env, service, header) <==> !exists w, i, j :: Lasso(env, service, w, i, j)
  {
    CompletesIffBounded(env, service, header);
    var n := |env.scripts.Keys|;
    if w, i, j :| Lasso(env, service, w, i, j) {
      forall depth: nat ensures !Bounded(env, depth, service) {
        LassoIsUnbounded(env, service, w, i, j, depth);
      }
    } else if !Bounded(env, n, service) {
      LassoOrBounded(env, service);
      assert false;
    } else {
      assert exists depth: nat :: Bounded(env, depth, service) by {
        assert Bounded(env, n, service);
      }
      assert Completes(env, service, header);
      assert !exists w, i, j :: Lasso(env, service, w, i, j);
    }
  }

  /** With reliable transport no request to a service on a cycle is ever answered. */
  lemma CyclesNeverAnswer(env: Env, cycle: seq<string>, i: nat, header: Header, schedule: seq<seq<nat>>, st: State)
    requires Dependable(env) && Cycle(env, cycle) && i < |cycle|
    requires Run(env, Init(cycle[i], header), schedule) == Some(st)
    ensures !st.root.Replied?
  {
    CompletesIffBounded(env, cycle[i], header);
    assert st.root.Replied? ==> CompletedBy(env, cycle[i], header, schedule);
    forall depth: nat ensures !Bounded(env, depth, cycle[i]) {
      CycleIsUnbounded(env, cycle, i, depth);
    }
  }

  /** Validation does accept such graphs: it is no promise of an answer. */
  lemma ValidationAllowsCycles()
    ensures exists services :: Validation.Valid(services) &&
              forall env: Env | env.scripts == PodSetup.ScriptsOf(services) :: exists cycle :: Cycle(env, cycle)
  {
    var call: Request := RequestCommand("a", 0);
    var services := [Service("a", ServiceHTTP, 1, false, 0.0, 0, [call])];
    assert [call][1..] == [] && CallsOf(call) == [call];
    assert Calls([call]) == [call];
    assert services[0] in services;
    assert "a" in Validation.Names(services);
    assert Validation.Valid(services);
    forall env: Env | env.scripts == PodSetup.ScriptsOf(services) ensures exists cycle :: Cycle(env, cycle) {
      assert call in Calls(ScriptOf(env, "a"));
      assert CallsService(env, "a", "a");
      var cycle := ["a", "a"];
      assert Walk(env, cycle) by {
        assert cycle[0] == "a" && cycle[1] == "a";
      }
      assert Cycle(env, cycle);
    }
  }
}
