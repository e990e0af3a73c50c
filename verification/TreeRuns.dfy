/** Running a generated topology: one request at svc-0 reaches every service exactly once. */
module TreeRuns {
  import opened Topology
  import opened Tree
  import opened TreeShape
  import opened Execution
  import opened Evaluation
  import opened ExecutorProperties
  import opened Refinement
  import CallGraph
  import PodSetup
  import Names

  // ---------------------------------------------------------------- ancestors under heap numbering

  /** 1 if service i is service t or one of its ancestors, else 0. */
  function Hits(branches: nat, i: nat, t: nat): nat
    decreases t
  {
    if t <= i then (if t == i then 1 else 0)
    else if branches == 0 then 0
    else Hits(branches, i, Parent(branches, t))
  }

  function SumHits(branches: nat, lo: nat, hi: nat, t: nat): nat
    decreases hi - lo
  {
    if lo >= hi then 0 else Hits(branches, lo, t) + SumHits(branches, lo + 1, hi, t)
  }

  lemma {:induction false} SumAbove(branches: nat, lo: nat, hi: nat, t: nat)
    requires t < lo
    ensures SumHits(branches, lo, hi, t) == 0
    decreases hi - lo
  {
    if lo < hi {
      SumAbove(branches, lo + 1, hi, t);
    }
  }

  lemma {:induction false} SumOne(branches: nat, lo: nat, hi: nat, t: nat)
    requires lo <= t < hi
    requires forall j | lo <= j < t :: Hits(branches, j, t) == 0
    ensures SumHits(branches, lo, hi, t) == 1
    decreases hi - lo
  {
    if lo == t {
      SumAbove(branches, lo + 1, hi, t);
    } else {
      SumOne(branches, lo + 1, hi, t);
    }
  }

  lemma {:induction false} SumSame(branches: nat, lo: nat, hi: nat, t: nat, q: nat)
    requires forall j | lo <= j < hi :: Hits(branches, j, t) == Hits(branches, j, q)
    ensures SumHits(branches, lo, hi, t) == SumHits(branches, lo, hi, q)
    decreases hi - lo
  {
    if lo < hi {
      SumSame(branches, lo + 1, hi, t, q);
    }
  }

  lemma SameParent(branches: nat, i: nat, q: nat, t: nat)
    requires FirstChild(branches, i) <= t < FirstChild(branches, i) + branches
    requires FirstChild(branches, q) <= t < FirstChild(branches, q) + branches
    ensures i == q
  {
    if i < q {
      FirstChildMonotonic(branches, i, q);
    } else if q < i {
      FirstChildMonotonic(branches, q, i);
    }
  }

  /** Service i reaches t through exactly one of its children, or through none. */
  lemma {:induction false} HitsThroughChildren(branches: nat, i: nat, t: nat)
    requires branches > 0 && i != t
    ensures Hits(branches, i, t) == SumHits(branches, FirstChild(branches, i), FirstChild(branches, i) + branches, t)
    decreases t
  {
    var lo, hi := FirstChild(branches, i), FirstChild(branches, i) + branches;
    if t < lo && t < i {
      SumAbove(branches, lo, hi, t);
    } else {
      var q := Parent(branches, t);
      if q == i {
        forall j | lo <= j < t ensures Hits(branches, j, t) == 0 {
        }
        SumOne(branches, lo, hi, t);
      } else {
        HitsThroughChildren(branches, i, q);
        if lo <= t < hi {
          SameParent(branches, i, q, t);
        }
        forall j | lo <= j < hi ensures Hits(branches, j, t) == Hits(branches, j, q) {
        }
        SumSame(branches, lo, hi, t, q);
      }
    }
  }

  lemma {:induction false} RootReachesAll(branches: nat, t: nat)
    requires branches > 0 || t == 0
    ensures Hits(branches, 0, t) == 1
    decreases t
  {
    if t > 0 {
      RootReachesAll(branches, Parent(branches, t));
    }
  }

  // ---------------------------------------------------------------- the executor on the tree

  ghost predicate DistinctNames(names: seq<string>) {
    forall i, j | 0 <= i < j < |names| :: names[i] != names[j]
  }

  /** The pods run the generated scripts. */
  ghost predicate RunsTree(env: Env, branches: nat, names: seq<string>) {
    && names != [] && DistinctNames(names) && Grows(branches, |names|)
    && env.scripts == PodSetup.ScriptsOf(TreeServices(branches, names))
  }

  lemma ScriptOfService(env: Env, branches: nat, names: seq<string>, i: nat)
    requires RunsTree(env, branches, names) && i < |names|
    ensures names[i] in env.scripts && CallsItsChildren(branches, names, TreeService(branches, names, i), i)
    ensures env.scripts[names[i]] == TreeService(branches, names, i).script
  {
    var services := TreeServices(branches, names);
    assert PodSetup.IsFirst(services, names[i], i);
    PodSetup.ScriptsOfFirst(services, names[i], i);
    assert GrowsAt(branches, |names|, i);
    ServiceCalls(branches, names, i);
  }

  lemma IndexOf(env: Env, branches: nat, names: seq<string>, s: string) returns (i: nat)
    requires RunsTree(env, branches, names) && s in env.scripts
    ensures i < |names| && names[i] == s
  {
    var services := TreeServices(branches, names);
    PodSetup.ScriptsOfNames(services, s);
    i :| i < |services| && services[i].name == s;
  }

  /** Services rank by their distance from the end of the output. */
  ghost function Rank(names: seq<string>): (rank: map<string, nat>)
    requires DistinctNames(names)
    ensures forall i | 0 <= i < |names| :: names[i] in rank && rank[names[i]] == |names| - i
  {
    map i | 0 <= i < |names| :: names[i] := |names| - i
  }

  /** Calls point forward in the output, so the topology has no cycle, and they are all defined. */
  lemma TreeIsRanked(env: Env, branches: nat, names: seq<string>)
    requires RunsTree(env, branches, names)
    ensures Ranked(env, Rank(names)) && Closed(env)
  {
    forall s | s in env.scripts
      ensures s in Rank(names) && CallsBelow(env, Rank(names), env.scripts[s], Rank(names)[s])
      ensures ClosedScript(env, env.scripts[s])
    {
      var i := IndexOf(env, branches, names, s);
      ScriptOfService(env, branches, names, i);
      forall c | c in Calls(env.scripts[s])
        ensures c.serviceName in env.scripts
        ensures c.serviceName in Rank(names) && Rank(names)[c.serviceName] < |names| - i
      {
        CallsPointForward(branches, names, i, c);
        var j :| i < j < |names| && c == RequestCommand(names[j], REQUEST_SIZE);
        ScriptOfService(env, branches, names, j);
      }
    }
  }

  /** A chain of calls from the root to service `t`. */
  lemma {:induction false} WalkFromRoot(env: Env, branches: nat, names: seq<string>, t: nat) returns (w: seq<string>)
    requires RunsTree(env, branches, names) && t < |names|
    ensures CallGraph.Walk(env, w) && w[0] == names[0] && w[|w| - 1] == names[t]
    decreases t
  {
    if t == 0 {
      w := [names[0]];
    } else {
      assert GrowsAt(branches, |names|, 0);
      var parent := Parent(branches, t);
      var front := WalkFromRoot(env, branches, names, parent);
      ParentCalls(env, branches, names, parent, t);
      w := front + [names[t]];
      forall i | 0 <= i < |w| - 1 ensures CallGraph.CallsService(env, w[i], w[i + 1]) {
        assert i < |front| - 1 ==> CallGraph.CallsService(env, front[i], front[i + 1]);
      }
    }
  }

  lemma ParentCalls(env: Env, branches: nat, names: seq<string>, parent: nat, t: nat)
    requires RunsTree(env, branches, names) && parent < t < |names|
    requires FirstChild(branches, parent) <= t < FirstChild(branches, parent) + branches
    ensures CallGraph.CallsService(env, names[parent], names[t])
  {
    ScriptOfService(env, branches, names, parent);
    assert GrowsAt(branches, |names|, parent);
    var group := Children(branches, names, parent);
    CallsOfScript(group);
    assert Requests(group)[t - FirstChild(branches, parent)].serviceName == names[t];
  }

  /** Every generated service is reachable from svc-0 through calls. */
  lemma EveryServiceReachable(env: Env, branches: nat, levels: nat, t: nat) returns (w: seq<string>)
    requires t < NumServices(branches, levels)
    requires env.scripts == PodSetup.ScriptsOf(TreeServices(branches, TreeNames(branches, levels)))
    ensures CallGraph.Walk(env, w) && w[0] == "svc-0" && w[|w| - 1] == TreeNames(branches, levels)[t]
  {
    RunsTreeNames(env, branches, levels);
    RootIsEntrypoint(branches, levels);
    w := WalkFromRoot(env, branches, TreeNames(branches, levels), t);
  }

  lemma HitsByCreation(branches: nat, total: nat, i: nat, t: nat)
    requires i < total && t < total && GrowsAt(branches, total, i)
    ensures Hits(branches, i, t)
         == (if i == t then 1 else 0)
            + SumHits(branches, Created(branches, total, i), Created(branches, total, i + 1), t)
  {
    var first := FirstChild(branches, i);
    if branches == 0 {
      FirstChildIs(branches, i);
    }
    if i == t {
      SumAbove(branches, Created(branches, total, i), Created(branches, total, i + 1), t);
    } else {
      HitsThroughChildren(branches, i, t);
      if first >= total {
        SumAbove(branches, first, first + branches, t);
      }
    }
  }

  lemma {:induction false} DemandIsHits(env: Env, branches: nat, names: seq<string>, depth: nat, i: nat, t: nat)
    requires RunsTree(env, branches, names) && i < |names| && t < |names| && depth >= |names| - i
    ensures Demand(env, depth, names[i], names[t]) == Hits(branches, i, t)
    decreases |names| - i, 1, 0
  {
    ScriptOfService(env, branches, names, i);
    assert GrowsAt(branches, |names|, i);
    assert (names[i] == names[t]) <==> i == t;
    HitsByCreation(branches, |names|, i, t);
    var before, after := Created(branches, |names|, i), Created(branches, |names|, i + 1);
    DemandOfChildren(env, branches, names, depth, i, before, after, t);
    assert Calls(ScriptOf(env, names[i])) == Requests(names[before..after]);
  }

  lemma {:induction false} DemandOfChildren(env: Env, branches: nat, names: seq<string>, depth: nat, i: nat,
                                            lo: nat, hi: nat, t: nat)
    requires RunsTree(env, branches, names) && i < lo <= hi <= |names| && t < |names| && depth >= |names| - i
    ensures DemandOfCalls(env, depth, Requests(names[lo..hi]), names[t]) == SumHits(branches, lo, hi, t)
    decreases |names| - i, 0, hi - lo
  {
    if lo < hi {
      assert Requests(names[lo..hi])[1..] == Requests(names[lo + 1..hi]);
      DemandIsHits(env, branches, names, depth - 1, lo, t);
      DemandOfChildren(env, branches, names, depth, i, lo + 1, hi, t);
    }
  }

  lemma RunsTreeNames(env: Env, branches: nat, levels: nat)
    requires levels > 0
    requires env.scripts == PodSetup.ScriptsOf(TreeServices(branches, TreeNames(branches, levels)))
    ensures RunsTree(env, branches, TreeNames(branches, levels))
  {
    var names := TreeNames(branches, levels);
    TreeGrows(branches, levels);
    forall i, j | 0 <= i < j < |names| ensures names[i] != names[j] {
      if names[i] == names[j] {
        NamesDistinct(branches, levels, i, j);
        assert false;
      }
    }
  }

  lemma TreeDemand(env: Env, branches: nat, names: seq<string>, t: nat)
    requires RunsTree(env, branches, names) && t < |names|
    ensures Demand(env, |names|, names[0], names[t]) == 1
  {
    DemandIsHits(env, branches, names, |names|, 0, t);
    assert GrowsAt(branches, |names|, 0);
    RootReachesAll(branches, t);
  }

  lemma RankedRunsTerminate(env: Env, rank: map<string, nat>, root: string, n: nat, header: Header,
                            schedule: seq<seq<nat>>, st: State)
    requires Ranked(env, rank) && root in env.scripts && rank[root] == n
    requires Run(env, Init(root, header), schedule) == Some(st)
    ensures Terminates(env, root, header) && WithinWork(env, n, root, header, |schedule|)
    ensures !st.root.Replied? ==> exists choice :: Step(env, st, choice).Some?
  {
    AcyclicRunsTerminate(env, rank, root, header, schedule, st);
  }

  lemma RootRank(env: Env, branches: nat, names: seq<string>)
    requires RunsTree(env, branches, names)
    ensures names[0] in env.scripts && names[0] in Rank(names) && Rank(names)[names[0]] == |names|
  {
    ScriptOfService(env, branches, names, 0);
  }

  /** Runs from the root are bounded, whatever the transport does. */
  lemma TreeTerminates(env: Env, branches: nat, names: seq<string>, header: Header, schedule: seq<seq<nat>>, st: State)
    requires RunsTree(env, branches, names)
    requires Run(env, Init(names[0], header), schedule) == Some(st)
    ensures Terminates(env, names[0], header)
    ensures WithinWork(env, |names|, names[0], header, |schedule|)
    ensures !st.root.Replied? ==> exists choice :: Step(env, st, choice).Some?
  {
    TreeIsRanked(env, branches, names);
    RootRank(env, branches, names);
    RankedRunsTerminate(env, Rank(names), names[0], |names|, header, schedule, st);
  }

  lemma OneRequestEach(env: Env, branches: nat, names: seq<string>, header: Header, schedule: seq<seq<nat>>, st: State,
                       t: nat)
    requires RunsTree(env, branches, names) && t < |names|
    requires forall path :: env.fault(path).Reliable?
    requires Run(env, Init(names[0], header), schedule) == Some(st) && st.root.Replied?
    ensures st.root.code == 200 && Count(st.log, IncomingTo(names[t])) == 1
  {
    TreeIsRanked(env, branches, names);
    ScriptOfService(env, branches, names, 0);
    ReliableMeansOk(env, names[0], header, schedule, st);
    ExactRequestCounts(env, Rank(names), names[0], header, schedule, st, names[t]);
    TreeDemand(env, branches, names, t);
  }

  /**
   The composition: for any number of branches and levels, with reliable transport, one request at
   the generated entrypoint completes under every schedule: some schedule answers it, no schedule is
   longer than the evaluation's work, and no state without an answer is stuck. The answer is 200, and
   by then every generated service has received exactly one request.
   */
  lemma OneRequestPerService(env: Env, branches: nat, levels: nat, header: Header, schedule: seq<seq<nat>>, st: State,
                             t: nat)
    requires levels > 0 && t < NumServices(branches, levels)
    requires env.scripts == PodSetup.ScriptsOf(TreeServices(branches, TreeNames(branches, levels)))
    requires forall path :: env.fault(path).Reliable?
    requires Run(env, Init("svc-0", header), schedule) == Some(st)
    ensures Terminates(env, "svc-0", header)
    ensures WithinWork(env, NumServices(branches, levels), "svc-0", header, |schedule|)
    ensures !st.root.Replied? ==> exists choice :: Step(env, st, choice).Some?
    ensures st.root.Replied? ==>
              st.root.code == 200 && Count(st.log, IncomingTo(TreeNames(branches, levels)[t])) == 1
  {
    RunsTreeNames(env, branches, levels);
    RootIsEntrypoint(branches, levels);
    TreeTerminates(env, branches, TreeNames(branches, levels), header, schedule, st);
    if st.root.Replied? {
      OneRequestEach(env, branches, TreeNames(branches, levels), header, schedule, st, t);
    }
  }

  lemma RootIsEntrypoint(branches: nat, levels: nat)
    requires NumServices(branches, levels) > 0
    ensures TreeNames(branches, levels)[0] == "svc-0"
  {
    TreeLayout(branches, Names.Decimal, NumServices(branches, levels));
  }
}
