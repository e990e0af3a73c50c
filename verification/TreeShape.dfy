/** The shape of the generated topology: names, levels, who calls whom. */
module TreeShape {
  import opened Topology
  import opened Names
  import opened Tree
  import Validation

  const REQUEST_SIZE := 128
  const RESPONSE_SIZE := 128
  const NUM_REPLICAS := 1

  function Requests(names: seq<string>): (cmds: seq<Request>)
    ensures |cmds| == |names| && forall i | 0 <= i < |names| :: cmds[i] == RequestCommand(names[i], REQUEST_SIZE)
  {
    seq(|names|, i requires 0 <= i < |names| => RequestCommand(names[i], REQUEST_SIZE))
  }

  /** The script of a service that calls `group`: one step, one concurrent group. */
  function ScriptFor(group: seq<string>): Script {
    if group == [] then [] else [ConcurrentCommand(Requests(group))]
  }

  function TreeService(branches: nat, names: seq<string>, i: nat): Service
    requires i < |names|
  {
    Service(names[i], ServiceHTTP, NUM_REPLICAS, i == 0, 0.0, RESPONSE_SIZE, ScriptFor(Children(branches, names, i)))
  }

  /** The generated service graph, with the defaults of the generated file applied. */
  function TreeServices(branches: nat, names: seq<string>): (services: seq<Service>)
    ensures |services| == |names|
    ensures forall i | 0 <= i < |names| :: services[i] == TreeService(branches, names, i)
  {
    seq(|names|, i requires 0 <= i < |names| => TreeService(branches, names, i))
  }

  function TreeNames(branches: nat, levels: nat): (names: seq<string>)
    ensures |names| == NumServices(branches, levels)
  {
    AllNames(branches, NumServices(branches, levels))
  }

  // ---------------------------------------------------------------- names

  lemma {:induction false} PathInjective(branches: nat, i: nat, j: nat)
    requires branches > 0 && PathOf(branches, i) == PathOf(branches, j)
    ensures i == j
    decreases i
  {
    var p, q := PathOf(branches, i), PathOf(branches, j);
    if i > 0 {
      var m, n := Parent(branches, i), Parent(branches, j);
      assert p[..|p| - 1] == PathOf(branches, m) && q[..|q| - 1] == PathOf(branches, n);
      PathInjective(branches, m, n);
      assert p[|p| - 1] == i - FirstChild(branches, m) && q[|q| - 1] == j - FirstChild(branches, n);
    }
  }

  /** A child is named after its parent: a dash, and the text of its position among its siblings. */
  ghost predicate NamedAfter(str: nat -> string, names: seq<string>, child: nat, parent: nat, c: nat) {
    child < |names| && parent < |names| ==> names[child] == names[parent] + "-" + str(c)
  }

  lemma ChildIsNamed(branches: nat, str: nat -> string, paths: seq<seq<nat>>, i: nat, c: nat)
    requires forall path <- paths :: path != []
    requires PathExtends(branches, paths, i, c) && c < branches
    ensures NamedAfter(str, ServiceNames(Labels(str, paths)), FirstChild(branches, i) + c, i, c)
  {
    if FirstChild(branches, i) + c < |paths| {
      assert paths[i] in paths;
      StringsOfChild(str, paths[i], c);
      OneMorePart(Strings(str, paths[i]), str(c));
    }
  }

  lemma TreeIsNamed(branches: nat, str: nat -> string, total: nat, i: nat, c: nat)
    requires c < branches
    ensures NamedAfter(str, ServiceNames(Labels(str, AllPaths(branches, total))), FirstChild(branches, i) + c, i, c)
  {
    ChildPathExtends(branches, total, i, c);
    ChildIsNamed(branches, str, AllPaths(branches, total), i, c);
  }

  lemma RootIsNamed(branches: nat, total: nat)
    requires total > 0
    ensures AllNames(branches, total)[0] == "svc-0"
  {
    PathAt(branches, total, 0, [0]);
    RootName(Decimal);
  }

  /**
   What the names are: below the root svc-0, the name of a child is that of its parent, a dash, and the
   decimal numeral of its position among its siblings, counted from zero.
   */
  lemma NamesFollowTheTree(branches: nat, levels: nat, i: nat, c: nat)
    requires c < branches && FirstChild(branches, i) + c < NumServices(branches, levels)
    ensures NamedAfter(Decimal, TreeNames(branches, levels), FirstChild(branches, i) + c, i, c)
    ensures IsNumeral(Decimal(c)) && Value(Decimal(c)) == c
  {
    TreeIsNamed(branches, Decimal, NumServices(branches, levels), i, c);
    DecimalReads(c);
  }

  /** Generated names are pairwise distinct. */
  lemma NamesDistinct(branches: nat, levels: nat, i: nat, j: nat)
    requires i < NumServices(branches, levels) && j < NumServices(branches, levels)
    requires TreeNames(branches, levels)[i] == TreeNames(branches, levels)[j]
    ensures i == j
  {
    NameInjective(PathOf(branches, i), PathOf(branches, j));
    if branches == 0 {
      RootAndSubtrees(branches, levels - 1);
    } else {
      PathInjective(branches, i, j);
    }
  }

  // ---------------------------------------------------------------- levels

  lemma {:induction false} LevelBounds(branches: nat, i: nat, level: nat)
    requires branches > 0
    requires NumServices(branches, level) <= i < NumServices(branches, level + 1)
    ensures |PathOf(branches, i)| == level + 1
    decreases level
  {
    if level > 0 {
      var parent := Parent(branches, i);
      ChildrenFillTheTree(branches, level - 1);
      ChildrenFillTheTree(branches, level);
      var low, high := NumServices(branches, level - 1), NumServices(branches, level);
      if parent < low {
        FirstChildMonotonic(branches, parent, low);
      }
      if parent >= high {
        FirstChildMonotonic(branches, high, parent);
      }
      LevelBounds(branches, parent, level - 1);
    }
  }

  lemma {:induction false} LevelOf(branches: nat, levels: nat, i: nat) returns (level: nat)
    requires i < NumServices(branches, levels)
    ensures level < levels && NumServices(branches, level) <= i < NumServices(branches, level + 1)
  {
    if i >= NumServices(branches, levels - 1) {
      level := levels - 1;
    } else {
      level := LevelOf(branches, levels - 1, i);
    }
  }

  /**
   Level k is the index range from NumServices(k) up to NumServices(k + 1): it holds exactly
   branches**k services, their paths have length k + 1, and no path is longer than `levels`.
   */
  lemma Levels(branches: nat, levels: nat, i: nat, k: nat)
    requires i < NumServices(branches, levels) && k < levels
    ensures |PathOf(branches, i)| == k + 1 <==> NumServices(branches, k) <= i < NumServices(branches, k + 1)
    ensures NumServices(branches, k + 1) - NumServices(branches, k) == Pow(branches, k)
    ensures |PathOf(branches, i)| <= levels
  {
    if branches == 0 {
      RootAndSubtrees(branches, levels - 1);
      RootAndSubtrees(branches, k);
      if k > 0 {
        RootAndSubtrees(branches, k - 1);
      }
    } else {
      var level := LevelOf(branches, levels, i);
      LevelBounds(branches, i, level);
      if NumServices(branches, k) <= i < NumServices(branches, k + 1) {
        LevelBounds(branches, i, k);
      }
    }
  }

  // ---------------------------------------------------------------- calls

  /** The calls of the first `n` services, in output order. */
  function CallsUpTo(services: seq<Service>, n: nat): seq<Request>
    requires n <= |services|
  {
    if n == 0 then [] else CallsUpTo(services, n - 1) + Calls(services[n - 1].script)
  }

  lemma {:induction false} CallsOfRequests(names: seq<string>)
    ensures Calls(Requests(names)) == Requests(names)
  {
    if names != [] {
      assert Requests(names)[1..] == Requests(names[1..]);
      CallsOfRequests(names[1..]);
      assert Requests(names) == [Requests(names)[0]] + Requests(names)[1..];
    }
  }

  lemma CallsOfScript(group: seq<string>)
    ensures Calls(ScriptFor(group)) == Requests(group)
  {
    CallsOfRequests(group);
    if group != [] {
      assert ScriptFor(group)[1..] == [];
      assert Requests(group) + [] == Requests(group);
    }
  }

  ghost predicate Grows(branches: nat, total: nat) {
    forall n: nat | n < total :: GrowsAt(branches, total, n)
  }

  lemma TreeGrows(branches: nat, levels: nat)
    ensures Grows(branches, NumServices(branches, levels))
    ensures levels > 0 ==> NumServices(branches, levels) > 0
  {
    forall n: nat | n < NumServices(branches, levels) ensures GrowsAt(branches, NumServices(branches, levels), n) {
      QueueGrows(branches, levels, n);
    }
    if levels > 0 {
      RootAndSubtrees(branches, levels - 1);
    }
  }

  /** Service `n` calls exactly the services that are created when it is taken from the queue. */
  ghost predicate CallsItsChildren(branches: nat, names: seq<string>, service: Service, n: nat) {
    var before, after := Created(branches, |names|, n), Created(branches, |names|, n + 1);
    1 <= before <= after <= |names| && Calls(service.script) == Requests(names[before..after])
  }

  lemma ServiceCalls(branches: nat, names: seq<string>, n: nat)
    requires n < |names| && GrowsAt(branches, |names|, n)
    ensures CallsItsChildren(branches, names, TreeService(branches, names, n), n)
  {
    var group := Children(branches, names, n);
    CallsOfScript(group);
    assert group == names[Created(branches, |names|, n)..Created(branches, |names|, n + 1)];
  }

  lemma OneMoreService(services: seq<Service>, n: nat, names: seq<string>, before: nat, after: nat)
    requires n < |services| && 1 <= before <= after <= |names|
    requires CallsUpTo(services, n) == Requests(names[1..before])
    requires Calls(services[n].script) == Requests(names[before..after])
    ensures CallsUpTo(services, n + 1) == Requests(names[1..after])
  {
    assert names[1..before] + names[before..after] == names[1..after];
  }

  lemma {:induction false} CallsSoFar(branches: nat, names: seq<string>, services: seq<Service>, n: nat)
    requires names != [] && n <= |names| == |services|
    requires forall i: nat | i < |names| :: CallsItsChildren(branches, names, services[i], i)
    ensures 1 <= Created(branches, |names|, n) <= |names|
    ensures CallsUpTo(services, n) == Requests(names[1..Created(branches, |names|, n)])
  {
    if n > 0 {
      CallsSoFar(branches, names, services, n - 1);
      assert CallsItsChildren(branches, names, services[n - 1], n - 1);
      OneMoreService(services, n - 1, names, Created(branches, |names|, n - 1), Created(branches, |names|, n));
    }
  }

  /**
   All calls of the topology, in output order, are the names of services 1, 2, 3, ...: with
   NamesDistinct, every service but the root is called exactly once and the root is never called.
   */
  lemma EveryNonRootCalledOnce(branches: nat, levels: nat)
    requires levels > 0
    ensures var names := TreeNames(branches, levels);
            names != [] && CallsUpTo(TreeServices(branches, names), |names|) == Requests(names[1..])
  {
    TreeGrows(branches, levels);
    AllCallsAre(branches, TreeNames(branches, levels));
  }

  lemma AllCallsAre(branches: nat, names: seq<string>)
    requires names != [] && Grows(branches, |names|)
    ensures CallsUpTo(TreeServices(branches, names), |names|) == Requests(names[1..])
  {
    var total, services := |names|, TreeServices(branches, names);
    forall i: nat | i < total ensures CallsItsChildren(branches, names, services[i], i) {
      ServiceCalls(branches, names, i);
    }
    CallsSoFar(branches, names, services, total);
    assert GrowsAt(branches, total, total - 1);
    assert names[1..total] == names[1..];
  }

  /** A service only calls services that come later in the output. */
  lemma CallsPointForward(branches: nat, names: seq<string>, i: nat, c: Command)
    requires i < |names| && Grows(branches, |names|)
    requires c in Calls(TreeService(branches, names, i).script)
    ensures exists j :: i < j < |names| && c == RequestCommand(names[j], REQUEST_SIZE)
  {
    var group := Children(branches, names, i);
    CallsOfScript(group);
    var k :| 0 <= k < |group| && c == Requests(group)[k];
    var j := FirstChild(branches, i) + k;
    assert GrowsAt(branches, |names|, i);
    assert i < j < |names| && c == RequestCommand(names[j], REQUEST_SIZE);
  }

  lemma ServiceValid(branches: nat, names: seq<string>, i: nat)
    requires Grows(branches, |names|) && i < |names|
    ensures var services := TreeServices(branches, names);
            Validation.CallsIn(services[i].script, Validation.Names(services)) && Validation.Flat(services[i].script)
  {
    var services := TreeServices(branches, names);
    forall c | c in Calls(services[i].script) ensures c.serviceName in Validation.Names(services) {
      CallsPointForward(branches, names, i, c);
      var j :| i < j < |names| && c == RequestCommand(names[j], REQUEST_SIZE);
      assert services[j] in services && services[j].name == names[j];
    }
  }

  lemma ServicesValid(branches: nat, names: seq<string>)
    requires Grows(branches, |names|)
    ensures Validation.Valid(TreeServices(branches, names))
  {
    var services := TreeServices(branches, names);
    forall s | s in services
      ensures Validation.CallsIn(s.script, Validation.Names(services)) && Validation.Flat(s.script)
    {
      var i :| 0 <= i < |services| && s == services[i];
      ServiceValid(branches, names, i);
    }
  }

  /** Every generated topology passes validation. */
  lemma TreeIsValid(branches: nat, levels: nat)
    ensures Validation.Valid(TreeServices(branches, TreeNames(branches, levels)))
  {
    TreeGrows(branches, levels);
    ServicesValid(branches, TreeNames(branches, levels));
  }
}
