/**
 The complete-tree generator: a breadth-first queue whose service records are completed after they
 have been appended to the output. The constants NUM_LEVELS and NUM_BRANCHES are the arbitrary
 naturals `levels` and `branches`.
 */
module Tree {
  import opened Topology
  import opened Names

  function Pow(b: nat, e: nat): nat {
    if e == 0 then 1 else b * Pow(b, e - 1)
  }

  /** sum([branches**i for i in range(levels)]) */
  function NumServices(branches: nat, levels: nat): nat {
    if levels == 0 then 0 else NumServices(branches, levels - 1) + Pow(branches, levels - 1)
  }

  /** Heap numbering: the children of service i are services FirstChild(i), FirstChild(i) + 1, ... */
  function FirstChild(branches: nat, i: nat): (child: nat)
    ensures child >= 1 && (branches > 0 ==> child > i)
  {
    if i == 0 then 1 else FirstChild(branches, i - 1) + branches
  }

  lemma {:induction false} FirstChildIs(branches: nat, i: nat)
    ensures FirstChild(branches, i) == branches * i + 1
  {
    if i > 0 {
      FirstChildIs(branches, i - 1);
      assert branches * i == branches * (i - 1) + branches;
    }
  }

  lemma {:induction false} FirstChildMonotonic(branches: nat, i: nat, j: nat)
    requires i <= j
    ensures FirstChild(branches, i) <= FirstChild(branches, j)
    ensures i < j ==> FirstChild(branches, i) + branches <= FirstChild(branches, j)
  {
    if i < j {
      FirstChildMonotonic(branches, i, j - 1);
    }
  }

  /** A tree is its root plus `branches` trees that are one level shorter. */
  lemma {:induction false} RootAndSubtrees(branches: nat, levels: nat)
    ensures NumServices(branches, levels + 1) == 1 + branches * NumServices(branches, levels)
  {
    if levels > 0 {
      RootAndSubtrees(branches, levels - 1);
      assert NumServices(branches, levels + 1)
          == 1 + branches * NumServices(branches, levels - 1) + branches * Pow(branches, levels - 1);
    }
  }

  /** Exactly the services of the tree without its last level have children. */
  lemma ChildrenFillTheTree(branches: nat, levels: nat)
    ensures FirstChild(branches, NumServices(branches, levels)) == NumServices(branches, levels + 1)
  {
    RootAndSubtrees(branches, levels);
    FirstChildIs(branches, NumServices(branches, levels));
  }

  /** A service whose children have not all been created yet still has room for all of them. */
  lemma NeverTruncated(branches: nat, levels: nat, i: nat)
    requires FirstChild(branches, i) < NumServices(branches, levels)
    ensures FirstChild(branches, i) + branches <= NumServices(branches, levels)
  {
    ChildrenFillTheTree(branches, levels - 1);
    var m := NumServices(branches, levels - 1);
    if i >= m {
      FirstChildMonotonic(branches, m, i);
    } else {
      FirstChildMonotonic(branches, i, m);
    }
  }

  /** (i - 1) / branches by repeated subtraction, for i > 0. */
  function Parent(branches: nat, i: nat): (parent: nat)
    requires branches > 0 && i > 0
    ensures parent < i
    ensures FirstChild(branches, parent) <= i < FirstChild(branches, parent) + branches
  {
    if i <= branches then 0 else Parent(branches, i - branches) + 1
  }

  /** The path from the root to service i, as the positions taken among siblings. */
  function PathOf(branches: nat, i: nat): (path: seq<nat>)
    ensures path != []
    ensures |path| == 1 <==> i == 0 || branches == 0
    decreases i
  {
    if i == 0 || branches == 0 then [0]
    else
      var parent := Parent(branches, i);
      PathOf(branches, parent) + [i - FirstChild(branches, parent)]
  }

  /** The paths of all services of the tree, in level order. */
  function AllPaths(branches: nat, total: nat): (paths: seq<seq<nat>>)
    ensures |paths| == total
  {
    seq(total, i requires 0 <= i < total => PathOf(branches, i))
  }

  function Labels(str: nat -> string, paths: seq<seq<nat>>): (labels: seq<seq<string>>)
    ensures |labels| == |paths|
    ensures forall i | 0 <= i < |paths| :: labels[i] == Strings(str, paths[i])
  {
    seq(|paths|, i requires 0 <= i < |paths| => Strings(str, paths[i]))
  }

  function ServiceNames(labels: seq<seq<string>>): (names: seq<string>)
    ensures |names| == |labels|
    ensures forall i | 0 <= i < |labels| :: names[i] == ServiceName(labels[i])
  {
    seq(|labels|, i requires 0 <= i < |labels| => ServiceName(labels[i]))
  }

  /** The names of all services of the tree, in level order. */
  function AllNames(branches: nat, total: nat): (names: seq<string>)
    ensures |names| == total
  {
    ServiceNames(Labels(Decimal, AllPaths(branches, total)))
  }

  /** The names service i calls in its only step, one concurrent group; none means: no script. */
  function Children(branches: nat, names: seq<string>, i: nat): (group: seq<string>)
    ensures group == [] || FirstChild(branches, i) + |group| <= |names|
    ensures forall k | 0 <= k < |group| :: group[k] == names[FirstChild(branches, i) + k]
  {
    var first := FirstChild(branches, i);
    if first + branches <= |names| then names[first..first + branches] else []
  }

  lemma ParentOfChild(branches: nat, i: nat, c: nat)
    requires c < branches
    ensures Parent(branches, FirstChild(branches, i) + c) == i
  {
    var parent := Parent(branches, FirstChild(branches, i) + c);
    if parent < i {
      FirstChildMonotonic(branches, parent, i);
    } else if i < parent {
      FirstChildMonotonic(branches, i, parent);
    }
  }

  lemma ChildPath(branches: nat, i: nat, c: nat)
    requires c < branches
    ensures PathOf(branches, FirstChild(branches, i) + c) == PathOf(branches, i) + [c]
  {
    ParentOfChild(branches, i, c);
  }

  /** A service as the script builds it: a dictionary that gets its script later. */
  class Record {
    const name: string
    const isEntrypoint: bool
    var script: Option<seq<seq<string>>>         // steps, each a group of called names

    constructor (name: string, isEntrypoint: bool)
      ensures this.name == name && this.isEntrypoint == isEntrypoint && script == None
    {
      this.name := name;
      this.isEntrypoint := isEntrypoint;
      script := None;
    }
  }

  /** _call_all */
  function CallAll(svcs: seq<Record>): (steps: seq<seq<string>>)
    ensures |steps| == 1 && |steps[0]| == |svcs| && forall i | 0 <= i < |svcs| :: steps[0][i] == svcs[i].name
  {
    [seq(|svcs|, i requires 0 <= i < |svcs| => svcs[i].name)]
  }

  /** Record `i` is as the complete tree wants it, once its script was set or `done` is false. */
  ghost predicate Completed(branches: nat, names: seq<string>, i: nat, r: Record, done: bool)
    requires i < |names|
    reads r
  {
    && r.name == names[i]
    && r.isEntrypoint == (i == 0)
    && r.script == if done && Children(branches, names, i) != [] then Some([Children(branches, names, i)]) else None
  }

  function Min(a: nat, b: nat): nat {
    if a < b then a else b
  }

  function Labelled(str: nat -> string, path: seq<string>, children: seq<Record>): seq<(Record, seq<string>)> {
    seq(|children|, c requires 0 <= c < |children| => (children[c], path + [str(c)]))
  }

  /** How many records exist when `n` of them have been taken from the queue. */
  function Created(branches: nat, total: nat, n: nat): nat {
    Min(FirstChild(branches, n), total)
  }

  /**
   Taking service `n` from the queue: popleft does not meet an empty queue, and either all of its
   children are added or none, so the minimum with the remaining services never truncates a group.
   */
  ghost predicate GrowsAt(branches: nat, total: nat, n: nat) {
    var created := Created(branches, total, n);
    && n < created
    && Created(branches, total, n + 1) == (if created < total then created + branches else total)
    && (created < total ==> created == FirstChild(branches, n) && 0 < branches <= total - created)
  }

  lemma QueueGrows(branches: nat, levels: nat, n: nat)
    requires n < NumServices(branches, levels)
    ensures GrowsAt(branches, NumServices(branches, levels), n)
  {
    RootAndSubtrees(branches, levels - 1);
    if FirstChild(branches, n) < NumServices(branches, levels) {
      NeverTruncated(branches, levels, n);
    }
  }

  ghost predicate Distinct(records: seq<Record>) {
    forall i, j | 0 <= i < j < |records| :: records[i] != records[j]
  }

  lemma DistinctAppend(a: seq<Record>, b: seq<Record>)
    requires Distinct(a) && Distinct(b) && forall r <- b :: r !in a
    ensures Distinct(a + b)
  {
    forall i, j | 0 <= i < j < |a + b| ensures (a + b)[i] != (a + b)[j] {
      if i < |a| <= j {
        assert b[j - |a|] in b;
      }
    }
  }

  /** Creates the children of one service and queues them behind everything that is waiting. */
  method AddChildren(str: nat -> string, waiting: seq<(Record, seq<string>)>, path: seq<string>, count: nat)
    returns (children: seq<Record>, queue: seq<(Record, seq<string>)>)
    ensures |children| == count && queue == waiting + Labelled(str, path, children)
    ensures fresh(children)
    ensures forall c | 0 <= c < count ::
              && children[c].name == ServiceName(path + [str(c)])
              && !children[c].isEntrypoint && children[c].script == None
    ensures Distinct(children)
  {
    children, queue := [], waiting;
    for i := 0 to count
      invariant |children| == i && queue == waiting + Labelled(str, path, children)
      invariant fresh(children)
      invariant forall c | 0 <= c < i ::
                  && children[c].name == ServiceName(path + [str(c)])
                  && !children[c].isEntrypoint && children[c].script == None
      invariant Distinct(children)
    {
      var childPath := path + [str(i)];
      var child := new Record(ServiceName(childPath), false);
      queue := queue + [(child, childPath)];
      children := children + [child];
    }
  }

  ghost predicate PathExtends(branches: nat, paths: seq<seq<nat>>, n: nat, c: nat) {
    var child := FirstChild(branches, n) + c;
    c < branches && child < |paths| && n < |paths| ==> paths[child] == paths[n] + [c]
  }

  lemma PathAt(branches: nat, total: nat, i: nat, path: seq<nat>)
    requires i < total && PathOf(branches, i) == path
    ensures AllPaths(branches, total)[i] == path
  {
  }

  lemma ChildPathExtends(branches: nat, total: nat, n: nat, c: nat)
    ensures PathExtends(branches, AllPaths(branches, total), n, c)
  {
    var child, path := FirstChild(branches, n) + c, PathOf(branches, n);
    if c < branches && child < total && n < total {
      ChildPath(branches, n, c);
      PathAt(branches, total, child, path + [c]);
      PathAt(branches, total, n, path);
    }
  }

  /** What the loop needs to know about labels and names: how children extend their parent. */
  ghost predicate Layout(branches: nat, str: nat -> string, labels: seq<seq<string>>, names: seq<string>) {
    && |labels| == |names|
    && (names != [] ==> labels[0] == ["0"] && names[0] == "svc-0")
    && forall n: nat, c: nat :: ChildLaidOut(branches, str, labels, names, n, c)
  }

  ghost predicate ChildLaidOut(branches: nat, str: nat -> string, labels: seq<seq<string>>, names: seq<string>, n: nat,
                               c: nat)
    requires |labels| == |names|
  {
    var child := FirstChild(branches, n) + c;
    c < branches && child < |names| && n < |names| ==>
      labels[child] == labels[n] + [str(c)] && names[child] == ServiceName(labels[n] + [str(c)])
  }

  lemma LaidOut(branches: nat, str: nat -> string, paths: seq<seq<nat>>, n: nat, c: nat)
    requires PathExtends(branches, paths, n, c)
    ensures ChildLaidOut(branches, str, Labels(str, paths), ServiceNames(Labels(str, paths)), n, c)
  {
  }

  lemma TreeLayout(branches: nat, str: nat -> string, total: nat)
    requires str(0) == "0"
    ensures var labels := Labels(str, AllPaths(branches, total));
            Layout(branches, str, labels, ServiceNames(labels))
  {
    var paths := AllPaths(branches, total);
    var labels := Labels(str, paths);
    forall n: nat, c: nat ensures ChildLaidOut(branches, str, labels, ServiceNames(labels), n, c) {
      ChildPathExtends(branches, total, n, c);
      LaidOut(branches, str, paths, n, c);
    }
    if total > 0 {
      PathAt(branches, total, 0, [0]);
      RootName(str);
    }
  }

  lemma RootName(str: nat -> string)
    requires str(0) == "0"
    ensures Strings(str, [0]) == ["0"] && ServiceName(["0"]) == "svc-0"
  {
  }

  /** Entry `k` of the queue belongs to record `n + k` of all records created so far. */
  ghost predicate Queued(labels: seq<seq<string>>, queue: seq<(Record, seq<string>)>, all: seq<Record>, n: nat) {
    && |queue| + n == |all| <= |labels|
    && forall k | n <= k < |all| :: queue[k - n] == (all[k], labels[k])
  }

  lemma Popped(labels: seq<seq<string>>, queue: seq<(Record, seq<string>)>, all: seq<Record>, n: nat)
    requires Queued(labels, queue, all, n) && queue != []
    ensures Queued(labels, queue[1..], all, n + 1)
  {
  }

  lemma ChildrenQueued(branches: nat, str: nat -> string, labels: seq<seq<string>>, names: seq<string>, n: nat,
                       children: seq<Record>, queue: seq<(Record, seq<string>)>, all: seq<Record>)
    requires Layout(branches, str, labels, names) && n < |all| == FirstChild(branches, n)
    requires Queued(labels, queue, all, n + 1) && |children| == branches && |all| + branches <= |names|
    ensures Queued(labels, queue + Labelled(str, labels[n], children), all + children, n + 1)
  {
    var queue', all' := queue + Labelled(str, labels[n], children), all + children;
    forall k | n + 1 <= k < |all'| ensures queue'[k - (n + 1)] == (all'[k], labels[k]) {
      if k >= |all| {
        assert ChildLaidOut(branches, str, labels, names, n, k - |all|);
        assert queue'[k - (n + 1)] == Labelled(str, labels[n], children)[k - |all|];
      }
    }
  }

  lemma GroupIs(branches: nat, str: nat -> string, labels: seq<seq<string>>, names: seq<string>, n: nat,
                group: seq<string>)
    requires Layout(branches, str, labels, names) && |group| == branches
    requires n < FirstChild(branches, n) && FirstChild(branches, n) + branches <= |names|
    requires forall c | 0 <= c < branches :: group[c] == ServiceName(labels[n] + [str(c)])
    ensures group == Children(branches, names, n)
  {
    var wanted := Children(branches, names, n);
    forall c: nat | c < branches ensures group[c] == wanted[c] {
      assert ChildLaidOut(branches, str, labels, names, n, c);
    }
  }

  lemma ChildrenCompleted(branches: nat, str: nat -> string, labels: seq<seq<string>>, names: seq<string>, n: nat,
                          children: seq<Record>)
    requires Layout(branches, str, labels, names) && |children| == branches
    requires n < FirstChild(branches, n) && FirstChild(branches, n) + branches <= |names|
    requires forall c | 0 <= c < branches ::
               && children[c].name == ServiceName(labels[n] + [str(c)])
               && !children[c].isEntrypoint && children[c].script == None
    ensures forall c | 0 <= c < branches :: Completed(branches, names, FirstChild(branches, n) + c, children[c], false)
  {
    forall c: nat | c < branches ensures Completed(branches, names, FirstChild(branches, n) + c, children[c], false) {
      assert ChildLaidOut(branches, str, labels, names, n, c);
    }
  }

  lemma AllCompleted(branches: nat, names: seq<string>, n: nat, all: seq<Record>, children: seq<Record>)
    requires |all| == FirstChild(branches, n) && |children| == branches && |all| + branches <= |names|
    requires forall i | 0 <= i < |all| :: Completed(branches, names, i, all[i], i < n)
    requires forall c | 0 <= c < branches :: Completed(branches, names, |all| + c, children[c], false)
    requires n <= |all|
    ensures forall i | 0 <= i < |all + children| :: Completed(branches, names, i, (all + children)[i], i < n)
  {
    forall i | 0 <= i < |all + children| ensures Completed(branches, names, i, (all + children)[i], i < n) {
      if i >= |all| {
        assert (all + children)[i] == children[i - |all|];
      }
    }
  }

  /** The queue loop builds the heap-numbered complete tree. */
  method Generate(branches: nat, levels: nat) returns (services: seq<Record>)
    ensures var names := AllNames(branches, NumServices(branches, levels));
            && |services| == |names|
            && forall i | 0 <= i < |services| :: Completed(branches, names, i, services[i], true)
    ensures Distinct(services)
    ensures fresh(services)
  {
    var total := NumServices(branches, levels);
    ghost var labels := Labels(Decimal, AllPaths(branches, total));
    TreeLayout(branches, Decimal, total);
    forall n: nat | n < total ensures GrowsAt(branches, total, n) {
      QueueGrows(branches, levels, n);
    }
    services := Build(branches, total, Decimal, labels, ServiceNames(labels));
  }

  /** Gives service `n`, just taken from the queue, its children and its script. */
  method Expand(branches: nat, str: nat -> string, current: Record, path: seq<string>,
                waiting: seq<(Record, seq<string>)>, remaining: nat, ghost labels: seq<seq<string>>,
                ghost names: seq<string>, ghost n: nat, ghost all: seq<Record>)
    returns (children: seq<Record>, queue: seq<(Record, seq<string>)>)
    requires Layout(branches, str, labels, names) && Queued(labels, waiting, all, n + 1) && Distinct(all)
    requires n < |all| == FirstChild(branches, n) && |all| + branches <= |names| && 0 < branches <= remaining
    requires current == all[n] && path == labels[n]
    requires forall i | 0 <= i < |all| :: Completed(branches, names, i, all[i], i < n)
    modifies current`script
    ensures |children| == branches && fresh(children) && Distinct(all + children)
    ensures Queued(labels, queue, all + children, n + 1)
    ensures forall i | 0 <= i < |all + children| :: Completed(branches, names, i, (all + children)[i], i < n + 1)
  {
    children, queue := AddChildren(str, waiting, path, Min(branches, remaining));
    ChildrenQueued(branches, str, labels, names, n, children, waiting, all);
    GroupIs(branches, str, labels, names, n, CallAll(children)[0]);
    ChildrenCompleted(branches, str, labels, names, n, children);
    AllCompleted(branches, names, n, all, children);
    DistinctAppend(all, children);
    current.script := Some(CallAll(children));
  }

  method Build(branches: nat, total: nat, str: nat -> string, ghost labels: seq<seq<string>>, ghost names: seq<string>)
    returns (services: seq<Record>)
    requires total == |names| && Layout(branches, str, labels, names)
    requires forall n: nat | n < total :: GrowsAt(branches, total, n)
    ensures |services| == total
    ensures forall i | 0 <= i < |services| :: Completed(branches, names, i, services[i], true)
    ensures Distinct(services)
    ensures fresh(services)
  {
    var entrypoint := new Record("svc-0", true);
    var queue: seq<(Record, seq<string>)> := [(entrypoint, ["0"])];
    services := [];
    ghost var all := [entrypoint];               // every record created so far, in creation order

    for n := 0 to total
      invariant |services| == n && n <= |all| && services == all[..n]
      invariant total > 0 ==> |all| == Created(branches, total, n)
      invariant total > 0 ==> Queued(labels, queue, all, n)
      invariant fresh(all)
      invariant Distinct(all)
      invariant total > 0 ==> forall i | 0 <= i < |all| :: Completed(branches, names, i, all[i], i < n)
    {
      assert GrowsAt(branches, total, n);
      var (current, path) := queue[0];
      assert current == all[n] && path == labels[n];
      Popped(labels, queue, all, n);
      queue := queue[1..];
      services := services + [current];
      var remaining := total - |services| - |queue|;
      if remaining > 0 {
        var children;
        children, queue := Expand(branches, str, current, path, queue, remaining, labels, names, n, all);
        all := all + children;
      }
    }
  }
}
