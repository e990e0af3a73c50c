/** Chains of calls between services: how long they get, where they close to a cycle, and what ranks them. */
module CallGraph {
  import opened Topology
  import opened Execution
  import opened ExecutorProperties

  ghost predicate CallsService(env: Env, s: string, t: string) {
    exists c <- Calls(ScriptOf(env, s)) :: c.serviceName == t
  }

  /** Every service of the chain calls the next one. */
  ghost predicate Walk(env: Env, w: seq<string>) {
    w != [] && forall i | 0 <= i < |w| - 1 :: CallsService(env, w[i], w[i + 1])
  }

  ghost predicate Cycle(env: Env, w: seq<string>) {
    |w| >= 2 && Walk(env, w) && w[0] == w[|w| - 1]
  }

  /** A chain of calls from `s` that meets some service twice. */
  ghost predicate Lasso(env: Env, s: string, w: seq<string>, i: nat, j: nat) {
    Walk(env, w) && w[0] == s && i < j < |w| && w[i] == w[j]
  }

  /** No chain of calls from `service` makes more than `depth` calls. */
  predicate Bounded(env: Env, depth: nat, service: string)
    decreases depth, 1
  {
    CallsBounded(env, depth, Calls(ScriptOf(env, service)))
  }

  predicate CallsBounded(env: Env, depth: nat, calls: seq<Request>)
    decreases depth, 0
  {
    forall c <- calls :: depth > 0 && Bounded(env, depth - 1, c.serviceName)
  }

  lemma {:induction false} LongWalk(env: Env, depth: nat, s: string) returns (w: seq<string>)
    requires !Bounded(env, depth, s)
    ensures Walk(env, w) && w[0] == s && |w| == depth + 2
    decreases depth
  {
    var c :| c in Calls(ScriptOf(env, s)) && !(depth > 0 && Bounded(env, depth - 1, c.serviceName));
    assert CallsService(env, s, c.serviceName);
    if depth == 0 {
      w := [s, c.serviceName];
    } else {
      var rest := LongWalk(env, depth - 1, c.serviceName);
      w := [s] + rest;
      forall i | 0 <= i < |w| - 1 ensures CallsService(env, w[i], w[i + 1]) {
        assert i > 0 ==> w[i] == rest[i - 1] && CallsService(env, rest[i - 1], rest[i]);
      }
    }
  }

  lemma {:induction false} WalkIsUnbounded(env: Env, depth: nat, w: seq<string>)
    requires Walk(env, w) && |w| == depth + 2
    ensures !Bounded(env, depth, w[0])
    decreases depth
  {
    assert CallsService(env, w[0], w[1]);
    if depth > 0 {
      forall i | 0 <= i < |w[1..]| - 1 ensures CallsService(env, w[1..][i], w[1..][i + 1]) {
        assert CallsService(env, w[i + 1], w[i + 2]);
      }
      WalkIsUnbounded(env, depth - 1, w[1..]);
    }
  }

  /** The recursive bound means what it says. */
  lemma BoundedIffNoLongWalk(env: Env, depth: nat, s: string)
    ensures Bounded(env, depth, s) <==> !exists w :: Walk(env, w) && w[0] == s && |w| == depth + 2
  {
    if !Bounded(env, depth, s) {
      var w := LongWalk(env, depth, s);
    } else {
      forall w | Walk(env, w) && w[0] == s && |w| == depth + 2 ensures false {
        WalkIsUnbounded(env, depth, w);
      }
    }
  }

  lemma {:induction false} Deeper(env: Env, depth: nat, s: string)
    requires Bounded(env, depth, s)
    ensures Bounded(env, depth + 1, s)
    decreases depth
  {
    forall c | c in Calls(ScriptOf(env, s)) ensures Bounded(env, depth, c.serviceName) {
      Deeper(env, depth - 1, c.serviceName);
    }
  }

  lemma {:induction false} Deepest(env: Env, depth: nat, deeper: nat, s: string)
    requires Bounded(env, depth, s) && depth <= deeper
    ensures Bounded(env, deeper, s)
    decreases deeper
  {
    if depth < deeper {
      Deepest(env, depth, deeper - 1, s);
      Deeper(env, deeper - 1, s);
    }
  }

  // ---------------------------------------------------------------- cycles

  lemma {:induction false} StaysInside(env: Env, w: seq<string>, i: nat)
    requires Closed(env) && Walk(env, w) && w[0] in env.scripts && i < |w|
    ensures w[i] in env.scripts
  {
    if i > 0 {
      StaysInside(env, w, i - 1);
      assert CallsService(env, w[i - 1], w[i]);
      assert ClosedScript(env, env.scripts[w[i - 1]]);
    }
  }

  ghost predicate Repeats(w: seq<string>, i: nat, j: nat) {
    i < j < |w| && w[i] == w[j]
  }

  lemma {:induction false} Pigeonhole(w: seq<string>, names: set<string>) returns (i: nat, j: nat)
    requires |w| > |names| && forall k | 0 <= k < |w| :: w[k] in names
    ensures Repeats(w, i, j)
    decreases |w|
  {
    var last := |w| - 1;
    if k: nat :| k < last && w[k] == w[last] {
      i, j := k, last;
    } else {
      i, j := Pigeonhole(w[..last], names - {w[last]});
    }
  }

  /** Among finitely many services, a chain that is long enough meets one of them twice. */
  lemma LassoOrBounded(env: Env, s: string)
    requires Closed(env) && s in env.scripts && !Bounded(env, |env.scripts.Keys|, s)
    ensures exists w, i, j :: Lasso(env, s, w, i, j)
  {
    var w := LongWalk(env, |env.scripts.Keys|, s);
    forall k | 0 <= k < |w| ensures w[k] in env.scripts.Keys {
      StaysInside(env, w, k);
    }
    var i, j := Pigeonhole(w, env.scripts.Keys);
    assert Lasso(env, s, w, i, j);
  }

  lemma {:induction false} CycleIsUnbounded(env: Env, w: seq<string>, i: nat, depth: nat)
    requires Cycle(env, w) && i < |w|
    ensures !Bounded(env, depth, w[i])
    decreases depth
  {
    var k := if i == |w| - 1 then 0 else i;
    assert CallsService(env, w[k], w[k + 1]);
    if depth > 0 {
      CycleIsUnbounded(env, w, k + 1, depth - 1);
    }
  }

  lemma {:induction false} LeadsToUnbounded(env: Env, w: seq<string>, k: nat, i: nat, depth: nat)
    requires Walk(env, w) && k <= i < |w| && forall d: nat :: !Bounded(env, d, w[i])
    ensures !Bounded(env, depth, w[k])
    decreases i - k
  {
    if k < i {
      assert CallsService(env, w[k], w[k + 1]);
      if depth > 0 {
        LeadsToUnbounded(env, w, k + 1, i, depth - 1);
      }
    }
  }

  lemma Loop(env: Env, s: string, w: seq<string>, i: nat, j: nat)
    requires Lasso(env, s, w, i, j)
    ensures Cycle(env, w[i..j + 1])
  {
    var c := w[i..j + 1];
    forall k | 0 <= k < |c| - 1 ensures CallsService(env, c[k], c[k + 1]) {
      assert c[k] == w[i + k] && c[k + 1] == w[i + k + 1];
    }
  }

  lemma LassoIsUnbounded(env: Env, s: string, w: seq<string>, i: nat, j: nat, depth: nat)
    requires Lasso(env, s, w, i, j)
    ensures !Bounded(env, depth, s)
  {
    Loop(env, s, w, i, j);
    forall d: nat ensures !Bounded(env, d, w[i]) {
      CycleIsUnbounded(env, w[i..j + 1], 0, d);
    }
    LeadsToUnbounded(env, w, 0, i, depth);
  }

  // ---------------------------------------------------------------- ranks

  /** The least depth up to `n` that bounds `s`, given that `n` does. */
  function Least(env: Env, n: nat, s: string): (depth: nat)
    requires Bounded(env, n, s)
    ensures depth <= n && Bounded(env, depth, s)
    ensures depth > 0 ==> !Bounded(env, depth - 1, s)
  {
    if n > 0 && Bounded(env, n - 1, s) then Least(env, n - 1, s) else n
  }

  lemma LeastIsLeast(env: Env, n: nat, s: string, depth: nat)
    requires Bounded(env, n, s) && Bounded(env, depth, s)
    ensures Least(env, n, s) <= depth
  {
    var least := Least(env, n, s);
    if depth < least {
      Deepest(env, depth, least - 1, s);
    }
  }

  lemma LeastRanks(env: Env, n: nat, rank: map<string, nat>)
    requires forall s <- env.scripts :: Bounded(env, n, s)
    requires rank == map s | s in env.scripts :: Least(env, n, s)
    ensures Ranked(env, rank)
  {
    forall s | s in env.scripts ensures CallsBelow(env, rank, env.scripts[s], rank[s]) {
      assert CallsBounded(env, rank[s], Calls(ScriptOf(env, s)));
      forall c | c in Calls(env.scripts[s]) && c.serviceName in env.scripts ensures rank[c.serviceName] < rank[s] {
        LeastIsLeast(env, n, c.serviceName, rank[s] - 1);
      }
    }
  }

  lemma {:induction false} RankFalls(env: Env, rank: map<string, nat>, w: seq<string>, i: nat)
    requires Closed(env) && Ranked(env, rank) && Walk(env, w) && w[0] in env.scripts && 0 < i < |w|
    ensures w[i] in env.scripts && rank[w[i]] < rank[w[0]]
  {
    StaysInside(env, w, i - 1);
    StaysInside(env, w, i);
    assert CallsService(env, w[i - 1], w[i]);
    assert CallsBelow(env, rank, env.scripts[w[i - 1]], rank[w[i - 1]]);
    if i > 1 {
      RankFalls(env, rank, w, i - 1);
    }
  }

  /** A finite graph whose calls are all defined has a rank if and only if it has no cycle. */
  lemma AcyclicIffRanked(env: Env)
    requires Closed(env)
    ensures (exists rank :: Ranked(env, rank)) <==> !exists w :: Cycle(env, w) && w[0] in env.scripts
  {
    var n := |env.scripts.Keys|;
    if rank :| Ranked(env, rank) {
      forall w | Cycle(env, w) && w[0] in env.scripts ensures false {
        RankFalls(env, rank, w, |w| - 1);
      }
    } else if forall s <- env.scripts :: Bounded(env, n, s) {
      var rank := map s | s in env.scripts :: Least(env, n, s);
      LeastRanks(env, n, rank);
    } else {
      var s :| s in env.scripts && !Bounded(env, n, s);
      LassoOrBounded(env, s);
      var w, i, j :| Lasso(env, s, w, i, j);
      StaysInside(env, w, i);
      Loop(env, s, w, i, j);
    }
  }
}
