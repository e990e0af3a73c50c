/**
 How many errors a join keeps. The members that fail race for `errs`: every number of recorded
 appends between one and the number of failures happens in some run, so nothing is lost in any run
 exactly when at most one member fails.
 */
module LostUpdates {
  import opened Topology
  import opened ErrorJoin

  /** `last` is a state of a run that starts with all members running. */
  ghost predicate Reachable<E>(results: seq<seq<E>>, last: Join<E>) {
    exists schedule :: Run(Start(|results|), results, schedule) == Some(last)
  }

  lemma {:induction false} RunThenStep<E>(j: Join<E>, results: seq<seq<E>>, schedule: seq<nat>, i: nat, mid: Join<E>)
    requires |j.phases| == |results| && Run(j, results, schedule) == Some(mid)
    requires |mid.phases| == |results| && i < |results|
    ensures Run(j, results, schedule + [i]) == Step(mid, i, results[i])
    decreases schedule
  {
    if schedule == [] {
      assert [] + [i] == [i] && [i][1..] == [];
    } else {
      assert (schedule + [i])[1..] == schedule[1..] + [i];
      RunThenStep(Step(j, schedule[0], results[schedule[0]]).value, results, schedule[1..], i, mid);
    }
  }

  /** Member `i` takes the next step of the run. */
  lemma Moves<E>(results: seq<seq<E>>, j: Join<E>, i: nat) returns (next: Join<E>)
    requires Reachable(results, j) && |j.phases| == |results| && i < |results|
    requires Step(j, i, results[i]).Some?
    ensures next == Step(j, i, results[i]).value && Reachable(results, next)
    ensures |next.phases| == |results| && next.phases == j.phases[i := next.phases[i]]
  {
    var schedule :| Run(Start(|results|), results, schedule) == Some(j);
    next := Step(j, i, results[i]).value;
    RunThenStep(Start(|results|), results, schedule, i, j);
    assert Run(Start(|results|), results, schedule + [i]) == Some(next);
  }

  // ---------------------------------------------------------------- counting failures

  /** How many of the first `n` members fail. */
  function Failures<E>(results: seq<seq<E>>, n: nat): (count: nat)
    requires n <= |results|
    ensures count <= n
  {
    if n == 0 then 0 else Failures(results, n - 1) + if results[n - 1] == [] then 0 else 1
  }

  function FailedBelow<E>(results: seq<seq<E>>, n: nat): set<nat>
    requires n <= |results|
  {
    set i: nat | i < n && results[i] != []
  }

  lemma OneMore<E>(results: seq<seq<E>>, n: nat)
    requires n < |results|
    ensures FailedBelow(results, n + 1) == FailedBelow(results, n) + if results[n] == [] then {} else {n}
  {
  }

  lemma {:induction false} FailuresAre<E>(results: seq<seq<E>>, n: nat)
    requires n <= |results|
    ensures Failures(results, n) == |FailedBelow(results, n)|
  {
    if n > 0 {
      FailuresAre(results, n - 1);
      OneMore(results, n - 1);
      assert n - 1 !in FailedBelow(results, n - 1);
    }
  }

  /** A prefix of the members with exactly `count` failures; it ends with a failing member. */
  lemma PrefixWith<E>(results: seq<seq<E>>, count: nat) returns (m: nat)
    requires 1 <= count <= Failures(results, |results|)
    ensures 0 < m <= |results| && Failures(results, m) == count && results[m - 1] != []
  {
    m := |results|;
    while Failures(results, m) > count || results[m - 1] == []
      invariant 0 < m <= |results| && Failures(results, m) >= count
      decreases m
    {
      m := m - 1;
    }
  }

  // ---------------------------------------------------------------- a run with a given count

  /** The appends that `errs` shows. */
  function Shown<E>(j: Join<E>): seq<Block<E>> {
    if j.errs.Some? && j.errs.value < |j.heap| then j.heap[j.errs.value] else []
  }

  /** How many they are. */
  function Recorded<E>(j: Join<E>): nat {
    |Shown(j)|
  }

  /** The first `m` members take their first step: all that fail read nil. */
  lemma AllReadNil<E>(results: seq<seq<E>>, m: nat) returns (j: Join<E>)
    requires m <= |results|
    ensures Reachable(results, j) && |j.phases| == |results| == j.pending && j.errs == None && j.heap == []
    ensures forall k | 0 <= k < m :: j.phases[k] == if results[k] == [] then Leaving else SawNil
    ensures forall k | m <= k < |results| :: j.phases[k].Running?
  {
    j := Start(|results|);
    assert Run(Start(|results|), results, []) == Some(j);
    for i := 0 to m
      invariant Reachable(results, j) && |j.phases| == |results| == j.pending && j.errs == None && j.heap == []
      invariant forall k | 0 <= k < i :: j.phases[k] == if results[k] == [] then Leaving else SawNil
      invariant forall k | i <= k < |results| :: j.phases[k].Running?
    {
      j := Moves(results, j, i);
    }
  }

  /** Each of them publishes a list of its own: only the last one stays. */
  lemma AllPublish<E>(results: seq<seq<E>>, m: nat) returns (j: Join<E>)
    requires 0 < m <= |results| && results[m - 1] != []
    ensures Quiet(results, j) && j.pending == |results| && j.errs.Some? && Recorded(j) == 1
    ensures forall k | 0 <= k < m :: j.phases[k].Leaving?
    ensures forall k | m <= k < |results| :: j.phases[k].Running?
  {
    j := AllReadNil(results, m);
    for i := 0 to m
      invariant Reachable(results, j) && |j.phases| == |results| == j.pending
      invariant i > 0 && results[i - 1] != [] ==> j.errs.Some? && Recorded(j) == 1
      invariant forall k | 0 <= k < i :: j.phases[k].Leaving?
      invariant forall k | i <= k < m :: j.phases[k] == if results[k] == [] then Leaving else SawNil
      invariant forall k | m <= k < |results| :: j.phases[k].Running?
    {
      if results[i] != [] {
        j := Moves(results, j, i);
        j := Moves(results, j, i);
      }
    }
  }

  function Entry<E>(results: seq<seq<E>>, i: nat): seq<Block<E>>
    requires i < |results|
  {
    if results[i] == [] then [] else [Block(i, results[i])]
  }

  /** Nobody is in the middle of an append. */
  ghost predicate Quiet<E>(results: seq<seq<E>>, j: Join<E>) {
    && Reachable(results, j) && |j.phases| == |results|
    && (if j.errs.Some? then j.errs.value < |j.heap| else j.heap == [])
  }

  /** Member `i` runs on its own, while nobody else is in the middle of an append. */
  lemma AppendsAlone<E>(results: seq<seq<E>>, j: Join<E>, i: nat) returns (last: Join<E>)
    requires Quiet(results, j) && i < |results| && j.phases[i].Running?
    ensures Quiet(results, last) && last.phases == j.phases[i := Leaving] && last.pending == j.pending
    ensures Shown(last) == Shown(j) + Entry(results, i) && (j.errs.Some? ==> last.errs.Some?)
  {
    last := Moves(results, j, i);
    if results[i] != [] {
      last := Moves(results, last, i);
      last := Moves(results, last, i);
      if j.errs.Some? {
        last := Moves(results, last, i);
      }
    }
  }

  /** The members from `m` on append one after the other, and no append of theirs is lost. */
  lemma RestAppend<E>(results: seq<seq<E>>, m: nat) returns (j: Join<E>)
    requires 0 < m <= |results| && results[m - 1] != []
    ensures Reachable(results, j) && |j.phases| == |results| == j.pending && j.errs.Some?
    ensures Recorded(j) == 1 + Failures(results, |results|) - Failures(results, m)
    ensures forall k | 0 <= k < |results| :: j.phases[k].Leaving?
  {
    j := AllPublish(results, m);
    for i := m to |results|
      invariant Quiet(results, j) && j.pending == |results| && j.errs.Some?
      invariant Recorded(j) == 1 + Failures(results, i) - Failures(results, m)
      invariant forall k | 0 <= k < i :: j.phases[k].Leaving?
      invariant forall k | i <= k < |results| :: j.phases[k].Running?
    {
      j := AppendsAlone(results, j, i);
    }
  }

  lemma AllLeave<E>(results: seq<seq<E>>, start: Join<E>) returns (j: Join<E>)
    requires Reachable(results, start) && |start.phases| == |results| == start.pending
    requires forall k | 0 <= k < |results| :: start.phases[k].Leaving?
    ensures Reachable(results, j) && j.pending == 0 && j.errs == start.errs && j.heap == start.heap
  {
    j := start;
    for i := 0 to |results|
      invariant Reachable(results, j) && |j.phases| == |results| && j.pending == |results| - i
      invariant j.errs == start.errs && j.heap == start.heap
      invariant forall k | i <= k < |results| :: j.phases[k].Leaving?
    {
      j := Moves(results, j, i);
    }
  }

  /** A complete run, from the fork to the end of Wait. */
  ghost predicate Completes<E>(results: seq<seq<E>>, j: Join<E>) {
    Reachable(results, j) && j.pending == 0
  }

  lemma EveryCount<E>(results: seq<seq<E>>, n: nat) returns (j: Join<E>)
    requires 1 <= n <= |Failed(results)|
    ensures Completes(results, j) && Recorded(j) == n
  {
    FailuresAre(results, |results|);
    assert FailedBelow(results, |results|) == Failed(results);
    var m := PrefixWith(results, |Failed(results)| - n + 1);
    var all := RestAppend(results, m);
    j := AllLeave(results, all);
  }

  lemma RecordedBounds<E>(results: seq<seq<E>>, j: Join<E>)
    requires Completes(results, j)
    ensures Recorded(j) <= |Failed(results)|
    ensures Recorded(j) == 0 <==> Failed(results) == {}
  {
    var schedule :| Run(Start(|results|), results, schedule) == Some(j);
    EveryJoin(results, schedule, j);
    InvStart(results);
    RunKeepsInv(Start(|results|), results, schedule);
  }

  /**
   What Wait can return, exactly: with at least one failure, some complete run records `n` appends if
   and only if `n` lies between one and the number of failures.
   */
  lemma RecordedExactly<E>(results: seq<seq<E>>, n: nat)
    requires Failed(results) != {}
    ensures (exists j :: Completes(results, j) && Recorded(j) == n) <==> 1 <= n <= |Failed(results)|
  {
    if 1 <= n <= |Failed(results)| {
      var j := EveryCount(results, n);
    }
    if j :| Completes(results, j) && Recorded(j) == n {
      RecordedBounds(results, j);
    }
  }

  /** For every group in which some member fails, a run keeps a single error and loses all others. */
  lemma OneIsRecorded<E>(results: seq<seq<E>>) returns (j: Join<E>)
    requires Failed(results) != {}
    ensures Completes(results, j) && Recorded(j) == 1
  {
    j := EveryCount(results, 1);
  }

  /** No run loses an error if and only if at most one member fails. */
  lemma NothingLostIff<E>(results: seq<seq<E>>)
    ensures (forall j | Completes(results, j) :: Recorded(j) == |Failed(results)|) <==> |Failed(results)| <= 1
  {
    if |Failed(results)| <= 1 {
      forall j | Completes(results, j) ensures Recorded(j) == |Failed(results)| {
        RecordedBounds(results, j);
      }
    } else {
      var j := OneIsRecorded(results);
    }
  }

  // ---------------------------------------------------------------- what is kept, in which order

  /** Two members read the list behind `errs` before either writes it: the append of the first is lost. */
  lemma SecondWriteWins<E>(results: seq<seq<E>>, j: Join<E>, first: nat, second: nat) returns (last: Join<E>)
    requires Quiet(results, j) && j.errs.Some? && first < |results| && second < |results| && first != second
    requires j.phases[first].Running? && j.phases[second].Running?
    requires results[first] != [] && results[second] != []
    ensures Quiet(results, last) && last.phases == j.phases[first := Leaving][second := Leaving]
    ensures Shown(last) == Shown(j) + [Block(second, results[second])]
  {
    last := BothRead(results, j, first, second);
    last := BothWrite(results, last, first, second, j.errs.value, Shown(j));
  }

  lemma BothRead<E>(results: seq<seq<E>>, j: Join<E>, first: nat, second: nat) returns (last: Join<E>)
    requires Quiet(results, j) && j.errs.Some? && first < |results| && second < |results| && first != second
    requires j.phases[first].Running? && j.phases[second].Running?
    requires results[first] != [] && results[second] != []
    ensures Quiet(results, last) && last.errs == j.errs && last.heap == j.heap
    ensures var saw := SawList(j.errs.value, Shown(j)); last.phases == j.phases[first := saw][second := saw]
  {
    last := Moves(results, j, first);
    last := Moves(results, last, first);
    last := Moves(results, last, second);
    last := Moves(results, last, second);
  }

  lemma BothWrite<E>(results: seq<seq<E>>, j: Join<E>, first: nat, second: nat, at: nat, seen: seq<Block<E>>)
    returns (last: Join<E>)
    requires Quiet(results, j) && j.errs == Some(at) && first < |results| && second < |results| && first != second
    requires j.phases[first] == j.phases[second] == SawList(at, seen)
    ensures Quiet(results, last) && last.phases == j.phases[first := Leaving][second := Leaving]
    ensures Shown(last) == seen + [Block(second, results[second])]
  {
    last := Moves(results, j, first);
    last := Moves(results, last, second);
    last := Moves(results, last, first);
    last := Moves(results, last, second);
  }

  ghost predicate InRange(order: seq<nat>, n: nat) {
    forall k | 0 <= k < |order| :: order[k] < n
  }

  /** The errors of the members in the given order. */
  ghost function ErrorsInOrder<E>(results: seq<seq<E>>, order: seq<nat>): seq<E>
    requires InRange(order, |results|)
  {
    if order == [] then []
    else
      var last := |order| - 1;
      ErrorsInOrder(results, order[..last]) + results[order[last]]
  }

  lemma {:induction false} FlattenMore<E>(blocks: seq<Block<E>>, b: Block<E>)
    ensures Flatten(blocks + [b]) == Flatten(blocks) + b.errors
  {
    if blocks == [] {
      assert [b][1..] == [] && [] + [b] == [b];
    } else {
      assert (blocks + [b])[1..] == blocks[1..] + [b];
      FlattenMore(blocks[1..], b);
    }
  }

  /** `order` lists every member once. */
  ghost predicate IsOrder(order: seq<nat>, n: nat) {
    && InRange(order, n)
    && (forall i: nat | i < n :: i in order)
    && forall k, l | 0 <= k < l < |order| :: order[k] != order[l]
  }

  lemma EntryFlattens<E>(results: seq<seq<E>>, blocks: seq<Block<E>>, i: nat)
    requires i < |results|
    ensures Flatten(blocks + Entry(results, i)) == Flatten(blocks) + results[i]
  {
    if results[i] == [] {
      assert blocks + [] == blocks;
    } else {
      FlattenMore(blocks, Block(i, results[i]));
    }
  }

  /** The first `n` members of the order have appended; the others have not started. */
  ghost predicate Appended<E>(results: seq<seq<E>>, order: seq<nat>, n: nat, j: Join<E>)
    requires IsOrder(order, |results|)
  {
    && Quiet(results, j) && j.pending == |results| && n <= |order|
    && (forall k | 0 <= k < n :: j.phases[order[k]].Leaving?)
    && (forall k | n <= k < |order| :: j.phases[order[k]].Running?)
  }

  lemma NextAppends<E>(results: seq<seq<E>>, order: seq<nat>, n: nat, j: Join<E>) returns (last: Join<E>)
    requires IsOrder(order, |results|) && n < |order| && Appended(results, order, n, j)
    ensures Appended(results, order, n + 1, last)
    ensures Shown(last) == Shown(j) + Entry(results, order[n])
  {
    last := AppendsAlone(results, j, order[n]);
  }

  lemma {:induction false} AppendInOrder<E>(results: seq<seq<E>>, order: seq<nat>, n: nat) returns (j: Join<E>)
    requires IsOrder(order, |results|) && n <= |order|
    ensures Appended(results, order, n, j) && Flatten(Shown(j)) == ErrorsInOrder(results, order[..n])
  {
    if n == 0 {
      j := Start(|results|);
      assert Run(Start(|results|), results, []) == Some(j);
    } else {
      var before := AppendInOrder(results, order, n - 1);
      j := NextAppends(results, order, n - 1, before);
      EntryFlattens(results, Shown(before), order[n - 1]);
      assert order[..n][..n - 1] == order[..n - 1];
    }
  }

  /** Members that append one after the other lose nothing, and Wait returns their errors in that order. */
  lemma OneAfterTheOther<E>(results: seq<seq<E>>, order: seq<nat>) returns (j: Join<E>)
    requires IsOrder(order, |results|)
    ensures Completes(results, j) && Outcome(j) == ErrorsInOrder(results, order)
  {
    j := AppendInOrder(results, order, |order|);
    forall i: nat | i < |results| ensures j.phases[i].Leaving? {
      assert i in order;
    }
    assert order[..|order|] == order;
    j := AllLeave(results, j);
  }
}
