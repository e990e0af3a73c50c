/**
 The fork/join of one concurrent group: every member runs in its own goroutine and, when its
 command fails, appends the error to the variable `errs` that all members share without a lock.
 `multierror.Append` mutates an existing multierror in place, so `errs` is a pointer into a small
 heap of error lists and one append takes four separately interleaved steps: read `errs`, read the
 list, write the list, write `errs`.
 */
module ErrorJoin {
  import opened Topology

  /** What one append contributes: the errors of one member, flattened as multierror does. */
  datatype Block<E> = Block(member: nat, errors: seq<E>)

  datatype Phase<E> =
    | Running                                    // the command has not returned yet
    | SawNil                                     // read errs == nil, about to build a new multierror
    | SawPointer(at: nat)                        // read errs, about to read the list behind it
    | SawList(at: nat, seen: seq<Block<E>>)      // about to write the extended list
    | Publishing(at: nat)                        // about to assign errs
    | Leaving                                    // about to run the deferred wg.Done
    | Finished

  datatype Join<E> = Join(
    pending: nat,                                // the WaitGroup counter
    errs: Option<nat>,
    heap: seq<seq<Block<E>>>,
    phases: seq<Phase<E>>)

  function Start<E>(n: nat): Join<E> {
    Join(n, None, [], seq(n, _ => Running))
  }

  /** One step of member `i`, whose command returned `r`; an empty `r` is the nil error. */
  function Step<E>(j: Join<E>, i: nat, r: seq<E>): Option<Join<E>>
    requires i < |j.phases|
  {
    match j.phases[i]
    case Running =>
      if r == [] then Some(j.(phases := j.phases[i := Leaving]))
      else if j.errs.None? then Some(j.(phases := j.phases[i := SawNil]))
      else Some(j.(phases := j.phases[i := SawPointer(j.errs.value)]))
    case SawNil =>
      Some(j.(heap := j.heap + [[Block(i, r)]], phases := j.phases[i := Publishing(|j.heap|)]))
    case SawPointer(at) =>
      if at < |j.heap| then Some(j.(phases := j.phases[i := SawList(at, j.heap[at])])) else None
    case SawList(at, seen) =>
      if at < |j.heap| then
        Some(j.(heap := j.heap[at := seen + [Block(i, r)]], phases := j.phases[i := Publishing(at)]))
      else None
    case Publishing(at) =>
      Some(j.(errs := Some(at), phases := j.phases[i := Leaving]))
    case Leaving =>
      if j.pending > 0 then Some(j.(pending := j.pending - 1, phases := j.phases[i := Finished])) else None
    case Finished => None
  }

  function Flatten<E>(blocks: seq<Block<E>>): seq<E> {
    if blocks == [] then [] else blocks[0].errors + Flatten(blocks[1..])
  }

  /** What Wait returns. */
  function Outcome<E>(j: Join<E>): seq<E> {
    if j.errs.Some? && j.errs.value < |j.heap| then Flatten(j.heap[j.errs.value]) else []
  }

  predicate HasWritten<E>(ph: Phase<E>) {
    ph.Publishing? || ph.Leaving? || ph.Finished?
  }

  /** The blocks come from distinct members, each of which failed and wrote its own error. */
  ghost predicate Faithful<E>(blocks: seq<Block<E>>, phases: seq<Phase<E>>, results: seq<seq<E>>)
    requires |phases| == |results|
  {
    && blocks != []
    && (forall k | 0 <= k < |blocks| ::
          && blocks[k].member < |phases|
          && HasWritten(phases[blocks[k].member])
          && blocks[k].errors == results[blocks[k].member] != [])
    && (forall k, l | 0 <= k < l < |blocks| :: blocks[k].member != blocks[l].member)
  }

  ghost predicate PhaseOk<E>(j: Join<E>, results: seq<seq<E>>, i: nat)
    requires |j.phases| == |results| && i < |j.phases|
  {
    match j.phases[i]
    case Running => true
    case SawNil => results[i] != []
    case SawPointer(at) => results[i] != [] && at < |j.heap|
    case SawList(at, seen) => results[i] != [] && at < |j.heap| && Faithful(seen, j.phases, results)
    case Publishing(at) => results[i] != [] && at < |j.heap|
    case Leaving => results[i] != [] ==> j.errs.Some?
    case Finished => results[i] != [] ==> j.errs.Some?
  }

  function Unfinished<E>(phases: seq<Phase<E>>): nat {
    if phases == [] then 0 else (if phases[0].Finished? then 0 else 1) + Unfinished(phases[1..])
  }

  /** `results[i]` is what member `i` returned; it only means something once `i` left Running. */
  ghost predicate Inv<E>(j: Join<E>, results: seq<seq<E>>) {
    && |j.phases| == |results|
    && j.pending == Unfinished(j.phases)
    && (forall i | 0 <= i < |j.phases| :: PhaseOk(j, results, i))
    && (forall a | 0 <= a < |j.heap| :: Faithful(j.heap[a], j.phases, results))
    && (j.errs.Some? ==> j.errs.value < |j.heap|)
  }

  lemma UnfinishedStart<E>(n: nat)
    ensures Unfinished<E>(seq(n, _ => Running)) == n
  {
    if n > 0 {
      assert seq(n, _ => Phase<E>.Running)[1..] == seq(n - 1, _ => Phase<E>.Running);
      UnfinishedStart<E>(n - 1);
    }
  }

  lemma UnfinishedUpdate<E>(phases: seq<Phase<E>>, i: nat, ph: Phase<E>)
    requires i < |phases|
    ensures Unfinished(phases[i := ph])
         == Unfinished(phases) - (if phases[i].Finished? then 0 else 1) + (if ph.Finished? then 0 else 1)
  {
    if i == 0 {
      assert phases[i := ph][1..] == phases[1..];
    } else {
      assert phases[i := ph][1..] == phases[1..][i - 1 := ph];
      UnfinishedUpdate(phases[1..], i - 1, ph);
    }
  }

  lemma UnfinishedZero<E>(phases: seq<Phase<E>>)
    ensures Unfinished(phases) == 0 <==> forall i | 0 <= i < |phases| :: phases[i].Finished?
  {
    if phases != [] {
      UnfinishedZero(phases[1..]);
      assert forall i | 0 < i < |phases| :: phases[i] == phases[1..][i - 1];
      if forall i | 0 <= i < |phases| :: phases[i].Finished? {
        assert forall i | 0 <= i < |phases[1..]| :: phases[1..][i] == phases[i + 1];
      }
    }
  }

  lemma InvStart<E>(results: seq<seq<E>>)
    ensures Inv(Start(|results|), results)
  {
    UnfinishedStart<E>(|results|);
  }

  /** A member that is still running may still decide what it returns. */
  lemma InvIgnoresRunning<E>(j: Join<E>, results: seq<seq<E>>, i: nat, r: seq<E>)
    requires Inv(j, results) && i < |j.phases| && j.phases[i].Running?
    ensures Inv(j, results[i := r])
  {
    var rs := results[i := r];
    forall blocks | Faithful(blocks, j.phases, results) ensures Faithful(blocks, j.phases, rs) {
    }
    forall k | 0 <= k < |j.phases| ensures PhaseOk(j, rs, k) {
      assert PhaseOk(j, results, k);
    }
  }

  lemma FaithfulGrows<E>(blocks: seq<Block<E>>, phases: seq<Phase<E>>, results: seq<seq<E>>, i: nat, ph: Phase<E>)
    requires |phases| == |results| && i < |phases|
    requires Faithful(blocks, phases, results)
    requires HasWritten(phases[i]) ==> HasWritten(ph)
    ensures Faithful(blocks, phases[i := ph], results)
  {
  }

  lemma FaithfulAppend<E>(blocks: seq<Block<E>>, phases: seq<Phase<E>>, results: seq<seq<E>>, i: nat, ph: Phase<E>)
    requires |phases| == |results| && i < |phases|
    requires blocks == [] || Faithful(blocks, phases, results)
    requires !HasWritten(phases[i]) && HasWritten(ph) && results[i] != []
    ensures Faithful(blocks + [Block(i, results[i])], phases[i := ph], results)
  {
  }

  lemma StepKeepsInv<E>(j: Join<E>, i: nat, results: seq<seq<E>>)
    requires Inv(j, results) && i < |j.phases|
    requires Step(j, i, results[i]).Some?
    ensures Inv(Step(j, i, results[i]).value, results)
  {
    var r := results[i];
    var j' := Step(j, i, r).value;
    assert PhaseOk(j, results, i);
    UnfinishedUpdate(j.phases, i, j'.phases[i]);
    assert j'.phases == j.phases[i := j'.phases[i]];
    forall a | 0 <= a < |j'.heap| ensures Faithful(j'.heap[a], j'.phases, results) {
      if a < |j.heap| && j'.heap[a] == j.heap[a] {
        FaithfulGrows(j.heap[a], j.phases, results, i, j'.phases[i]);
      } else if j.phases[i].SawNil? {
        FaithfulAppend([], j.phases, results, i, j'.phases[i]);
        assert [] + [Block(i, r)] == [Block(i, r)];
      } else {
        FaithfulAppend(j.phases[i].seen, j.phases, results, i, j'.phases[i]);
      }
    }
    forall k | 0 <= k < |j'.phases| ensures PhaseOk(j', results, k) {
      assert PhaseOk(j, results, k);
      if k != i && j.phases[k].SawList? {
        FaithfulGrows(j.phases[k].seen, j.phases, results, i, j'.phases[i]);
      } else if k == i && j.phases[i].SawPointer? {
        FaithfulGrows(j.heap[j.phases[i].at], j.phases, results, i, j'.phases[i]);
      }
    }
  }

  /** No step of a member is ever blocked before it has finished. */
  lemma StepEnabled<E>(j: Join<E>, i: nat, results: seq<seq<E>>)
    requires Inv(j, results) && i < |j.phases| && !j.phases[i].Finished?
    ensures Step(j, i, results[i]).Some?
  {
    assert PhaseOk(j, results, i);
    if j.pending == 0 {
      UnfinishedZero(j.phases);
    }
  }

  /** The members that failed. */
  function Failed<E>(results: seq<seq<E>>): set<nat> {
    set i: nat | i < |results| && results[i] != []
  }

  function Members<E>(blocks: seq<Block<E>>): set<nat> {
    set k | 0 <= k < |blocks| :: blocks[k].member
  }

  lemma DistinctMembers<E>(blocks: seq<Block<E>>)
    requires forall k, l | 0 <= k < l < |blocks| :: blocks[k].member != blocks[l].member
    ensures |Members(blocks)| == |blocks|
  {
    if blocks != [] {
      var rest := blocks[..|blocks| - 1];
      DistinctMembers(rest);
      assert Members(blocks) == Members(rest) + {blocks[|blocks| - 1].member};
    }
  }

  lemma SubsetSize<T>(a: set<T>, b: set<T>)
    requires a <= b
    ensures |a| <= |b|
  {
    if a != {} {
      var x :| x in a;
      SubsetSize(a - {x}, b - {x});
    }
  }

  lemma FlattenMember<E>(blocks: seq<Block<E>>, e: E)
    requires e in Flatten(blocks)
    ensures exists k :: 0 <= k < |blocks| && e in blocks[k].errors
  {
    if e in blocks[0].errors {
    } else {
      FlattenMember(blocks[1..], e);
      var k :| 0 <= k < |blocks[1..]| && e in blocks[1..][k].errors;
      assert e in blocks[k + 1].errors;
    }
  }

  /**
   What Wait may rely on, whatever updates were lost on the way: the join reports an error if and
   only if some member failed, and every reported error is an error of some member.
   */
  lemma WaitResult<E>(j: Join<E>, results: seq<seq<E>>)
    requires Inv(j, results) && j.pending == 0
    ensures Outcome(j) == [] <==> forall i | 0 <= i < |results| :: results[i] == []
    ensures forall e <- Outcome(j) :: exists i :: 0 <= i < |results| && e in results[i]
  {
    UnfinishedZero(j.phases);
    forall i | 0 <= i < |results| ensures results[i] != [] ==> j.errs.Some? {
      assert PhaseOk(j, results, i);
    }
    if j.errs.Some? {
      var blocks := j.heap[j.errs.value];
      assert Faithful(blocks, j.phases, results);
      assert results[blocks[0].member] != [];
      forall e | e in Outcome(j) ensures exists i :: 0 <= i < |results| && e in results[i] {
        FlattenMember(blocks, e);
        var k :| 0 <= k < |blocks| && e in blocks[k].errors;
        assert e in results[blocks[k].member];
      }
    }
  }

  /** With a failure, the number of recorded appends is between one and the number of failures. */
  lemma RecordedCount<E>(j: Join<E>, results: seq<seq<E>>)
    requires Inv(j, results) && j.pending == 0 && Failed(results) != {}
    ensures j.errs.Some? && 1 <= |j.heap[j.errs.value]| <= |Failed(results)|
  {
    UnfinishedZero(j.phases);
    var i :| i in Failed(results);
    assert PhaseOk(j, results, i);
    var blocks := j.heap[j.errs.value];
    assert Faithful(blocks, j.phases, results);
    DistinctMembers(blocks);
    assert Members(blocks) <= Failed(results);
    SubsetSize(Members(blocks), Failed(results));
  }

  /** A schedule of member indices, each naming the member that moves next. */
  function Run<E>(j: Join<E>, results: seq<seq<E>>, schedule: seq<nat>): Option<Join<E>>
    requires |j.phases| == |results|
    decreases schedule
  {
    if schedule == [] then Some(j)
    else if schedule[0] >= |results| then None
    else
      match Step(j, schedule[0], results[schedule[0]])
      case None => None
      case Some(j') => Run(j', results, schedule[1..])
  }

  lemma {:induction false} RunKeepsInv<E>(j: Join<E>, results: seq<seq<E>>, schedule: seq<nat>)
    requires Inv(j, results) && Run(j, results, schedule).Some?
    ensures Inv(Run(j, results, schedule).value, results)
    decreases schedule
  {
    if schedule != [] {
      StepKeepsInv(j, schedule[0], results);
      RunKeepsInv(Step(j, schedule[0], results[schedule[0]]).value, results, schedule[1..]);
    }
  }

  /** Every completed run of the join alone, for any fixed member results and any schedule. */
  lemma EveryJoin<E>(results: seq<seq<E>>, schedule: seq<nat>, j: Join<E>)
    requires Run(Start(|results|), results, schedule) == Some(j) && j.pending == 0
    ensures Outcome(j) == [] <==> Failed(results) == {}
    ensures forall e <- Outcome(j) :: exists i :: 0 <= i < |results| && e in results[i]
    ensures Failed(results) != {} ==> j.errs.Some? && 1 <= |j.heap[j.errs.value]| <= |Failed(results)|
  {
    InvStart(results);
    RunKeepsInv(Start(|results|), results, schedule);
    WaitResult(j, results);
    if Failed(results) != {} {
      RecordedCount(j, results);
    } else {
      forall i: nat | i < |results| ensures results[i] == [] {
        assert i !in Failed(results);
      }
    }
  }

  /** The lower bound is attained: two members fail, both read nil, and one error is lost. */
  lemma UpdatesCanBeLost<E>(a: E, b: E)
    ensures exists schedule, j ::
              && Run(Start(2), [[a], [b]], schedule) == Some(j)
              && j.pending == 0 && Outcome(j) == [b]
  {
    var rs := [[a], [b]];
    var j0 := Start<E>(2);
    var j1 := Step(j0, 0, rs[0]).value;
    var j2 := Step(j1, 1, rs[1]).value;
    var j3 := Step(j2, 0, rs[0]).value;
    var j4 := Step(j3, 1, rs[1]).value;
    var j5 := Step(j4, 0, rs[0]).value;
    var j6 := Step(j5, 1, rs[1]).value;
    var j7 := Step(j6, 0, rs[0]).value;
    var j8 := Step(j7, 1, rs[1]).value;
    assert j8.pending == 0 && j8.errs == Some(1) && j8.heap[1] == [Block(1, [b])];
    assert [Block(1, [b])][1..] == [];
    assert Flatten([Block(1, [b])]) == [b] + Flatten<E>([]);
    assert Run(j8, rs, []) == Some(j8);
    assert Run(j7, rs, [1]) == Some(j8) by { assert [1][1..] == []; }
    assert Run(j6, rs, [0, 1]) == Some(j8) by { assert [0, 1][1..] == [1]; }
    assert Run(j5, rs, [1, 0, 1]) == Some(j8) by { assert [1, 0, 1][1..] == [0, 1]; }
    assert Run(j4, rs, [0, 1, 0, 1]) == Some(j8) by { assert [0, 1, 0, 1][1..] == [1, 0, 1]; }
    assert Run(j3, rs, [1, 0, 1, 0, 1]) == Some(j8) by { assert [1, 0, 1, 0, 1][1..] == [0, 1, 0, 1]; }
    assert Run(j2, rs, [0, 1, 0, 1, 0, 1]) == Some(j8) by { assert [0, 1, 0, 1, 0, 1][1..] == [1, 0, 1, 0, 1]; }
    assert Run(j1, rs, [1, 0, 1, 0, 1, 0, 1]) == Some(j8) by {
      assert [1, 0, 1, 0, 1, 0, 1][1..] == [0, 1, 0, 1, 0, 1];
    }
    var schedule := [0, 1, 0, 1, 0, 1, 0, 1];
    assert Run(j0, rs, schedule) == Some(j8) by { assert schedule[1..] == [1, 0, 1, 0, 1, 0, 1]; }
  }
}
