/** Waiting for rollouts: a queue of resources that are retried while their watch is closed. */
module Rollout {
  // ---------------------------------------------------------------- the names in the output

  /** output.split(' ') */
  function Split(output: string): (parts: seq<string>)
    ensures parts != []
  {
    if output == "" then [""]
    else
      var rest := Split(output[1..]);
      if output[0] == ' ' then [""] + rest else [[output[0]] + rest[0]] + rest[1..]
  }

  /** What kubectl prints for `names`: the names with single spaces between them. */
  function Printed(names: seq<string>): string {
    if names == [] then ""
    else if |names| == 1 then names[0]
    else names[0] + " " + Printed(names[1..])
  }

  lemma {:induction false} SplitOne(name: string)
    requires ' ' !in name
    ensures Split(name) == [name]
  {
    if name != "" {
      SplitOne(name[1..]);
      assert [name[0]] + name[1..] == name;
    }
  }

  lemma {:induction false} SplitFirst(name: string, output: string)
    requires ' ' !in name
    ensures Split(name + " " + output) == [name] + Split(output)
  {
    var text := name + " " + output;
    if name == "" {
      assert text[1..] == output && text[0] == ' ';
    } else {
      SplitFirst(name[1..], output);
      assert text[1..] == name[1..] + " " + output && text[0] == name[0];
      assert [name[0]] + name[1..] == name;
      var rest := [name[1..]] + Split(output);
      assert rest[1..] == Split(output);
    }
  }

  lemma {:induction false} SplitPrinted(names: seq<string>)
    requires names != [] && forall n <- names :: ' ' !in n
    ensures Split(Printed(names)) == names
  {
    if |names| == 1 {
      SplitOne(names[0]);
    } else {
      SplitPrinted(names[1..]);
      SplitFirst(names[0], Printed(names[1..]));
    }
  }

  /**
   The names that are waited for are the names that were printed if and only if any were: for an
   empty output the code still checks one resource, with the empty name.
   */
  lemma SplitsBackIffAny(names: seq<string>)
    requires forall n <- names :: ' ' !in n
    ensures Split(Printed(names)) == names <==> names != []
    ensures Split(Printed([])) == [""]
  {
    if names != [] {
      SplitPrinted(names);
    }
  }

  // ---------------------------------------------------------------- the queue

  /** What the check of one resource comes to; only a closed watch queues it again. */
  datatype Outcome = Complete | WatchClosed | Failed

  /** The outcome of the first, second, ... check of the loop, whichever resource it checks. */
  type Oracle = nat -> Outcome

  function Closed(outcome: Oracle, k: nat): (n: nat)
    ensures n <= k
  {
    if k == 0 then 0 else Closed(outcome, k - 1) + if outcome(k - 1).WatchClosed? then 1 else 0
  }

  /** How many of the first `k` checks end with the resource being dropped from the queue. */
  function Settled(outcome: Oracle, k: nat): nat {
    k - Closed(outcome, k)
  }

  datatype Attempt = Attempt(resource: string, outcome: Outcome)

  function Attempts(trace: seq<Attempt>, r: string): nat {
    if trace == [] then 0 else Attempts(trace[..|trace| - 1], r) + if trace[|trace| - 1].resource == r then 1 else 0
  }

  function Retries(trace: seq<Attempt>, r: string): nat {
    if trace == [] then 0
    else Retries(trace[..|trace| - 1], r) + if trace[|trace| - 1] == Attempt(r, WatchClosed) then 1 else 0
  }

  /** The resources in the order in which they are checked. */
  function Checked(trace: seq<Attempt>): (names: seq<string>)
    ensures |names| == |trace|
    ensures forall i | 0 <= i < |trace| :: names[i] == trace[i].resource
  {
    seq(|trace|, i requires 0 <= i < |trace| => trace[i].resource)
  }

  /** The resources whose watch was closed, in that order. */
  function CutShort(trace: seq<Attempt>): seq<string> {
    if trace == [] then []
    else
      var last := trace[|trace| - 1];
      CutShort(trace[..|trace| - 1]) + if last.outcome.WatchClosed? then [last.resource] else []
  }

  lemma CutShortNext(trace: seq<Attempt>, a: Attempt)
    ensures CutShort(trace + [a]) == CutShort(trace) + if a.outcome.WatchClosed? then [a.resource] else []
  {
    assert (trace + [a])[..|trace|] == trace;
  }

  /** First come, first served: behind the names stand those whose watch was closed, in the order of closing. */
  ghost predicate InTurn(trace: seq<Attempt>, waiting: seq<string>, names: seq<string>) {
    Checked(trace) + waiting == names + CutShort(trace)
  }

  /** Every check was of something that was queued before it. */
  ghost predicate NeverIdle(trace: seq<Attempt>, names: seq<string>) {
    forall k | 0 <= k < |trace| :: k < |names| + |CutShort(trace[..k])|
  }

  lemma NeverIdleNext(trace: seq<Attempt>, waiting: seq<string>, names: seq<string>, a: Attempt)
    requires NeverIdle(trace, names) && InTurn(trace, waiting, names) && waiting != []
    ensures NeverIdle(trace + [a], names)
  {
    assert |Checked(trace) + waiting| == |names + CutShort(trace)|;
    forall k | 0 <= k < |trace + [a]| ensures k < |names| + |CutShort((trace + [a])[..k])| {
      assert (trace + [a])[..k] == trace[..k];
      assert trace[..|trace|] == trace;
    }
  }

  lemma InTurnNext(trace: seq<Attempt>, waiting: seq<string>, names: seq<string>, result: Outcome)
    requires InTurn(trace, waiting, names) && waiting != []
    ensures var a := Attempt(waiting[0], result);
            InTurn(trace + [a], waiting[1..] + if result.WatchClosed? then [waiting[0]] else [], names)
  {
    var a := Attempt(waiting[0], result);
    CutShortNext(trace, a);
    var requeued := if result.WatchClosed? then [waiting[0]] else [];
    assert Checked(trace + [a]) == Checked(trace) + [waiting[0]];
    assert waiting == [waiting[0]] + waiting[1..];
    assert Checked(trace + [a]) + (waiting[1..] + requeued) == Checked(trace) + waiting + requeued;
    assert names + CutShort(trace) + requeued == names + CutShort(trace + [a]);
  }

  lemma {:induction false} CutShortAt(trace: seq<Attempt>, k: nat)
    requires k < |trace| && trace[k].outcome.WatchClosed?
    ensures |CutShort(trace[..k])| < |CutShort(trace)|
    ensures CutShort(trace)[|CutShort(trace[..k])|] == trace[k].resource
    decreases |trace|
  {
    var last := |trace| - 1;
    if k < last {
      CutShortAt(trace[..last], k);
      assert trace[..last][..k] == trace[..k];
    }
  }

  lemma {:induction false} CutShortPrefix(trace: seq<Attempt>, k: nat)
    requires k <= |trace|
    ensures CutShort(trace[..k]) <= CutShort(trace)
    decreases |trace|
  {
    var last := |trace| - 1;
    if k < |trace| {
      CutShortPrefix(trace[..last], k);
      assert trace[..last][..k] == trace[..k];
    } else {
      assert trace[..k] == trace;
    }
  }

  /**
   A complete trace makes a resource whose watch was closed wait for its turn: the next check of what
   check `k` cut short is check `again`, and the checks in between are those of everything that was
   waiting when check `k` began, each once and in order.
   */
  lemma RetriedInTurn(trace: seq<Attempt>, names: seq<string>, k: nat)
    requires InTurn(trace, [], names) && NeverIdle(trace, names)
    requires k < |trace| && trace[k].outcome.WatchClosed?
    ensures var again := |names| + |CutShort(trace[..k])|;
            && k < again < |trace| && trace[again].resource == trace[k].resource
            && Checked(trace)[k + 1..again] == (names + CutShort(trace[..k]))[k + 1..]
  {
    var earlier := CutShort(trace[..k]);
    var again := |names| + |earlier|;
    CutShortAt(trace, k);
    CutShortPrefix(trace, k);
    assert Checked(trace) + [] == Checked(trace);
    assert Checked(trace)[again] == CutShort(trace)[|earlier|];
    assert (names + CutShort(trace))[..again] == names + earlier;
  }

  /** The resources that were dropped from the queue, in the order of their last checks. */
  function Resolved(trace: seq<Attempt>): seq<string> {
    if trace == [] then []
    else
      var last := trace[|trace| - 1];
      Resolved(trace[..|trace| - 1]) + if last.outcome.WatchClosed? then [] else [last.resource]
  }

  /** Every check of a resource is its last one or is followed by another. */
  lemma {:induction false} AttemptsSplit(trace: seq<Attempt>, r: string)
    ensures Attempts(trace, r) == multiset(Resolved(trace))[r] + Retries(trace, r)
  {
    if trace != [] {
      AttemptsSplit(trace[..|trace| - 1], r);
    }
  }

  /** The resolved resources and the queued ones are together the original ones. */
  ghost predicate Conserved(trace: seq<Attempt>, resources: seq<string>, names: seq<string>) {
    multiset(Resolved(trace)) + multiset(resources) == multiset(names)
  }

  function Requeued(resources: seq<string>, result: Outcome): seq<string>
    requires resources != []
  {
    if result.WatchClosed? then resources[1..] + [resources[0]] else resources[1..]
  }

  lemma ConservedNext(trace: seq<Attempt>, resources: seq<string>, names: seq<string>, result: Outcome)
    requires Conserved(trace, resources, names) && resources != []
    ensures Conserved(trace + [Attempt(resources[0], result)], Requeued(resources, result), names)
  {
    var resolved, x, rest := Resolved(trace), resources[0], resources[1..];
    assert resources == [x] + rest;
    assert resolved + [] == resolved;
  }

  /** The queue after `k` iterations; an empty queue stays empty. */
  function QueueAfter(names: seq<string>, outcome: Oracle, k: nat): seq<string> {
    if k == 0 then names
    else
      var before := QueueAfter(names, outcome, k - 1);
      if before == [] then [] else Requeued(before, outcome(k - 1))
  }

  /** The trace holds the oracle's outcomes, and its last check was still needed. */
  ghost predicate Faithful(trace: seq<Attempt>, outcome: Oracle, n: nat) {
    && (|trace| > 0 ==> Settled(outcome, |trace| - 1) < n)
    && forall i {:trigger trace[i]} | 0 <= i < |trace| :: trace[i].outcome == outcome(i)
  }

  lemma FaithfulNext(trace: seq<Attempt>, outcome: Oracle, n: nat, resource: string)
    requires Faithful(trace, outcome, n) && Settled(outcome, |trace|) < n
    ensures Faithful(trace + [Attempt(resource, outcome(|trace|))], outcome, n)
  {
  }

  /**
   The loop ends as soon as as many checks as there are names in the output were not cut short by a
   closed watch; `limit` witnesses that this happens. Each name is then resolved exactly once.
   */
  method UntilRolloutsComplete(output: string, outcome: Oracle, ghost limit: nat) returns (trace: seq<Attempt>)
    requires Settled(outcome, limit) >= |Split(output)|
    ensures multiset(Resolved(trace)) == multiset(Split(output))
    ensures |trace| == |Split(output)| + Closed(outcome, |trace|) <= limit
    ensures Faithful(trace, outcome, |Split(output)|)
    ensures QueueAfter(Split(output), outcome, |trace|) == []
    ensures InTurn(trace, [], Split(output)) && NeverIdle(trace, Split(output))
    ensures forall k | 0 <= k < |Split(output)| :: trace[k].resource == Split(output)[k]
  {
    var resources := Split(output);
    trace := DrainQueue(resources, outcome, limit);
    assert Checked(trace) + [] == Checked(trace) == resources + CutShort(trace);
    assert forall k | 0 <= k < |resources| :: Checked(trace)[k] == resources[k];
  }

  /** What holds between two iterations: `resources` is the queue after the checks of `trace`. */
  ghost predicate Draining(names: seq<string>, outcome: Oracle, limit: nat, trace: seq<Attempt>, resources: seq<string>)
  {
    && Conserved(trace, resources, names)
    && |resources| + |trace| == |names| + Closed(outcome, |trace|)
    && |trace| <= limit && Faithful(trace, outcome, |names|)
    && resources == QueueAfter(names, outcome, |trace|)
    && InTurn(trace, resources, names) && NeverIdle(trace, names)
  }

  lemma DrainsOn(names: seq<string>, outcome: Oracle, limit: nat, trace: seq<Attempt>, resources: seq<string>)
    requires Settled(outcome, limit) >= |names|
    requires Draining(names, outcome, limit, trace, resources) && resources != []
    ensures var result := outcome(|trace|);
            Draining(names, outcome, limit, trace + [Attempt(resources[0], result)], Requeued(resources, result))
    ensures |trace| < limit
  {
    var resource, result := resources[0], outcome(|trace|);
    SettledGrows(outcome, |trace|, limit);
    ConservedNext(trace, resources, names, result);
    FaithfulNext(trace, outcome, |names|, resource);
    NeverIdleNext(trace, resources, names, Attempt(resource, result));
    InTurnNext(trace, resources, names, result);
  }

  method DrainQueue(names: seq<string>, outcome: Oracle, ghost limit: nat) returns (trace: seq<Attempt>)
    requires Settled(outcome, limit) >= |names|
    ensures Draining(names, outcome, limit, trace, [])
  {
    var resources := names;
    trace := [];
    while |resources| > 0
      invariant Draining(names, outcome, limit, trace, resources)
      decreases limit - |trace|
    {
      DrainsOn(names, outcome, limit, trace, resources);
      var resource := resources[0];
      var result := outcome(|trace|);
      resources := resources[1..];
      if result.WatchClosed? {
        resources := resources + [resource];
      }
      trace := trace + [Attempt(resource, result)];
    }
  }

  lemma {:induction false} SettledGrows(outcome: Oracle, k: nat, limit: nat)
    ensures k <= limit ==> Settled(outcome, k) <= Settled(outcome, limit) <= Settled(outcome, k) + (limit - k)
    decreases limit
  {
    if k < limit {
      SettledGrows(outcome, k, limit - 1);
    }
  }

  // ---------------------------------------------------------------- when the loop ends

  /**
   The exact condition: the queue is empty after `k` iterations if and only if at least as many of
   the first `k` checks as there are resources were not cut short. So the loop ends for finitely
   many closed watches, and never ends if every watch is closed.
   */
  lemma {:induction false} EndsIffSettled(names: seq<string>, outcome: Oracle, k: nat)
    ensures QueueAfter(names, outcome, k) == [] <==> Settled(outcome, k) >= |names|
    ensures Settled(outcome, k) <= |names| ==> |QueueAfter(names, outcome, k)| == |names| - Settled(outcome, k)
  {
    if k > 0 {
      EndsIffSettled(names, outcome, k - 1);
    }
  }

  lemma {:induction false} SettledAllowsClosed(outcome: Oracle, bound: nat, k: nat)
    requires forall i | i >= bound :: !outcome(i).WatchClosed?
    requires k >= bound
    ensures Closed(outcome, k) == Closed(outcome, bound)
    decreases k
  {
    if k > bound {
      SettledAllowsClosed(outcome, bound, k - 1);
    }
  }

  /**
   If no watch is closed from some check on, the loop ends: its queue becomes empty with iteration `k`
   and not before, and `k` is exactly n plus the number of closed watches up to there.
   */
  lemma EndsAfterClosedWatches(names: seq<string>, outcome: Oracle, bound: nat) returns (k: nat)
    requires forall i | i >= bound :: !outcome(i).WatchClosed?
    ensures k == |names| + Closed(outcome, k)
    ensures QueueAfter(names, outcome, k) == []
    ensures forall i: nat | i < k :: QueueAfter(names, outcome, i) != []
  {
    k := |names| + bound;
    SettledAllowsClosed(outcome, bound, k);
    while k > 0 && Settled(outcome, k - 1) >= |names|
      invariant Settled(outcome, k) >= |names|
      decreases k
    {
      k := k - 1;
    }
    EndsIffSettled(names, outcome, k);
    forall i: nat | i < k ensures QueueAfter(names, outcome, i) != [] {
      SettledGrows(outcome, i, k - 1);
      EndsIffSettled(names, outcome, i);
    }
  }
}
