/**
 Any number of external requests in flight at once. A pod serves each request in a goroutine of its
 own and keeps nothing between requests but its counters, so the state of a fleet is one call tree per
 request; a scheduler picks the request that moves, and the counters add up over all of them.
 */
module Fleet {
  import opened Topology
  import opened Execution
  import opened Evaluation
  import opened Refinement
  import opened ExecutorProperties

  /** An external request to `service`; its calls meet the faults of `env`. */
  datatype Arrival = Arrival(env: Env, service: string, header: Header)

  function Arrived(arrivals: seq<Arrival>): (fleet: seq<State>)
    ensures |fleet| == |arrivals|
    ensures forall i | 0 <= i < |arrivals| :: fleet[i] == Init(arrivals[i].service, arrivals[i].header)
  {
    seq(|arrivals|, i requires 0 <= i < |arrivals| => Init(arrivals[i].service, arrivals[i].header))
  }

  /** The scheduler names a request and, within its call tree, a choice. */
  type Turn = (nat, seq<nat>)

  function StepFleet(arrivals: seq<Arrival>, fleet: seq<State>, turn: Turn): Option<seq<State>>
    requires |fleet| == |arrivals|
  {
    if turn.0 >= |fleet| then None
    else
      match Step(arrivals[turn.0].env, fleet[turn.0], turn.1)
      case None => None
      case Some(st) => Some(fleet[turn.0 := st])
  }

  function RunFleet(arrivals: seq<Arrival>, fleet: seq<State>, schedule: seq<Turn>): (last: Option<seq<State>>)
    requires |fleet| == |arrivals|
    ensures last.Some? ==> |last.value| == |arrivals|
    decreases schedule
  {
    if schedule == [] then Some(fleet)
    else
      match StepFleet(arrivals, fleet, schedule[0])
      case None => None
      case Some(next) => RunFleet(arrivals, next, schedule[1..])
  }

  /** The choices that the schedule makes for request `i`. */
  function Own(schedule: seq<Turn>, i: nat): seq<seq<nat>> {
    if schedule == [] then []
    else (if schedule[0].0 == i then [schedule[0].1] else []) + Own(schedule[1..], i)
  }

  lemma {:induction false} RunsApart(arrivals: seq<Arrival>, fleet: seq<State>, schedule: seq<Turn>, i: nat)
    requires |fleet| == |arrivals| && i < |fleet| && RunFleet(arrivals, fleet, schedule).Some?
    ensures Run(arrivals[i].env, fleet[i], Own(schedule, i)) == Some(RunFleet(arrivals, fleet, schedule).value[i])
    decreases schedule
  {
    if schedule != [] {
      var next := StepFleet(arrivals, fleet, schedule[0]).value;
      RunsApart(arrivals, next, schedule[1..], i);
      if schedule[0].0 == i {
        assert Own(schedule, i)[0] == schedule[0].1 && Own(schedule, i)[1..] == Own(schedule[1..], i);
      } else {
        assert Own(schedule, i) == Own(schedule[1..], i);
      }
    }
  }

  /** Requests do not disturb each other: each of them runs as it would alone, under its own choices. */
  lemma EachRunsAlone(arrivals: seq<Arrival>, schedule: seq<Turn>, fleet: seq<State>, i: nat)
    requires RunFleet(arrivals, Arrived(arrivals), schedule) == Some(fleet) && i < |arrivals|
    ensures Run(arrivals[i].env, Init(arrivals[i].service, arrivals[i].header), Own(schedule, i)) == Some(fleet[i])
  {
    RunsApart(arrivals, Arrived(arrivals), schedule, i);
  }

  /** Schedule independence for a fleet: the other requests and the scheduler change no answer and no event. */
  lemma AnyTwoFleetsAgree(arrivals: seq<Arrival>, schedule1: seq<Turn>, fleet1: seq<State>, schedule2: seq<Turn>,
                          fleet2: seq<State>, i: nat)
    requires RunFleet(arrivals, Arrived(arrivals), schedule1) == Some(fleet1)
    requires RunFleet(arrivals, Arrived(arrivals), schedule2) == Some(fleet2)
    requires i < |arrivals| && fleet1[i].root.Replied? && fleet2[i].root.Replied?
    ensures fleet1[i].root == fleet2[i].root && multiset(fleet1[i].log) == multiset(fleet2[i].log)
  {
    EachRunsAlone(arrivals, schedule1, fleet1, i);
    EachRunsAlone(arrivals, schedule2, fleet2, i);
    AnyTwoSchedulesAgree(arrivals[i].env, arrivals[i].service, arrivals[i].header, Own(schedule1, i), fleet1[i],
                         Own(schedule2, i), fleet2[i]);
  }

  // ---------------------------------------------------------------- the counters of the whole fleet

  /** What all requests together added to a counter. */
  function Counted(fleet: seq<State>, p: Event -> bool): nat {
    if fleet == [] then 0 else Counted(fleet[..|fleet| - 1], p) + Count(fleet[|fleet| - 1].log, p)
  }

  /** Of each request: what is external to `d`, and the calls to `d` that are still open. */
  function Pending(fleet: seq<State>, d: string): nat {
    if fleet == [] then 0
    else
      var st := fleet[|fleet| - 1];
      Pending(fleet[..|fleet| - 1], d) + External(st.root, d) + OpenInFrame(st.root, d)
  }

  ghost predicate Balanced(st: State, d: string) {
    Count(st.log, IncomingTo(d))
      == External(st.root, d) + Count(st.log, OutgoingTo(d)) + OpenInFrame(st.root, d) + Count(st.log, LostFrom(d))
  }

  lemma {:induction false} AllBalanced(fleet: seq<State>, d: string)
    requires forall st <- fleet :: Balanced(st, d)
    ensures Counted(fleet, IncomingTo(d))
         == Pending(fleet, d) + Counted(fleet, OutgoingTo(d)) + Counted(fleet, LostFrom(d))
  {
    if fleet != [] {
      var front, st := fleet[..|fleet| - 1], fleet[|fleet| - 1];
      assert forall s <- front :: s in fleet;
      AllBalanced(front, d);
      assert Balanced(st, d);
    }
  }

  /**
   Metric conservation for a fleet, at every reachable state: over all requests, what `d` counted as
   incoming is what is external or still open, plus what all callers counted as outgoing to `d`, plus
   the calls whose response was lost.
   */
  lemma FleetConserves(arrivals: seq<Arrival>, schedule: seq<Turn>, fleet: seq<State>, d: string)
    requires RunFleet(arrivals, Arrived(arrivals), schedule) == Some(fleet)
    ensures Counted(fleet, IncomingTo(d))
         == Pending(fleet, d) + Counted(fleet, OutgoingTo(d)) + Counted(fleet, LostFrom(d))
  {
    forall st | st in fleet ensures Balanced(st, d) {
      var i :| 0 <= i < |fleet| && fleet[i] == st;
      EachRunsAlone(arrivals, schedule, fleet, i);
      IncomingMatchesOutgoing(arrivals[i].env, arrivals[i].service, arrivals[i].header, Own(schedule, i), st, d);
    }
    AllBalanced(fleet, d);
  }

  /** A state in which some request is unanswered can move. */
  lemma FleetNeverStuck(arrivals: seq<Arrival>, schedule: seq<Turn>, fleet: seq<State>, i: nat)
    requires RunFleet(arrivals, Arrived(arrivals), schedule) == Some(fleet)
    requires i < |arrivals| && !fleet[i].root.Replied?
    ensures exists choice :: StepFleet(arrivals, fleet, (i, choice)).Some?
  {
    EachRunsAlone(arrivals, schedule, fleet, i);
    NeverStuck(arrivals[i].env, arrivals[i].service, arrivals[i].header, Own(schedule, i), fleet[i]);
    var choice :| Step(arrivals[i].env, fleet[i], choice).Some?;
    assert StepFleet(arrivals, fleet, (i, choice)).Some?;
  }

  /** The demand of all arrivals on `target`. */
  function TotalDemand(arrivals: seq<Arrival>, rank: map<string, nat>, target: string): nat
    requires forall a <- arrivals :: a.service in rank
  {
    if arrivals == [] then 0
    else
      var a := arrivals[|arrivals| - 1];
      TotalDemand(arrivals[..|arrivals| - 1], rank, target) + Demand(a.env, rank[a.service], a.service, target)
  }

  /** Arrival `a` ended in `st`, having delivered its demand. */
  ghost predicate Served(a: Arrival, rank: map<string, nat>, st: State, target: string)
    requires a.service in rank
  {
    Count(st.log, IncomingTo(target)) == Demand(a.env, rank[a.service], a.service, target)
  }

  lemma {:induction false} AllServed(arrivals: seq<Arrival>, rank: map<string, nat>, fleet: seq<State>, target: string)
    requires |fleet| == |arrivals| && forall a <- arrivals :: a.service in rank
    requires forall i | 0 <= i < |fleet| :: Served(arrivals[i], rank, fleet[i], target)
    ensures Counted(fleet, IncomingTo(target)) == TotalDemand(arrivals, rank, target)
    decreases |fleet|
  {
    if fleet != [] {
      var last := |fleet| - 1;
      AllServed(arrivals[..last], rank, fleet[..last], target);
      assert Served(arrivals[last], rank, fleet[last], target);
    }
  }

  /**
   Exact request counts for a fleet: on an acyclic graph with reliable transport, once all requests are
   answered, `target` has received exactly the sum of their demands.
   */
  lemma FleetCounts(arrivals: seq<Arrival>, rank: map<string, nat>, schedule: seq<Turn>, fleet: seq<State>,
                    target: string)
    requires forall a <- arrivals :: Dependable(a.env) && Ranked(a.env, rank) && a.service in a.env.scripts
    requires RunFleet(arrivals, Arrived(arrivals), schedule) == Some(fleet)
    requires forall st <- fleet :: st.root.Replied?
    ensures forall a <- arrivals :: a.service in rank
    ensures Counted(fleet, IncomingTo(target)) == TotalDemand(arrivals, rank, target)
  {
    forall i | 0 <= i < |fleet| ensures Served(arrivals[i], rank, fleet[i], target) {
      var a := arrivals[i];
      assert a in arrivals && fleet[i] in fleet;
      EachRunsAlone(arrivals, schedule, fleet, i);
      ExactRequestCounts(a.env, rank, a.service, a.header, Own(schedule, i), fleet[i], target);
    }
    AllServed(arrivals, rank, fleet, target);
  }
}
