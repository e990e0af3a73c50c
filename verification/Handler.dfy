/**
 The handler in the form of its code: a loop over the script with an early return, and metrics that
 are incremented in place. The members of a concurrent group are executed in list order here; that
 the order does not matter is what Refinement shows.
 */
module Handler {
  import opened Topology
  import opened Execution
  import opened Evaluation
  import opened ExecutorProperties

  function Get<K>(m: map<K, nat>, k: K): nat {
    if k in m then m[k] else 0
  }

  /** The Prometheus counters of all pods, keyed by the pod's service. */
  class Metrics {
    var incoming: map<string, nat>
    var outgoing: map<(string, string), nat>     // by caller and destination_service
    var responses: map<(string, int), nat>       // by service and code
    ghost var log: seq<Event>                    // the events recorded so far

    ghost predicate Valid()
      reads this
    {
      && (forall s :: Get(incoming, s) == Count(log, IncomingTo(s)))
      && (forall c, d :: Get(outgoing, (c, d)) == Count(log, SentBy(c, d)))
      && (forall s, code :: Get(responses, (s, code)) == Count(log, AnsweredBy(s, code)))
    }

    constructor ()
      ensures Valid() && log == []
    {
      incoming, outgoing, responses := map[], map[], map[];
      log := [];
    }

    method RecordRequestReceived(path: Path, service: string, header: Header)
      requires Valid()
      modifies this
      ensures Valid() && log == old(log) + [Received(path, service, header)]
      ensures incoming == old(incoming)[service := Get(old(incoming), service) + 1]
      ensures outgoing == old(outgoing) && responses == old(responses)
    {
      incoming := incoming[service := Get(incoming, service) + 1];
      log := log + [Received(path, service, header)];
    }

    method RecordRequestSent(path: Path, caller: string, dest: string, size: nat)
      requires Valid()
      modifies this
      ensures Valid() && log == old(log) + [Sent(path, caller, dest, size)]
      ensures outgoing == old(outgoing)[(caller, dest) := Get(old(outgoing), (caller, dest)) + 1]
      ensures incoming == old(incoming) && responses == old(responses)
    {
      outgoing := outgoing[(caller, dest) := Get(outgoing, (caller, dest)) + 1];
      log := log + [Sent(path, caller, dest, size)];
    }

    method RecordResponseSent(path: Path, service: string, code: int)
      requires Valid()
      modifies this
      ensures Valid() && log == old(log) + [Responded(path, service, code)]
      ensures responses == old(responses)[(service, code) := Get(old(responses), (service, code)) + 1]
      ensures incoming == old(incoming) && outgoing == old(outgoing)
    {
      responses := responses[(service, code) := Get(responses, (service, code)) + 1];
      log := log + [Responded(path, service, code)];
    }

    /** No counter moves when a call ends without an answer; only the log remembers it. */
    ghost method Note(e: Event)
      requires Valid() && (e.Broken? || e.Unresolved?)
      modifies this`log
      ensures Valid() && log == old(log) + [e]
    {
      log := log + [e];
    }
  }

  /** ServeHTTP: the counters it leaves behind are those of the reference evaluation. */
  method ServeHTTP(env: Env, metrics: Metrics, ghost depth: nat, path: Path, service: string, header: Header,
                   ghost p: Event -> bool) returns (code: int)
    requires metrics.Valid() && EvalHandler(env, depth, path, service, header, p).Out?
    modifies metrics
    ensures metrics.Valid()
    ensures code == if EvalHandler(env, depth, path, service, header, p).ok then 200 else 500
    ensures Count(metrics.log, p)
         == Count(old(metrics.log), p) + EvalHandler(env, depth, path, service, header, p).count
    decreases depth, 3
  {
    metrics.RecordRequestReceived(path, service, header);
    var script := ScriptOf(env, service);
    for pc := 0 to |script|
      invariant metrics.Valid()
      invariant EvalSteps(env, depth, path, service, header, pc, p).Out?
      invariant EvalSteps(env, depth, path, service, header, pc, p).ok
                == EvalHandler(env, depth, path, service, header, p).ok
      invariant Count(metrics.log, p) + EvalSteps(env, depth, path, service, header, pc, p).count
                == Count(old(metrics.log), p) + EvalHandler(env, depth, path, service, header, p).count
    {
      var forwardable := Forward(header);
      var failed := Execute(env, metrics, depth, path + [pc], service, forwardable, script[pc], p);
      if failed {
        metrics.RecordResponseSent(path, service, 500);
        return 500;
      }
    }
    metrics.RecordResponseSent(path, service, 200);
    return 200;
  }

  method Execute(env: Env, metrics: Metrics, ghost depth: nat, path: Path, caller: string, h: Header, step: Command,
                 ghost p: Event -> bool) returns (failed: bool)
    requires metrics.Valid() && EvalCommand(env, depth, path, caller, h, step, p).Out?
    modifies metrics
    ensures metrics.Valid()
    ensures failed == !EvalCommand(env, depth, path, caller, h, step, p).ok
    ensures Count(metrics.log, p)
         == Count(old(metrics.log), p) + EvalCommand(env, depth, path, caller, h, step, p).count
    decreases depth, 1, step, 1
  {
    match step {
      case SleepCommand(_) =>
        failed := false;
      case RequestCommand(dest, size) =>
        failed := ExecuteRequest(env, metrics, depth, path, caller, h, dest, size, p);
      case ConcurrentCommand(members) =>
        failed := ExecuteConcurrent(env, metrics, depth, path, caller, h, members, p);
    }
  }

  method ExecuteRequest(env: Env, metrics: Metrics, ghost depth: nat, path: Path, caller: string, h: Header,
                        dest: string, size: nat, ghost p: Event -> bool) returns (failed: bool)
    requires metrics.Valid() && EvalCommand(env, depth, path, caller, h, RequestCommand(dest, size), p).Out?
    modifies metrics
    ensures metrics.Valid()
    ensures failed == !EvalCommand(env, depth, path, caller, h, RequestCommand(dest, size), p).ok
    ensures Count(metrics.log, p)
         == Count(old(metrics.log), p) + EvalCommand(env, depth, path, caller, h, RequestCommand(dest, size), p).count
    decreases depth, 1, RequestCommand(dest, size), 0
  {
    if dest !in env.scripts {
      metrics.Note(Unresolved(path, dest));
      return true;
    }
    var fault := env.fault(path);
    if fault.Undelivered? {
      metrics.Note(Broken(path, dest, false));
      return true;
    }
    var code := ServeHTTP(env, metrics, depth - 1, path, dest, h + env.added(path), p);
    if fault.ResponseLost? {
      metrics.Note(Broken(path, dest, true));
      return true;
    }
    metrics.RecordRequestSent(path, caller, dest, size);
    return code == 500;
  }

  method ExecuteConcurrent(env: Env, metrics: Metrics, ghost depth: nat, path: Path, caller: string, h: Header,
                           members: seq<Command>, ghost p: Event -> bool) returns (failed: bool)
    requires metrics.Valid() && EvalMembers(env, depth, path, caller, h, members, 0, p).Out?
    modifies metrics
    ensures metrics.Valid()
    ensures failed == !EvalMembers(env, depth, path, caller, h, members, 0, p).ok
    ensures Count(metrics.log, p)
         == Count(old(metrics.log), p) + EvalMembers(env, depth, path, caller, h, members, 0, p).count
    decreases depth, 1, members, 0
  {
    failed := false;
    for i := 0 to |members|
      invariant metrics.Valid()
      invariant EvalMembers(env, depth, path, caller, h, members, i, p).Out?
      invariant (!failed && EvalMembers(env, depth, path, caller, h, members, i, p).ok)
                == EvalMembers(env, depth, path, caller, h, members, 0, p).ok
      invariant Count(metrics.log, p) + EvalMembers(env, depth, path, caller, h, members, i, p).count
                == Count(old(metrics.log), p) + EvalMembers(env, depth, path, caller, h, members, 0, p).count
    {
      var err := Execute(env, metrics, depth, path + [i], caller, h, members[i], p);
      failed := failed || err;
    }
  }
}
