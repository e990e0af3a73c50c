/** The translation of a service graph into Graphviz nodes and edges. */
module Graphviz {
  import opened Topology
  import opened Validation

  /** The text codecs that the labels use. */
  datatype Texts = Texts(size: nat -> string, duration: int -> string, rate: real -> string)

  datatype Edge = Edge(from: string, to: string, stepIndex: nat)

  datatype Node = Node(name: string, kind: string, errorRate: string, responseSize: string, steps: seq<seq<string>>)

  datatype Graph = Graph(nodes: seq<Node>, edges: seq<Edge>)

  datatype Failure = UnexpectedExecutable

  /** ServiceType.String */
  function TypeString(t: ServiceType): string {
    match t
    case ServiceHTTP => "HTTP"
    case ServiceGRPC => "gRPC"
    case ServiceUnknown => ""
  }

  // ---------------------------------------------------------------- what the translation means

  function Line(texts: Texts, cmd: Command): string
    requires !cmd.ConcurrentCommand?
  {
    match cmd
    case SleepCommand(d) => "SLEEP " + texts.duration(d)
    case RequestCommand(name, size) => "CALL \"" + name + "\" " + texts.size(size)
  }

  /** The commands of one step, side by side. */
  function Parallel(step: Command): seq<Command> {
    if step.ConcurrentCommand? then step.members else [step]
  }

  function Lines(texts: Texts, cmds: seq<Command>): (lines: seq<string>)
    requires !ContainsConcurrent(cmds)
    ensures |lines| == |cmds| && forall i | 0 <= i < |cmds| :: lines[i] == Line(texts, cmds[i])
  {
    seq(|cmds|, i requires 0 <= i < |cmds| => Line(texts, cmds[i]))
  }

  function StepLines(texts: Texts, script: Script): (steps: seq<seq<string>>)
    requires Flat(script)
    ensures |steps| == |script| && forall k | 0 <= k < |script| :: steps[k] == Lines(texts, Parallel(script[k]))
  {
    seq(|script|, k requires 0 <= k < |script| => Lines(texts, Parallel(script[k])))
  }

  function NodeOf(texts: Texts, s: Service): Node
    requires Flat(s.script)
  {
    Node(s.name, TypeString(s.kind), texts.rate(s.errorRate), texts.size(s.responseSize), StepLines(texts, s.script))
  }

  function EdgesTo(from: string, idx: nat, calls: seq<Request>): (edges: seq<Edge>)
    ensures |edges| == |calls| && forall i | 0 <= i < |calls| :: edges[i] == Edge(from, calls[i].serviceName, idx)
  {
    seq(|calls|, i requires 0 <= i < |calls| => Edge(from, calls[i].serviceName, idx))
  }

  function ScriptEdges(from: string, script: Script): seq<Edge> {
    if script == [] then []
    else
      var last := |script| - 1;
      ScriptEdges(from, script[..last]) + EdgesTo(from, last, CallsOf(script[last]))
  }

  function GraphEdges(services: seq<Service>): seq<Edge> {
    if services == [] then []
    else
      var last := |services| - 1;
      GraphEdges(services[..last]) + ScriptEdges(services[last].name, services[last].script)
  }

  /** What the node of a service shows, field by field. */
  ghost predicate Shows(texts: Texts, s: Service, n: Node) {
    && n.name == s.name
    && (s.kind.ServiceHTTP? ==> n.kind == "HTTP") && (s.kind.ServiceGRPC? ==> n.kind == "gRPC")
    && n.errorRate == texts.rate(s.errorRate)
    && n.responseSize == texts.size(s.responseSize)
    && |n.steps| == |s.script|
    && forall k | 0 <= k < |s.script| :: ShowsStep(texts, Parallel(s.script[k]), n.steps[k])
  }

  ghost predicate ShowsStep(texts: Texts, cmds: seq<Command>, lines: seq<string>) {
    |lines| == |cmds| && forall j | 0 <= j < |cmds| :: ShowsCommand(texts, cmds[j], lines[j])
  }

  ghost predicate ShowsCommand(texts: Texts, cmd: Command, line: string) {
    match cmd
    case SleepCommand(d) => line == "SLEEP " + texts.duration(d)
    case RequestCommand(name, size) => line == "CALL \"" + name + "\" " + texts.size(size)
    case ConcurrentCommand(_) => false
  }

  lemma StepShows(texts: Texts, cmds: seq<Command>)
    requires !ContainsConcurrent(cmds)
    ensures ShowsStep(texts, cmds, Lines(texts, cmds))
  {
  }

  lemma NodeShows(texts: Texts, s: Service)
    requires Flat(s.script)
    ensures Shows(texts, s, NodeOf(texts, s))
  {
    forall k | 0 <= k < |s.script| ensures ShowsStep(texts, Parallel(s.script[k]), NodeOf(texts, s).steps[k]) {
      StepShows(texts, Parallel(s.script[k]));
    }
  }

  // ---------------------------------------------------------------- the code

  method NonConcurrentCommandToString(texts: Texts, exe: Command) returns (r: Result<string, Failure>)
    ensures r.Ok? <==> !exe.ConcurrentCommand?
    ensures r.Ok? ==> r.value == Line(texts, exe) && ShowsCommand(texts, exe, r.value)
  {
    match exe {
      case SleepCommand(d) => r := Ok("SLEEP " + texts.duration(d));
      case RequestCommand(name, size) => r := Ok("CALL \"" + name + "\" " + texts.size(size));
      case ConcurrentCommand(_) => r := Err(UnexpectedExecutable);
    }
  }

  method ExecutableToStringSlice(texts: Texts, exe: Command) returns (r: Result<seq<string>, Failure>)
    ensures r.Ok? <==> FlatCommand(exe)
    ensures r.Ok? ==> r.value == Lines(texts, Parallel(exe))
  {
    if !exe.ConcurrentCommand? {
      var s := NonConcurrentCommandToString(texts, exe);
      return Ok([s.value]);
    }
    var ss: seq<string> := [];
    for i := 0 to |exe.members|
      invariant forall k | 0 <= k < i :: !exe.members[k].ConcurrentCommand?
      invariant |ss| == i && forall k | 0 <= k < i :: ss[k] == Line(texts, exe.members[k])
    {
      var s := NonConcurrentCommandToString(texts, exe.members[i]);
      if s.Err? {
        return Err(s.error);
      }
      ss := ss + [s.value];
    }
    return Ok(ss);
  }

  lemma MemberEdges(from: string, idx: nat, members: seq<Command>, i: nat)
    requires i < |members|
    ensures EdgesTo(from, idx, Calls(members[i..]))
         == EdgesTo(from, idx, CallsOf(members[i])) + EdgesTo(from, idx, Calls(members[i + 1..]))
  {
    CallsFrom(members, i);
  }

  method GetEdgesFromExe(exe: Command, idx: nat, from: string) returns (edges: seq<Edge>)
    ensures edges == EdgesTo(from, idx, CallsOf(exe))
    decreases exe
  {
    match exe {
      case ConcurrentCommand(members) =>
        edges := [];
        assert members[0..] == members;
        for i := 0 to |members|
          invariant edges + EdgesTo(from, idx, Calls(members[i..])) == EdgesTo(from, idx, Calls(members))
        {
          MemberEdges(from, idx, members, i);
          var subEdges := GetEdgesFromExe(members[i], idx, from);
          assert edges + (subEdges + EdgesTo(from, idx, Calls(members[i + 1..])))
              == edges + subEdges + EdgesTo(from, idx, Calls(members[i + 1..]));
          edges := edges + subEdges;
        }
        assert members[|members|..] == [];
      case RequestCommand(name, _) =>
        edges := [Edge(from, name, idx)];
      case SleepCommand(_) =>
        edges := [];
    }
  }

  lemma NextStep(texts: Texts, script: Script, idx: nat)
    requires idx < |script| && Flat(script[..idx]) && FlatCommand(script[idx])
    ensures Flat(script[..idx + 1])
    ensures StepLines(texts, script[..idx + 1])
         == StepLines(texts, script[..idx]) + [Lines(texts, Parallel(script[idx]))]
  {
    assert script[..idx + 1] == script[..idx] + [script[idx]];
  }

  lemma NextEdges(from: string, script: Script, idx: nat)
    requires idx < |script|
    ensures ScriptEdges(from, script[..idx + 1])
         == ScriptEdges(from, script[..idx]) + EdgesTo(from, idx, CallsOf(script[idx]))
  {
    assert script[..idx + 1][..idx] == script[..idx];
  }

  method ToGraphvizNode(texts: Texts, service: Service) returns (r: Result<(Node, seq<Edge>), Failure>)
    ensures r.Ok? <==> Flat(service.script)
    ensures r.Ok? ==> r.value == (NodeOf(texts, service), ScriptEdges(service.name, service.script))
  {
    var script := service.script;
    var steps: seq<seq<string>> := [];
    var edges: seq<Edge> := [];
    for idx := 0 to |script|
      invariant Flat(script[..idx]) && steps == StepLines(texts, script[..idx])
      invariant edges == ScriptEdges(service.name, script[..idx])
    {
      var step := ExecutableToStringSlice(texts, script[idx]);
      if step.Err? {
        return Err(step.error);
      }
      NextStep(texts, script, idx);
      steps := steps + [step.value];
      var stepEdges := GetEdgesFromExe(script[idx], idx, service.name);
      NextEdges(service.name, script, idx);
      edges := edges + stepEdges;
    }
    assert script[..|script|] == script;
    return Ok((Node(service.name, TypeString(service.kind), texts.rate(service.errorRate),
                    texts.size(service.responseSize), steps), edges));
  }

  ghost predicate AllFlat(services: seq<Service>) {
    forall s <- services :: Flat(s.script)
  }

  function Nodes(texts: Texts, services: seq<Service>): (nodes: seq<Node>)
    requires forall s <- services :: Flat(s.script)
    ensures |nodes| == |services| && forall i | 0 <= i < |services| :: nodes[i] == NodeOf(texts, services[i])
  {
    seq(|services|, i requires 0 <= i < |services| => NodeOf(texts, services[i]))
  }

  lemma NextService(texts: Texts, services: seq<Service>, i: nat)
    requires i < |services| && AllFlat(services[..i]) && Flat(services[i].script)
    ensures AllFlat(services[..i + 1])
    ensures Nodes(texts, services[..i + 1]) == Nodes(texts, services[..i]) + [NodeOf(texts, services[i])]
  {
    assert services[..i + 1] == services[..i] + [services[i]];
  }

  lemma NextBlock(services: seq<Service>, i: nat)
    requires i < |services|
    ensures GraphEdges(services[..i + 1])
         == GraphEdges(services[..i]) + ScriptEdges(services[i].name, services[i].script)
  {
    assert services[..i + 1][..i] == services[..i];
  }

  /** Succeeds if and only if no concurrent group contains another one. */
  method ServiceGraphToGraph(texts: Texts, services: seq<Service>) returns (r: Result<Graph, Failure>)
    ensures r.Ok? <==> AllFlat(services)
    ensures r.Ok? ==> r.value == Graph(Nodes(texts, services), GraphEdges(services))
    ensures r.Ok? ==> forall i | 0 <= i < |services| :: Shows(texts, services[i], r.value.nodes[i])
  {
    var nodes: seq<Node> := [];
    var edges: seq<Edge> := [];
    for i := 0 to |services|
      invariant AllFlat(services[..i]) && nodes == Nodes(texts, services[..i])
      invariant edges == GraphEdges(services[..i])
    {
      var n := ToGraphvizNode(texts, services[i]);
      if n.Err? {
        assert services[i] in services;
        return Err(n.error);
      }
      NextService(texts, services, i);
      nodes := nodes + [n.value.0];
      NextBlock(services, i);
      edges := edges + n.value.1;
    }
    assert services[..|services|] == services;
    forall i | 0 <= i < |services| ensures Shows(texts, services[i], nodes[i]) {
      NodeShows(texts, services[i]);
    }
    return Ok(Graph(nodes, edges));
  }

  // ---------------------------------------------------------------- edges and calls

  lemma {:induction false} CallsConcat(a: Script, b: Script)
    ensures Calls(a + b) == Calls(a) + Calls(b)
  {
    if a == [] {
      assert a + b == b;
    } else {
      assert (a + b)[1..] == a[1..] + b;
      CallsConcat(a[1..], b);
    }
  }

  lemma CallsUpTo(script: Script, k: nat)
    requires k < |script|
    ensures Calls(script[..k + 1]) == Calls(script[..k]) + CallsOf(script[k])
  {
    assert script[..k + 1] == script[..k] + [script[k]];
    CallsConcat(script[..k], [script[k]]);
    assert [script[k]][1..] == [];
  }

  /** Every call of the graph, in the order of its text. */
  function AllCalls(services: seq<Service>): seq<Request> {
    if services == [] then [] else AllCalls(services[..|services| - 1]) + Calls(services[|services| - 1].script)
  }

  /** Where the calls of step `k` start among the calls of a script. */
  function StepStart(script: Script, k: nat): nat
    requires k <= |script|
  {
    |Calls(script[..k])|
  }

  lemma {:induction false} ScriptEdgesLength(from: string, script: Script)
    ensures |ScriptEdges(from, script)| == |Calls(script)|
  {
    if script != [] {
      var last := |script| - 1;
      CallsUpTo(script, last);
      assert script[..last + 1] == script;
      ScriptEdgesLength(from, script[..last]);
    }
  }

  lemma {:induction false} GraphEdgesLength(services: seq<Service>)
    ensures |GraphEdges(services)| == |AllCalls(services)|
  {
    if services != [] {
      var last := |services| - 1;
      GraphEdgesLength(services[..last]);
      ScriptEdgesLength(services[last].name, services[last].script);
    }
  }

  /** `calls` and `part` are the blocks of `all` and `edges` that begin at `start`. */
  ghost predicate HasBlock(all: seq<Request>, edges: seq<Edge>, calls: seq<Request>, part: seq<Edge>, start: nat) {
    && start + |calls| <= |all| == |edges| && |part| == |calls|
    && all[start..start + |calls|] == calls && edges[start..start + |calls|] == part
  }

  lemma BlockAdded(all: seq<Request>, edges: seq<Edge>, calls: seq<Request>, part: seq<Edge>)
    requires |all| == |edges| && |calls| == |part|
    ensures HasBlock(all + calls, edges + part, calls, part, |all|)
  {
  }

  lemma BlockStays(all: seq<Request>, edges: seq<Edge>, calls: seq<Request>, part: seq<Edge>, start: nat,
                   moreCalls: seq<Request>, moreEdges: seq<Edge>)
    requires HasBlock(all, edges, calls, part, start) && |moreCalls| == |moreEdges|
    ensures HasBlock(all + moreCalls, edges + moreEdges, calls, part, start)
  {
    assert (all + moreCalls)[start..start + |calls|] == all[start..start + |calls|];
    assert (edges + moreEdges)[start..start + |calls|] == edges[start..start + |calls|];
  }

  lemma CallInBlock(all: seq<Request>, edges: seq<Edge>, calls: seq<Request>, part: seq<Edge>, start: nat, off: nat,
                    call: Request, from: string, k: nat)
    requires HasBlock(all, edges, calls, part, start) && off < |calls|
    requires calls[off] == call && part[off] == Edge(from, call.serviceName, k)
    ensures start + off < |all| == |edges|
    ensures all[start + off] == call && edges[start + off] == Edge(from, call.serviceName, k)
  {
    assert all[start + off] == all[start..start + |calls|][off];
    assert edges[start + off] == edges[start..start + |calls|][off];
  }

  /** Step `k` of a script contributes one contiguous block of edges, at the place of its calls. */
  lemma {:induction false} StepBlock(from: string, script: Script, k: nat)
    requires k < |script|
    ensures HasBlock(Calls(script), ScriptEdges(from, script), CallsOf(script[k]),
                     EdgesTo(from, k, CallsOf(script[k])), StepStart(script, k))
    decreases |script|
  {
    var last := |script| - 1;
    var front, step := script[..last], CallsOf(script[last]);
    CallsUpTo(script, last);
    assert script[..last + 1] == script;
    ScriptEdgesLength(from, front);
    if k == last {
      BlockAdded(Calls(front), ScriptEdges(from, front), step, EdgesTo(from, last, step));
    } else {
      StepBlock(from, front, k);
      assert front[..k] == script[..k];
      BlockStays(Calls(front), ScriptEdges(from, front), CallsOf(script[k]), EdgesTo(from, k, CallsOf(script[k])),
                 StepStart(script, k), step, EdgesTo(from, last, step));
    }
  }

  /** Service `i` contributes one contiguous block of edges, at the place of its calls. */
  lemma {:induction false} ServiceBlock(services: seq<Service>, i: nat)
    requires i < |services|
    ensures HasBlock(AllCalls(services), GraphEdges(services), Calls(services[i].script),
                     ScriptEdges(services[i].name, services[i].script), |AllCalls(services[..i])|)
  {
    var last := |services| - 1;
    var front, name, script := services[..last], services[last].name, services[last].script;
    GraphEdgesLength(front);
    ScriptEdgesLength(name, script);
    if i == last {
      BlockAdded(AllCalls(front), GraphEdges(front), Calls(script), ScriptEdges(name, script));
    } else {
      ServiceBlock(front, i);
      assert front[..i] == services[..i];
      BlockStays(AllCalls(front), GraphEdges(front), Calls(services[i].script),
                 ScriptEdges(services[i].name, services[i].script), |AllCalls(services[..i])|, Calls(script),
                 ScriptEdges(name, script));
    }
  }

  lemma SliceOfSlice<T>(s: seq<T>, t: seq<T>, a: nat, u: seq<T>, b: nat)
    requires a + |t| <= |s| && s[a..a + |t|] == t
    requires b + |u| <= |t| && t[b..b + |u|] == u
    ensures s[a + b..a + b + |u|] == u
  {
    assert forall i | 0 <= i < |u| :: u[i] == t[b + i] == s[a + b + i];
  }

  lemma BlockInBlock(all: seq<Request>, edges: seq<Edge>, calls: seq<Request>, part: seq<Edge>, start: nat,
                     inner: seq<Request>, innerPart: seq<Edge>, off: nat)
    requires HasBlock(all, edges, calls, part, start) && HasBlock(calls, part, inner, innerPart, off)
    ensures HasBlock(all, edges, inner, innerPart, start + off)
  {
    SliceOfSlice(all, calls, start, inner, off);
    SliceOfSlice(edges, part, start, innerPart, off);
  }

  /** The number of calls in the text before step `k` of service `i`. */
  function Place(services: seq<Service>, i: nat, k: nat): nat
    requires i < |services| && k < |services[i].script|
  {
    |AllCalls(services[..i])| + StepStart(services[i].script, k)
  }

  /**
   Edges are in order-preserving bijection with calls: there are as many, and at the places of the
   calls of step `k` of service `i` stand edges that leave that service at that step and enter the
   services these calls name, in order.
   */
  lemma EdgesAreCalls(services: seq<Service>, i: nat, k: nat)
    requires i < |services| && k < |services[i].script|
    ensures HasBlock(AllCalls(services), GraphEdges(services), CallsOf(services[i].script[k]),
                     EdgesTo(services[i].name, k, CallsOf(services[i].script[k])), Place(services, i, k))
  {
    var name, script := services[i].name, services[i].script;
    ServiceBlock(services, i);
    StepBlock(name, script, k);
    BlockInBlock(AllCalls(services), GraphEdges(services), Calls(script), ScriptEdges(name, script),
                 |AllCalls(services[..i])|, CallsOf(script[k]), EdgesTo(name, k, CallsOf(script[k])),
                 StepStart(script, k));
  }

  /** One edge per call: it leaves the calling service at the step of the call and enters the called one. */
  lemma EdgeOfCall(services: seq<Service>, i: nat, k: nat, j: nat)
    requires i < |services| && k < |services[i].script| && j < |CallsOf(services[i].script[k])|
    ensures |GraphEdges(services)| == |AllCalls(services)| && Place(services, i, k) + j < |GraphEdges(services)|
    ensures var e := GraphEdges(services)[Place(services, i, k) + j];
            && e.from == services[i].name && e.stepIndex == k
            && e.to == CallsOf(services[i].script[k])[j].serviceName
  {
    EdgesAreCalls(services, i, k);
    var name, calls := services[i].name, CallsOf(services[i].script[k]);
    CallInBlock(AllCalls(services), GraphEdges(services), calls, EdgesTo(name, k, calls), Place(services, i, k), j,
                calls[j], name, k);
  }

  lemma {:induction false} CallPosition(script: Script, at: nat) returns (k: nat, j: nat)
    requires at < |Calls(script)|
    ensures k < |script| && j < |CallsOf(script[k])| && at == StepStart(script, k) + j
    decreases |script|
  {
    var last := |script| - 1;
    CallsUpTo(script, last);
    assert script[..last + 1] == script;
    if at < |Calls(script[..last])| {
      k, j := CallPosition(script[..last], at);
      assert script[..last][..k] == script[..k];
    } else {
      k, j := last, at - |Calls(script[..last])|;
    }
  }

  lemma {:induction false} EdgePosition(services: seq<Service>, at: nat) returns (i: nat, k: nat, j: nat)
    requires at < |GraphEdges(services)|
    ensures i < |services| && k < |services[i].script| && j < |CallsOf(services[i].script[k])|
    ensures at == Place(services, i, k) + j
    decreases |services|
  {
    GraphEdgesLength(services);
    var last := |services| - 1;
    if at < |AllCalls(services[..last])| {
      GraphEdgesLength(services[..last]);
      i, k, j := EdgePosition(services[..last], at);
      assert services[..last][..i] == services[..i];
    } else {
      i := last;
      k, j := CallPosition(services[last].script, at - |AllCalls(services[..last])|);
    }
  }

  /** Service `i` is where the edge starts, at one of its steps. */
  ghost predicate LeavesAt(services: seq<Service>, i: nat, e: Edge) {
    i < |services| && services[i].name == e.from && e.stepIndex < |services[i].script|
  }

  lemma EdgeEnds(services: seq<Service>, e: Edge)
    requires e in GraphEdges(services)
    ensures exists i: nat, c :: LeavesAt(services, i, e) && c in Calls(services[i].script) && c.serviceName == e.to
  {
    var at :| 0 <= at < |GraphEdges(services)| && GraphEdges(services)[at] == e;
    var i, k, j := EdgePosition(services, at);
    var c := CallsOf(services[i].script[k])[j];
    EdgesAreCalls(services, i, k);
    CallInBlock(AllCalls(services), GraphEdges(services), CallsOf(services[i].script[k]),
                EdgesTo(services[i].name, k, CallsOf(services[i].script[k])), Place(services, i, k), j, c,
                services[i].name, k);
    CallsOfMember(services[i].script, k);
    assert LeavesAt(services, i, e) && c in Calls(services[i].script) && c.serviceName == e.to;
  }

  /** The translation of a validated graph succeeds. */
  lemma ValidTranslates(services: seq<Service>)
    requires Valid(services)
    ensures AllFlat(services)
  {
  }

  /** On a validated graph every edge starts at a port of a node and ends at a node. */
  lemma EdgesJoinNodes(texts: Texts, services: seq<Service>, e: Edge)
    requires Valid(services) && e in GraphEdges(services)
    ensures AllFlat(services)
    ensures exists i: nat :: LeavesAt(services, i, e) && e.stepIndex < |Nodes(texts, services)[i].steps|
    ensures exists k :: 0 <= k < |services| && Nodes(texts, services)[k].name == e.to
  {
    ValidTranslates(services);
    EdgeEnds(services, e);
    var i: nat, c :| LeavesAt(services, i, e) && c in Calls(services[i].script) && c.serviceName == e.to;
    assert services[i] in services;
    assert e.to in Names(services);
    assert |Nodes(texts, services)[i].steps| == |services[i].script|;
    var k :| 0 <= k < |services| && services[k].name == e.to;
    assert Nodes(texts, services)[k].name == e.to;
  }

  // ---------------------------------------------------------------- edges and lines

  predicate IsCallLine(line: string) {
    |line| >= 4 && line[..4] == "CALL"
  }

  function CallLines(lines: seq<string>): nat {
    if lines == [] then 0 else (if IsCallLine(lines[0]) then 1 else 0) + CallLines(lines[1..])
  }

  /** How many of the edges leave through port `k`. */
  function AtPort(edges: seq<Edge>, k: nat): nat {
    if edges == [] then 0
    else AtPort(edges[..|edges| - 1], k) + if edges[|edges| - 1].stepIndex == k then 1 else 0
  }

  lemma {:induction false} AtPortConcat(a: seq<Edge>, b: seq<Edge>, k: nat)
    ensures AtPort(a + b, k) == AtPort(a, k) + AtPort(b, k)
    decreases |b|
  {
    if b == [] {
      assert a + b == a;
    } else {
      assert (a + b)[..|a + b| - 1] == a + b[..|b| - 1];
      AtPortConcat(a, b[..|b| - 1], k);
    }
  }

  lemma {:induction false} AtPortOfStep(edges: seq<Edge>, idx: nat, k: nat)
    requires forall e <- edges :: e.stepIndex == idx
    ensures AtPort(edges, k) == if k == idx then |edges| else 0
  {
    if edges != [] {
      assert edges[|edges| - 1] in edges;
      assert forall e <- edges[..|edges| - 1] :: e in edges;
      AtPortOfStep(edges[..|edges| - 1], idx, k);
    }
  }

  lemma LineIsCall(texts: Texts, cmd: Command)
    requires !cmd.ConcurrentCommand?
    ensures IsCallLine(Line(texts, cmd)) <==> cmd.RequestCommand?
  {
    if cmd.RequestCommand? {
      assert Line(texts, cmd)[..4] == "CALL";
    } else {
      assert Line(texts, cmd)[0] == 'S';
    }
  }

  lemma {:induction false} CallLinesCount(texts: Texts, cmds: seq<Command>)
    requires !ContainsConcurrent(cmds)
    ensures CallLines(Lines(texts, cmds)) == |Calls(cmds)|
  {
    if cmds != [] {
      LineIsCall(texts, cmds[0]);
      assert !ContainsConcurrent(cmds[1..]);
      CallLinesCount(texts, cmds[1..]);
      assert Lines(texts, cmds)[1..] == Lines(texts, cmds[1..]);
    }
  }

  lemma {:induction false} EdgesAtPort(from: string, script: Script, k: nat)
    ensures AtPort(ScriptEdges(from, script), k) == if k < |script| then |CallsOf(script[k])| else 0
  {
    if script != [] {
      var last := |script| - 1;
      var stepEdges := EdgesTo(from, last, CallsOf(script[last]));
      EdgesAtPort(from, script[..last], k);
      AtPortConcat(ScriptEdges(from, script[..last]), stepEdges, k);
      AtPortOfStep(stepEdges, last, k);
    }
  }

  /** A step has as many edges as its label has CALL lines. */
  lemma EdgesMatchLines(texts: Texts, s: Service, k: nat)
    requires Flat(s.script) && k < |s.script|
    ensures AtPort(ScriptEdges(s.name, s.script), k) == CallLines(NodeOf(texts, s).steps[k])
  {
    EdgesAtPort(s.name, s.script, k);
    CallLinesCount(texts, Parallel(s.script[k]));
    assert !s.script[k].ConcurrentCommand? ==>
             Calls([s.script[k]]) == CallsOf(s.script[k]) + Calls([]) == CallsOf(s.script[k]);
  }
}
