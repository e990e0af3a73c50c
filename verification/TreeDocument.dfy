/**
 The generated file, read by the converter, shipped to the pods and run: the document that the
 generator writes parses to the tree, survives deployment, and serves one request per service.
 */
module TreeDocument {
  import opened Topology
  import opened Json
  import opened Decoding
  import opened Encoding
  import opened Parsing
  import opened Tree
  import opened TreeShape
  import opened RoundTrip
  import Validation
  import Execution
  import Evaluation
  import ExecutorProperties
  import PodSetup
  import Refinement
  import TreeRuns

  function CallItems(group: seq<string>): (items: seq<Json>)
    ensures |items| == |group| && forall i | 0 <= i < |group| :: items[i] == JObject([("call", JString(group[i]))])
  {
    seq(|group|, i requires 0 <= i < |group| => JObject([("call", JString(group[i]))]))
  }

  function ScriptItems(steps: seq<seq<string>>): (items: seq<Json>)
    ensures |items| == |steps| && forall i | 0 <= i < |steps| :: items[i] == JArray(CallItems(steps[i]))
  {
    seq(|steps|, i requires 0 <= i < |steps| => JArray(CallItems(steps[i])))
  }

  /** A service dictionary as it is dumped, with its keys in order. */
  function RecordFields(name: string, isEntrypoint: bool, script: Option<seq<seq<string>>>): seq<(string, Json)> {
    Unless(!isEntrypoint, "isEntrypoint", JBool(isEntrypoint))
    + ([("name", JString(name))]
    + match script case None => [] case Some(steps) => [("script", JArray(ScriptItems(steps)))])
  }

  const DEFAULTS_FIELDS := [
    ("numReplicas", JInt(NUM_REPLICAS)),
    ("requestSize", JInt(REQUEST_SIZE)),
    ("responseSize", JInt(RESPONSE_SIZE))]

  function Document(items: seq<Json>): Json {
    JObject([("defaults", JObject(DEFAULTS_FIELDS)), ("services", JArray(items))])
  }

  function StepsFor(group: seq<string>): Option<seq<seq<string>>> {
    if group == [] then None else Some([group])
  }

  function TreeItem(branches: nat, names: seq<string>, i: nat): Json
    requires i < |names|
  {
    JObject(RecordFields(names[i], i == 0, StepsFor(Children(branches, names, i))))
  }

  function TreeItems(branches: nat, names: seq<string>): (items: seq<Json>)
    ensures |items| == |names| && forall i | 0 <= i < |names| :: items[i] == TreeItem(branches, names, i)
  {
    seq(|names|, i requires 0 <= i < |names| => TreeItem(branches, names, i))
  }

  /** The end of main: the records are dumped below the defaults. */
  method WriteDocument(branches: nat, levels: nat) returns (doc: Json)
    ensures doc == Document(TreeItems(branches, TreeNames(branches, levels)))
  {
    var records := Generate(branches, levels);
    doc := Dump(branches, TreeNames(branches, levels), records);
  }

  method Dump(ghost branches: nat, ghost names: seq<string>, records: seq<Record>) returns (doc: Json)
    requires |records| == |names| && forall i | 0 <= i < |names| :: Completed(branches, names, i, records[i], true)
    ensures doc == Document(TreeItems(branches, names))
  {
    var items: seq<Json> := [];
    for i := 0 to |records|
      invariant |items| == i && forall k | 0 <= k < i :: items[k] == TreeItem(branches, names, k)
    {
      assert Completed(branches, names, i, records[i], true);
      items := items + [JObject(RecordFields(records[i].name, records[i].isEntrypoint, records[i].script))];
    }
    assert items == TreeItems(branches, names);
    doc := Document(items);
  }

  // ---------------------------------------------------------------- parsing the document

  const FILE_DEFAULTS := Defaults(ServiceHTTP, NUM_REPLICAS, 0.0, RESPONSE_SIZE, [], REQUEST_SIZE)

  lemma DefaultsOfDocument(codec: Codec, amb: Ambient, items: seq<Json>)
    ensures DecodeMetadata(codec, amb, Document(items)) == Ok(FILE_DEFAULTS)
  {
    var f, start := DEFAULTS_FIELDS, Slot(DEFAULT_DEFAULTS, false);
    var sized := start.(value := start.value.(requestSize := REQUEST_SIZE));
    assert f[1..] == [f[1], f[2]] && [f[1], f[2]][1..] == [f[2]] && [f[2]][1..] == [];
    assert DefaultsFields(codec, amb, [], Slot(FILE_DEFAULTS, false), []) == Ok(Slot(FILE_DEFAULTS, false));
    assert DefaultsFields(codec, amb, [], sized, [f[2]]) == Ok(Slot(FILE_DEFAULTS, false));
    assert DefaultsFields(codec, amb, [], start, [f[1], f[2]]) == Ok(Slot(FILE_DEFAULTS, false));
    assert DefaultsFields(codec, amb, [], start, f) == Ok(Slot(FILE_DEFAULTS, false));
    var top := [("defaults", JObject(f)), ("services", JArray(items))];
    assert top[1..] == [top[1]] && [top[1]][1..] == [];
    assert MetadataFields(codec, amb, Slot(FILE_DEFAULTS, false), []) == Ok(Slot(FILE_DEFAULTS, false));
    assert MetadataFields(codec, amb, Slot(FILE_DEFAULTS, false), [top[1]]) == Ok(Slot(FILE_DEFAULTS, false));
  }

  lemma {:induction false} CallsDecode(codec: Codec, d: Request, at: seq<nat>, group: seq<string>, k: nat)
    requires k <= |group| && d.size == REQUEST_SIZE
    ensures DecodeCommands(codec, Fixed(d), at, CallItems(group), k) == Ok(Requests(group)[k..])
    decreases |group| - k
  {
    if k == |group| {
      assert Requests(group)[k..] == [];
    } else {
      CallsDecode(codec, d, at, group, k + 1);
      assert DecodeCommand(codec, Fixed(d), at + [k], CallItems(group)[k])
          == Ok(RequestCommand(group[k], REQUEST_SIZE));
      assert Requests(group)[k..] == [Requests(group)[k]] + Requests(group)[k + 1..];
    }
  }

  lemma StepsDecode(codec: Codec, d: Request, at: seq<nat>, group: seq<string>)
    requires d.size == REQUEST_SIZE
    ensures DecodeScript(codec, Fixed(d), at, JArray(ScriptItems([group]))) == Ok([ConcurrentCommand(Requests(group))])
  {
    CallsDecode(codec, d, at + [0], group, 0);
    assert Requests(group)[0..] == Requests(group);
    var items := ScriptItems([group]);
    assert items[0] == JArray(CallItems(group));
    assert DecodeCommand(codec, Fixed(d), at + [0], items[0]) == Ok(ConcurrentCommand(Requests(group)));
    assert DecodeCommands(codec, Fixed(d), at, items, 1) == Ok([]);
    var script: seq<Command> := [ConcurrentCommand(Requests(group))];
    assert script + [] == script;
    assert DecodeCommands(codec, Fixed(d), at, items, 0) == Ok(script);
  }

  lemma ItemDecodes(codec: Codec, at: seq<nat>, name: string, isEntrypoint: bool, group: seq<string>)
    requires name != ""
    ensures DecodeService(codec, Fixed(DefaultRequestFor(FILE_DEFAULTS)), at, DefaultServiceFor(FILE_DEFAULTS),
                          JObject(RecordFields(name, isEntrypoint, StepsFor(group))))
         == Ok(Service(name, ServiceHTTP, NUM_REPLICAS, isEntrypoint, 0.0, RESPONSE_SIZE, ScriptFor(group)))
  {
    var amb := Fixed(DefaultRequestFor(FILE_DEFAULTS));
    var base := DefaultServiceFor(FILE_DEFAULTS);
    var script := JArray(ScriptItems([group]));
    var tail := if group == [] then [] else [("script", script)];
    var rest := [("name", JString(name))] + tail;
    var marked := base.(isEntrypoint := isEntrypoint);
    var named := marked.(name := name);
    StepsDecode(codec, DefaultRequestFor(FILE_DEFAULTS), at, group);
    OptionalField(codec, amb, at, Slot(base, false), !isEntrypoint, "isEntrypoint", JBool(isEntrypoint), rest);
    OptionalField(codec, amb, at, Slot(marked, false), false, "name", JString(name), tail);
    OptionalField(codec, amb, at, Slot(named, false), group == [], "script", script, []);
    assert Unless(group == [], "script", script) + [] == tail;
  }

  ghost predicate NonEmpty(names: seq<string>) {
    forall i | 0 <= i < |names| :: names[i] != ""
  }

  /** Item `i` decodes to service `i` over `d`. */
  ghost predicate DecodesAt(codec: Codec, amb: Ambient, d: Service, items: seq<Json>, services: seq<Service>, i: nat)
    requires i < |items| == |services|
  {
    DecodeService(codec, amb, [i], d, items[i]) == Ok(services[i])
  }

  lemma {:induction false} ListDecodes(codec: Codec, amb: Ambient, d: Service, items: seq<Json>, services: seq<Service>,
                                       k: nat)
    requires k <= |items| == |services|
    requires forall i | k <= i < |items| :: DecodesAt(codec, amb, d, items, services, i)
    ensures DecodeServices(codec, amb, [], Every(d), items, k) == Ok(services[k..])
    decreases |items| - k
  {
    if k == |items| {
      assert services[k..] == [];
    } else {
      assert DecodesAt(codec, amb, d, items, services, k);
      ListDecodes(codec, amb, d, items, services, k + 1);
      DecodedFrom(codec, amb, d, items, k);
      assert services[k..] == [services[k]] + services[k + 1..];
    }
  }

  lemma ItemsDecode(codec: Codec, branches: nat, names: seq<string>)
    requires NonEmpty(names)
    ensures DecodeServices(codec, Fixed(DefaultRequestFor(FILE_DEFAULTS)), [], Every(DefaultServiceFor(FILE_DEFAULTS)),
                           TreeItems(branches, names), 0)
         == Ok(TreeServices(branches, names))
  {
    var amb, d := Fixed(DefaultRequestFor(FILE_DEFAULTS)), DefaultServiceFor(FILE_DEFAULTS);
    var items, services := TreeItems(branches, names), TreeServices(branches, names);
    forall i | 0 <= i < |names| ensures DecodesAt(codec, amb, d, items, services, i) {
      ItemDecodes(codec, [i], names[i], i == 0, Children(branches, names, i));
      assert services[i] == TreeService(branches, names, i);
    }
    ListDecodes(codec, amb, d, items, services, 0);
    assert services[0..] == services;
  }

  lemma GraphOfDocument(codec: Codec, branches: nat, names: seq<string>)
    requires NonEmpty(names)
    ensures DecodeGraph(codec, Fixed(DefaultRequestFor(FILE_DEFAULTS)), Every(DefaultServiceFor(FILE_DEFAULTS)),
                        Document(TreeItems(branches, names)))
         == Ok(TreeServices(branches, names))
  {
    var amb, base := Fixed(DefaultRequestFor(FILE_DEFAULTS)), Every(DefaultServiceFor(FILE_DEFAULTS));
    var items := TreeItems(branches, names);
    var top := [("defaults", JObject(DEFAULTS_FIELDS)), ("services", JArray(items))];
    var empty: Slot<seq<Service>> := Slot([], false);
    var filled := Slot(TreeServices(branches, names), false);
    ItemsDecode(codec, branches, names);
    assert top[1..] == [top[1]] && [top[1]][1..] == [];
    assert GraphFields(codec, amb, base, filled, []) == Ok(filled);
    assert GraphFields(codec, amb, base, empty, [top[1]]) == Ok(filled);
  }

  lemma DocumentOf(codec: Codec, amb: Ambient, branches: nat, names: seq<string>)
    requires NonEmpty(names) && Validation.Valid(TreeServices(branches, names))
    ensures Parse(codec, amb, Document(TreeItems(branches, names))) == Ok(TreeServices(branches, names))
  {
    DefaultsOfDocument(codec, amb, TreeItems(branches, names));
    GraphOfDocument(codec, branches, names);
    Validation.ValidationIsExact(TreeServices(branches, names));
  }

  /** The converter reads the generated file as the complete tree, whatever the ambient defaults are. */
  lemma DocumentIsTree(codec: Codec, amb: Ambient, branches: nat, levels: nat)
    ensures Parse(codec, amb, Document(TreeItems(branches, TreeNames(branches, levels))))
         == Ok(TreeServices(branches, TreeNames(branches, levels)))
  {
    TreeIsValid(branches, levels);
    DocumentOf(codec, amb, branches, TreeNames(branches, levels));
  }

  /** A script of one step, in which `count` services from `names[first]` on are called with 128 bytes each. */
  predicate CallsTogether(script: Script, names: seq<string>, first: nat, count: nat) {
    && script != [] && script[1..] == [] && script[0].ConcurrentCommand? && |script[0].members| == count
    && first + count <= |names|
    && forall k | 0 <= k < count :: script[0].members[k] == RequestCommand(names[first + k], 128)
  }

  /**
   The services that the converter reads from the generated file, field by field: service `i` calls its
   children, services FirstChild(i), FirstChild(i) + 1, ..., together, or has no script if there are none.
   */
  lemma GeneratedServices(codec: Codec, amb: Ambient, branches: nat, levels: nat, names: seq<string>, i: nat)
    requires names == TreeNames(branches, levels) && i < |names|
    ensures var r := Parse(codec, amb, Document(TreeItems(branches, names)));
            && r.Ok? && |r.value| == NumServices(branches, levels)
            && r.value[i].name == names[i] && r.value[i].kind == ServiceHTTP && r.value[i].numReplicas == 1
            && (r.value[i].isEntrypoint <==> i == 0) && r.value[i].errorRate == 0.0 && r.value[i].responseSize == 128
            && if branches > 0 && FirstChild(branches, i) < |names|
               then CallsTogether(r.value[i].script, names, FirstChild(branches, i), branches)
               else r.value[i].script == []
  {
    DocumentIsTree(codec, amb, branches, levels);
    TreeGrows(branches, levels);
    assert GrowsAt(branches, |names|, i);
    ScriptIs(branches, names, i);
  }

  lemma ScriptIs(branches: nat, names: seq<string>, i: nat)
    requires i < |names| && GrowsAt(branches, |names|, i)
    ensures var script := TreeService(branches, names, i).script;
            if branches > 0 && FirstChild(branches, i) < |names|
            then CallsTogether(script, names, FirstChild(branches, i), branches)
            else script == []
  {
  }

  // ---------------------------------------------------------------- end to end

  lemma GroupIsExact(codec: Codec, group: seq<string>)
    requires SizeExact(codec, 128)
    ensures ExactCommands(codec, ScriptFor(group))
  {
    forall m | m in Requests(group) ensures ExactCommand(codec, m) {
      var k :| 0 <= k < |group| && m == Requests(group)[k];
    }
  }

  lemma TreeIsExact(codec: Codec, branches: nat, names: seq<string>)
    requires SizeExact(codec, 128) && NonEmpty(names)
    ensures ExactGraph(codec, TreeServices(branches, names))
    ensures forall s <- TreeServices(branches, names) :: WellTyped(s)
  {
    forall s | s in TreeServices(branches, names) ensures ExactService(codec, s) && WellTyped(s) {
      var i :| 0 <= i < |names| && s == TreeServices(branches, names)[i];
      assert s == TreeService(branches, names, i);
      GroupIsExact(codec, Children(branches, names, i));
    }
  }

  lemma TreeDeploys(codec: Codec, podAmb: Ambient, branches: nat, levels: nat)
    requires SizeExact(codec, 128)
    ensures var services := TreeServices(branches, TreeNames(branches, levels));
            Parse(codec, podAmb, EncodeGraph(codec, services)) == Ok(services)
  {
    TreeIsValid(branches, levels);
    TreeIsExact(codec, branches, TreeNames(branches, levels));
    EncodedRoundTrip(codec, podAmb, TreeServices(branches, TreeNames(branches, levels)));
  }

  /**
   From the generator to the running pods: the generated file is parsed by the converter, marshalled
   into the ConfigMap, parsed again by every pod, and the pods run what they parsed. With a text form
   that keeps the size of 128 bytes and with reliable transport, one request at the entrypoint
   completes under every schedule, is answered with 200, and every generated service receives exactly
   one request.
   */
  lemma GeneratedTopologyRuns(codec: Codec, amb: Ambient, podAmb: Ambient, branches: nat, levels: nat,
                              parsed: seq<Service>, deployed: seq<Service>, env: Execution.Env,
                              header: Execution.Header, schedule: seq<seq<nat>>, st: Execution.State, t: nat)
    requires SizeExact(codec, 128)
    requires levels > 0 && t < NumServices(branches, levels)
    requires Parse(codec, amb, Document(TreeItems(branches, TreeNames(branches, levels)))) == Ok(parsed)
    requires Parse(codec, podAmb, EncodeGraph(codec, parsed)) == Ok(deployed)
    requires env.scripts == PodSetup.ScriptsOf(deployed)
    requires forall path :: env.fault(path).Reliable?
    requires Execution.Run(env, Execution.Init("svc-0", header), schedule) == Some(st)
    ensures Refinement.Terminates(env, "svc-0", header)
    ensures Refinement.WithinWork(env, NumServices(branches, levels), "svc-0", header, |schedule|)
    ensures !st.root.Replied? ==> exists choice :: Execution.Step(env, st, choice).Some?
    ensures st.root.Replied? ==>
              && st.root.code == 200
              && Evaluation.Count(st.log, ExecutorProperties.IncomingTo(TreeNames(branches, levels)[t])) == 1
  {
    DocumentIsTree(codec, amb, branches, levels);
    TreeDeploys(codec, podAmb, branches, levels);
    TreeRuns.OneRequestPerService(env, branches, levels, header, schedule, st, t);
  }
}
