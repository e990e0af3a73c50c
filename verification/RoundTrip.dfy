/**
 The deployment round trip: the converter writes a graph without defaults, every pod parses it
 again. It gives the same graph exactly when replicas, sizes and durations survive their encoding.
 A nil script and an empty one are the same sequence here.
 */
module RoundTrip {
  import opened Topology
  import opened Json
  import opened Decoding
  import opened Encoding
  import opened Parsing
  import Validation

  // ---------------------------------------------------------------- what the text codecs must keep

  predicate SizeExact(codec: Codec, z: nat) {
    codec.sizeOf(codec.sizeText(z)) == Some(z)
  }

  predicate ExactCommand(codec: Codec, cmd: Command)
    decreases cmd
  {
    match cmd
    case SleepCommand(d) => codec.durationOf(codec.durationText(d)) == Some(d)
    case RequestCommand(_, size) => SizeExact(codec, size)
    case ConcurrentCommand(members) => forall m <- members :: ExactCommand(codec, m)
  }

  predicate ExactCommands(codec: Codec, cmds: Script) {
    forall c <- cmds :: ExactCommand(codec, c)
  }

  predicate ExactService(codec: Codec, s: Service) {
    && s.numReplicas != 0
    && (s.responseSize != 0 ==> SizeExact(codec, s.responseSize))
    && ExactCommands(codec, s.script)
  }

  /** What every parsed service satisfies; see ParsedIsWellTyped. */
  predicate WellTyped(s: Service) {
    && s.name != ""
    && s.kind != ServiceUnknown
    && -INT32_LIMIT <= s.numReplicas < INT32_LIMIT
    && 0.0 <= s.errorRate <= 1.0
  }

  // ---------------------------------------------------------------- commands

  lemma {:induction false} CommandRoundTrip(codec: Codec, amb: Ambient, at: seq<nat>, cmd: Command)
    ensures DecodeCommand(codec, amb, at, EncodeCommand(codec, cmd)) == Ok(cmd) <==> ExactCommand(codec, cmd)
    decreases cmd, 0
  {
    match cmd
    case SleepCommand(d) =>
    case RequestCommand(name, size) => CallRoundTrip(codec, amb(at), name, size);
    case ConcurrentCommand(members) =>
      CommandsRoundTrip(codec, amb, at, members, 0, EncodeCommands(codec, members, 0));
      assert (forall i | 0 <= i < |members| :: ExactCommand(codec, members[i])) <==>
             (forall m <- members :: ExactCommand(codec, m));
      assert members[0..] == members;
  }

  lemma CallRoundTrip(codec: Codec, d: Request, name: string, size: nat)
    ensures DecodeRequest(codec, d, JObject([("service", JString(name)), ("size", EncodeSize(codec, size))]))
              == Ok(RequestCommand(name, size)) <==>
            SizeExact(codec, size)
  {
    var fields := [("service", JString(name)), ("size", EncodeSize(codec, size))];
    var named: Request := RequestCommand(name, d.size);
    assert fields[1..] == [fields[1]] && fields[1..][1..] == [];
    assert RequestFields(codec, Slot(d, false), fields) == RequestFields(codec, Slot(named, false), [fields[1]]);
    match DecodeSize(codec, fields[1].1)
    case Err(_) =>
    case Ok(z) =>
      var sized: Request := RequestCommand(name, z);
      assert RequestField(codec, Slot(named, false), "size", fields[1].1) == Ok(Slot(sized, false));
      assert RequestFields(codec, Slot(named, false), [fields[1]]) == RequestFields(codec, Slot(sized, false), []);
  }

  lemma {:induction false} CommandsRoundTrip(codec: Codec, amb: Ambient, at: seq<nat>, cmds: seq<Command>, k: nat,
                                             items: seq<Json>)
    requires k <= |cmds| && items == EncodeCommands(codec, cmds, 0)
    ensures DecodeCommands(codec, amb, at, items, k) == Ok(cmds[k..]) <==>
            forall i | k <= i < |cmds| :: ExactCommand(codec, cmds[i])
    decreases cmds, |cmds| - k
  {
    if k == |cmds| {
      assert cmds[k..] == [];
    } else {
      EncodedAt(codec, cmds, 0, k);
      CommandRoundTrip(codec, amb, at + [k], cmds[k]);
      CommandsRoundTrip(codec, amb, at, cmds, k + 1, items);
      assert cmds[k..] == [cmds[k]] + cmds[k + 1..];
      ConsOk(DecodeCommand(codec, amb, at + [k], items[k]), DecodeCommands(codec, amb, at, items, k + 1),
             cmds[k], cmds[k + 1..]);
    }
  }

  lemma {:induction false} EncodedAt(codec: Codec, cmds: seq<Command>, k: nat, i: nat)
    requires k <= i < |cmds|
    ensures EncodeCommands(codec, cmds, k)[i - k] == EncodeCommand(codec, cmds[i])
    decreases i - k
  {
    if k < i {
      EncodedAt(codec, cmds, k + 1, i);
    }
  }

  function Cons<T>(head: Result<T, DecodeError>, tail: Result<seq<T>, DecodeError>): Result<seq<T>, DecodeError> {
    match head
    case Err(e) => Err(e)
    case Ok(x) => (match tail case Err(e) => Err(e) case Ok(rest) => Ok([x] + rest))
  }

  lemma ConsOk<T>(head: Result<T, DecodeError>, tail: Result<seq<T>, DecodeError>, x: T, rest: seq<T>)
    ensures Cons(head, tail) == Ok([x] + rest) <==> head == Ok(x) && tail == Ok(rest)
  {
    if head.Ok? && tail.Ok? && [head.value] + tail.value == [x] + rest {
      assert ([head.value] + tail.value)[0] == x;
      assert ([head.value] + tail.value)[1..] == tail.value && ([x] + rest)[1..] == rest;
    }
  }

  // ---------------------------------------------------------------- services

  const BUILT_IN := DefaultServiceFor(DEFAULT_DEFAULTS)

  function ThenFields(codec: Codec, amb: Ambient, at: seq<nat>, r: Result<Slot<Service>, DecodeError>,
                      rest: seq<(string, Json)>): Result<Slot<Service>, DecodeError> {
    match r
    case Err(e) => Err(e)
    case Ok(slot) => ServiceFields(codec, amb, at, slot, rest)
  }

  /** An omitted field leaves the record alone; a written one is decoded into it. */
  lemma OptionalField(codec: Codec, amb: Ambient, at: seq<nat>, slot: Slot<Service>, empty: bool, key: string, j: Json,
                      rest: seq<(string, Json)>)
    ensures ServiceFields(codec, amb, at, slot, Unless(empty, key, j) + rest)
         == ThenFields(codec, amb, at, if empty then Ok(slot) else ServiceField(codec, amb, at, slot, key, j), rest)
  {
    if empty {
      assert [] + rest == rest;
    } else {
      assert ([(key, j)] + rest)[1..] == rest;
    }
  }

  lemma ScriptDecodes(codec: Codec, amb: Ambient, at: seq<nat>, cmds: Script)
    ensures DecodeScript(codec, amb, at, JArray(EncodeCommands(codec, cmds, 0))) == Ok(cmds) <==>
            ExactCommands(codec, cmds)
  {
    CommandsRoundTrip(codec, amb, at, cmds, 0, EncodeCommands(codec, cmds, 0));
    assert cmds[0..] == cmds;
    assert (forall i | 0 <= i < |cmds| :: ExactCommand(codec, cmds[i])) <==> ExactCommands(codec, cmds);
  }

  lemma ScriptField(codec: Codec, amb: Ambient, at: seq<nat>, before: Service, s: Service)
    requires before.script == []
    ensures ServiceFields(codec, amb, at, Slot(before, false),
                          Unless(s.script == [], "script", JArray(EncodeCommands(codec, s.script, 0))))
              == Ok(Slot(before.(script := s.script), false)) <==>
            ExactCommands(codec, s.script)
  {
    var script := JArray(EncodeCommands(codec, s.script, 0));
    var fields := Unless(s.script == [], "script", script);
    OptionalField(codec, amb, at, Slot(before, false), s.script == [], "script", script, []);
    assert fields + [] == fields;
    ScriptDecodes(codec, amb, at, s.script);
  }

  lemma SizeAndScriptFields(codec: Codec, amb: Ambient, at: seq<nat>, before: Service, s: Service)
    requires before.script == [] && before.responseSize == 0
    ensures var r := ServiceFields(codec, amb, at, Slot(before, false), SizeAndScript(codec, s));
            && (r == Ok(Slot(before.(responseSize := s.responseSize, script := s.script), false)) <==>
                (s.responseSize != 0 ==> SizeExact(codec, s.responseSize)) && ExactCommands(codec, s.script))
            && (r.Ok? ==> !r.value.mismatch
                          && r.value.value == before.(responseSize := r.value.value.responseSize,
                                                      script := r.value.value.script))
  {
    var script := JArray(EncodeCommands(codec, s.script, 0));
    var size := EncodeSize(codec, s.responseSize);
    OptionalField(codec, amb, at, Slot(before, false), s.responseSize == 0, "responseSize", size,
                  Unless(s.script == [], "script", script));
    if s.responseSize == 0 {
      ScriptField(codec, amb, at, before, s);
    } else if DecodeSize(codec, size).Ok? {
      var sized := before.(responseSize := DecodeSize(codec, size).value);
      ScriptField(codec, amb, at, sized, s);
    }
  }

  lemma NameTypeReplicas(codec: Codec, amb: Ambient, at: seq<nat>, s: Service)
    requires WellTyped(s)
    ensures ServiceFields(codec, amb, at, Slot(BUILT_IN, false), ServiceToFields(codec, s))
         == ServiceFields(codec, amb, at, Slot(AfterReplicas(s), false), FromEntrypoint(codec, s))
  {
    var s1 := BUILT_IN.(name := s.name);
    var s2 := s1.(kind := s.kind);
    var r2 := Unless(s.numReplicas == 0, "numReplicas", JInt(s.numReplicas)) + FromEntrypoint(codec, s);
    var r1 := Unless(s.kind == ServiceUnknown, "type", JString(TypeText(s.kind))) + r2;
    OptionalField(codec, amb, at, Slot(BUILT_IN, false), false, "name", JString(s.name), r1);
    OptionalField(codec, amb, at, Slot(s1, false), s.kind == ServiceUnknown, "type", JString(TypeText(s.kind)), r2);
    OptionalField(codec, amb, at, Slot(s2, false), s.numReplicas == 0, "numReplicas", JInt(s.numReplicas),
                  FromEntrypoint(codec, s));
  }

  function AfterReplicas(s: Service): Service {
    BUILT_IN.(name := s.name, kind := s.kind, numReplicas := if s.numReplicas == 0 then 1 else s.numReplicas)
  }

  lemma RateDecodes(codec: Codec, amb: Ambient, at: seq<nat>, before: Service, r: real)
    requires 0.0 <= r <= 1.0
    ensures ServiceField(codec, amb, at, Slot(before, false), "errorRate", EncodeRate(r))
         == Ok(Slot(before.(errorRate := r), false))
  {
    assert DecodeRate(codec, EncodeRate(r)) == Ok(r);
  }

  lemma EntrypointAndRate(codec: Codec, amb: Ambient, at: seq<nat>, s: Service)
    requires WellTyped(s)
    ensures ServiceFields(codec, amb, at, Slot(AfterReplicas(s), false), FromEntrypoint(codec, s))
         == ServiceFields(codec, amb, at,
              Slot(AfterReplicas(s).(isEntrypoint := s.isEntrypoint, errorRate := s.errorRate), false),
              SizeAndScript(codec, s))
  {
    var s3 := AfterReplicas(s);
    var s4 := s3.(isEntrypoint := s.isEntrypoint);
    var r5 := SizeAndScript(codec, s);
    var r4 := Unless(s.errorRate == 0.0, "errorRate", EncodeRate(s.errorRate)) + r5;
    OptionalField(codec, amb, at, Slot(s3, false), !s.isEntrypoint, "isEntrypoint", JBool(s.isEntrypoint), r4);
    OptionalField(codec, amb, at, Slot(s4, false), s.errorRate == 0.0, "errorRate", EncodeRate(s.errorRate), r5);
    RateDecodes(codec, amb, at, s4, s.errorRate);
  }

  lemma ServiceRoundTrip(codec: Codec, amb: Ambient, at: seq<nat>, s: Service)
    requires WellTyped(s)
    ensures DecodeService(codec, amb, at, BUILT_IN, JObject(ServiceToFields(codec, s))) == Ok(s) <==>
            ExactService(codec, s)
  {
    var before := s.(numReplicas := if s.numReplicas == 0 then 1 else s.numReplicas, responseSize := 0, script := []);
    NameTypeReplicas(codec, amb, at, s);
    EntrypointAndRate(codec, amb, at, s);
    SizeAndScriptFields(codec, amb, at, before, s);
    assert before.(responseSize := s.responseSize, script := s.script) == s <==> s.numReplicas != 0;
  }

  /** Item `k` decodes to service `k` exactly when that service survives its encoding. */
  ghost predicate ExactAt(codec: Codec, amb: Ambient, services: seq<Service>, items: seq<Json>, k: nat)
    requires k < |services| == |items|
  {
    DecodeService(codec, amb, [k], BUILT_IN, items[k]) == Ok(services[k]) <==> ExactService(codec, services[k])
  }

  lemma {:induction false} ServicesRoundTrip(codec: Codec, amb: Ambient, services: seq<Service>, k: nat,
                                             items: seq<Json>)
    requires k <= |services| == |items|
    requires forall i | k <= i < |services| :: ExactAt(codec, amb, services, items, i)
    ensures DecodeServices(codec, amb, [], Every(BUILT_IN), items, k) == Ok(services[k..]) <==>
            forall i | k <= i < |services| :: ExactService(codec, services[i])
    decreases |services| - k
  {
    if k == |services| {
      assert services[k..] == [];
    } else {
      ServicesRoundTrip(codec, amb, services, k + 1, items);
      assert ExactAt(codec, amb, services, items, k);
      assert services[k..] == [services[k]] + services[k + 1..];
      ConsOk(DecodeService(codec, amb, [k], BUILT_IN, items[k]),
             DecodeServices(codec, amb, [], Every(BUILT_IN), items, k + 1), services[k], services[k + 1..]);
      DecodedFrom(codec, amb, BUILT_IN, items, k);
    }
  }

  lemma DecodedFrom(codec: Codec, amb: Ambient, d: Service, items: seq<Json>, k: nat)
    requires k < |items|
    ensures DecodeServices(codec, amb, [], Every(d), items, k)
         == Cons(DecodeService(codec, amb, [k], d, items[k]), DecodeServices(codec, amb, [], Every(d), items, k + 1))
  {
    assert [] + [k] == [k];
  }

  predicate ExactGraph(codec: Codec, services: seq<Service>) {
    forall s <- services :: ExactService(codec, s)
  }

  /** The pods' parse runs under the built-in defaults, whatever the ambient default request is. */
  lemma ParseOfEncoded(codec: Codec, amb: Ambient, services: seq<Service>)
    ensures Parse(codec, amb, EncodeGraph(codec, services))
         == Validated(DecodeServices(codec, Fixed(RequestCommand("", 0)), [], Every(BUILT_IN),
                                     EncodeServices(codec, services), 0))
  {
    var items := JArray(EncodeServices(codec, services));
    var top := [("services", items)];
    assert top[1..] == [];
    assert MetadataFields(codec, amb, Slot(DEFAULT_DEFAULTS, false), top) == Ok(Slot(DEFAULT_DEFAULTS, false));
    var own := Fixed(DefaultRequestFor(DEFAULT_DEFAULTS));
    var empty: Slot<seq<Service>> := Slot([], false);
    match GraphField(codec, own, Every(BUILT_IN), empty, "services", items)
    case Err(_) =>
    case Ok(next) => assert GraphFields(codec, own, Every(BUILT_IN), next, []) == Ok(next);
  }

  // ---------------------------------------------------------------- what parsing guarantees

  predicate InRange(s: Service) {
    s.kind != ServiceUnknown && -INT32_LIMIT <= s.numReplicas < INT32_LIMIT && 0.0 <= s.errorRate <= 1.0
  }

  lemma {:induction false} FieldsKeepRange(codec: Codec, amb: Ambient, at: seq<nat>, slot: Slot<Service>,
                                           fields: seq<(string, Json)>)
    requires InRange(slot.value) && ServiceFields(codec, amb, at, slot, fields).Ok?
    ensures InRange(ServiceFields(codec, amb, at, slot, fields).value.value)
    decreases fields
  {
    if fields != [] {
      FieldsKeepRange(codec, amb, at, ServiceField(codec, amb, at, slot, fields[0].0, fields[0].1).value, fields[1..]);
    }
  }

  lemma {:induction false} DefaultsKeepRange(codec: Codec, amb: Ambient, slot: Slot<Defaults>,
                                             fields: seq<(string, Json)>)
    requires InRange(DefaultServiceFor(slot.value)) && DefaultsFields(codec, amb, [], slot, fields).Ok?
    ensures InRange(DefaultServiceFor(DefaultsFields(codec, amb, [], slot, fields).value.value))
    decreases fields
  {
    if fields != [] {
      DefaultsKeepRange(codec, amb, DefaultsField(codec, amb, [], slot, fields[0].0, fields[0].1).value, fields[1..]);
    }
  }

  lemma {:induction false} MetadataKeepsRange(codec: Codec, amb: Ambient, slot: Slot<Defaults>,
                                              top: seq<(string, Json)>)
    requires InRange(DefaultServiceFor(slot.value)) && MetadataFields(codec, amb, slot, top).Ok?
    ensures InRange(DefaultServiceFor(MetadataFields(codec, amb, slot, top).value.value))
    decreases top
  {
    if top != [] {
      if top[0].0 == "defaults" && top[0].1.JObject? {
        DefaultsKeepRange(codec, amb, slot, top[0].1.fields);
      }
      MetadataKeepsRange(codec, amb, MetadataField(codec, amb, slot, top[0].0, top[0].1).value, top[1..]);
    }
  }

  lemma {:induction false} DecodedAreWellTyped(codec: Codec, amb: Ambient, d: Service, items: seq<Json>, k: nat)
    requires k <= |items| && InRange(d) && DecodeServices(codec, amb, [], Every(d), items, k).Ok?
    ensures forall s <- DecodeServices(codec, amb, [], Every(d), items, k).value :: WellTyped(s)
    decreases |items| - k
  {
    if k < |items| {
      if items[k].JObject? {
        FieldsKeepRange(codec, amb, [] + [k], Slot(d, false), items[k].fields);
      }
      DecodedAreWellTyped(codec, amb, d, items, k + 1);
    }
  }

  lemma {:induction false} GraphIsWellTyped(codec: Codec, amb: Ambient, d: Service, slot: Slot<seq<Service>>,
                                            top: seq<(string, Json)>)
    requires InRange(d) && (forall s <- slot.value :: WellTyped(s))
    requires GraphFields(codec, amb, Every(d), slot, top).Ok?
    ensures forall s <- GraphFields(codec, amb, Every(d), slot, top).value.value :: WellTyped(s)
    decreases top
  {
    if top != [] {
      if top[0].0 == "services" && top[0].1.JArray? {
        DecodedAreWellTyped(codec, amb, d, top[0].1.items, 0);
      }
      GraphIsWellTyped(codec, amb, d, GraphField(codec, amb, Every(d), slot, top[0].0, top[0].1).value, top[1..]);
    }
  }

  /** Whatever is parsed successfully is valid, named and in range. */
  lemma ParsedIsWellTyped(codec: Codec, amb: Ambient, j: Json)
    requires Parse(codec, amb, j).Ok?
    ensures Validation.Valid(Parse(codec, amb, j).value)
    ensures forall s <- Parse(codec, amb, j).value :: WellTyped(s)
  {
    var d := DecodeMetadata(codec, amb, j).value;
    var own := Fixed(DefaultRequestFor(d));
    if j.JObject? {
      MetadataKeepsRange(codec, amb, Slot(DEFAULT_DEFAULTS, false), j.fields);
      GraphIsWellTyped(codec, own, DefaultServiceFor(d), Slot([], false), j.fields);
    }
    Validation.ValidationIsExact(Parse(codec, amb, j).value);
  }

  /** The statement about a graph that satisfies what ParsedIsWellTyped gives. */
  lemma EncodedRoundTrip(codec: Codec, podAmb: Ambient, services: seq<Service>)
    requires Validation.Valid(services) && forall s <- services :: WellTyped(s)
    ensures Parse(codec, podAmb, EncodeGraph(codec, services)) == Ok(services) <==> ExactGraph(codec, services)
  {
    ParseOfEncoded(codec, podAmb, services);
    var items := EncodeServices(codec, services);
    var amb := Fixed(RequestCommand("", 0));
    forall i | 0 <= i < |services| ensures ExactAt(codec, amb, services, items, i) {
      ServiceRoundTrip(codec, amb, [i], services[i]);
    }
    ServicesRoundTrip(codec, amb, services, 0, items);
    assert services[0..] == services;
    assert (forall i | 0 <= i < |services| :: ExactService(codec, services[i])) <==> ExactGraph(codec, services);
    Validation.ValidationIsExact(services);
  }

  /**
   Deployment preserves meaning. Whatever document the converter parsed, what the pods parse from
   the ConfigMap is the converter's graph if and only if no service has zero replicas and every size
   and duration, at any depth, survives its text form. The ambient defaults of the converter and of
   the pods (`amb`, `podAmb`) do not matter.
   */
  lemma DeploymentRoundTrip(codec: Codec, amb: Ambient, j: Json, podAmb: Ambient)
    requires Parse(codec, amb, j).Ok?
    ensures var services := Parse(codec, amb, j).value;
            Parse(codec, podAmb, EncodeGraph(codec, services)) == Ok(services) <==> ExactGraph(codec, services)
  {
    ParsedIsWellTyped(codec, amb, j);
    EncodedRoundTrip(codec, podAmb, Parse(codec, amb, j).value);
  }

  /** Once it is deployed, zero replicas cannot override the built-in default of one. */
  lemma ZeroReplicasAreLost(codec: Codec, amb: Ambient, at: seq<nat>, s: Service)
    requires WellTyped(s) && s.numReplicas == 0
    ensures DecodeService(codec, amb, at, BUILT_IN, JObject(ServiceToFields(codec, s))) == Ok(s.(numReplicas := 1)) <==>
            ExactService(codec, s.(numReplicas := 1))
  {
    NameTypeReplicas(codec, amb, at, s);
    EntrypointAndRate(codec, amb, at, s);
    SizeAndScriptFields(codec, amb, at, AfterReplicas(s).(isEntrypoint := s.isEntrypoint, errorRate := s.errorRate), s);
  }

  /** services: [{name: a, numReplicas: 0}] */
  const IDLE := [("services", JArray([JObject([("name", JString("a")), ("numReplicas", JInt(0))])]))]

  function Idle(numReplicas: int): Service {
    BUILT_IN.(name := "a", numReplicas := numReplicas)
  }

  lemma IdleParses(codec: Codec, amb: Ambient)
    ensures Parse(codec, amb, JObject(IDLE)) == Ok([Idle(0)])
  {
    var fields := [("name", JString("a")), ("numReplicas", JInt(0))];
    var items, own := [JObject(fields)], Fixed(DefaultRequestFor(DEFAULT_DEFAULTS));
    var empty: Slot<seq<Service>> := Slot([], false);
    var filled: Slot<seq<Service>> := Slot([Idle(0)], false);
    assert IDLE[1..] == [] && fields[1..] == [fields[1]] && [fields[1]][1..] == [];
    assert MetadataFields(codec, amb, Slot(DEFAULT_DEFAULTS, false), IDLE) == Ok(Slot(DEFAULT_DEFAULTS, false));
    assert ServiceFields(codec, own, [] + [0], Slot(Idle(0), false), []) == Ok(Slot(Idle(0), false));
    assert ServiceFields(codec, own, [] + [0], Slot(Idle(1), false), [fields[1]]) == Ok(Slot(Idle(0), false));
    assert DecodeService(codec, own, [] + [0], BUILT_IN, items[0]) == Ok(Idle(0));
    assert DecodeServices(codec, own, [], Every(BUILT_IN), items, 1) == Ok([]);
    assert [Idle(0)] + [] == [Idle(0)];
    assert GraphFields(codec, own, Every(BUILT_IN), filled, []) == Ok(filled);
    assert GraphFields(codec, own, Every(BUILT_IN), empty, IDLE) == Ok(filled);
    IdleIsValid(0);
  }

  lemma IdleIsValid(numReplicas: int)
    ensures Validated(Ok([Idle(numReplicas)])) == Ok([Idle(numReplicas)])
  {
    Validation.ValidationIsExact([Idle(numReplicas)]);
  }

  /** A document that the converter parses with zero replicas and every pod with one. */
  lemma ZeroReplicasExample(codec: Codec, amb: Ambient, podAmb: Ambient)
    ensures Parse(codec, amb, JObject(IDLE)) == Ok([Idle(0)])
    ensures Parse(codec, podAmb, EncodeGraph(codec, [Idle(0)])) == Ok([Idle(1)])
  {
    var own := Fixed(RequestCommand("", 0));
    IdleParses(codec, amb);
    ParseOfEncoded(codec, podAmb, [Idle(0)]);
    ZeroReplicasAreLost(codec, own, [0], Idle(0));
    DecodedFrom(codec, own, BUILT_IN, EncodeServices(codec, [Idle(0)]), 0);
    assert [Idle(1)] + [] == [Idle(1)];
    IdleIsValid(1);
  }
}
