/** Marshalling a service graph, as the converter does for the ConfigMap that every pod reads. */
module Encoding {
  import opened Topology
  import opened Json

  function EncodeSize(codec: Codec, z: nat): Json {
    JString(codec.sizeText(z))
  }

  function EncodeRate(r: real): Json {
    if r == r.Floor as real then JInt(r.Floor) else JFrac(r)
  }

  /** strings.ToLower of ServiceType.String */
  function TypeText(t: ServiceType): string {
    match t
    case ServiceHTTP => "http"
    case ServiceGRPC => "grpc"
    case ServiceUnknown => ""
  }

  function EncodeCommand(codec: Codec, cmd: Command): Json
    decreases cmd
  {
    match cmd
    case SleepCommand(d) => JObject([("sleep", JString(codec.durationText(d)))])
    case RequestCommand(name, size) =>
      JObject([("call", JObject([("service", JString(name)), ("size", EncodeSize(codec, size))]))])
    case ConcurrentCommand(members) => JArray(EncodeCommands(codec, members, 0))
  }

  function EncodeCommands(codec: Codec, cmds: seq<Command>, k: nat): (items: seq<Json>)
    requires k <= |cmds|
    ensures |items| == |cmds| - k
    decreases cmds, |cmds| - k
  {
    if k == |cmds| then [] else [EncodeCommand(codec, cmds[k])] + EncodeCommands(codec, cmds, k + 1)
  }

  /** commandsToMarshallable */
  method CommandsToMarshallable(codec: Codec, cmds: seq<Command>) returns (items: seq<Json>)
    ensures items == EncodeCommands(codec, cmds, 0)
    decreases cmds, 1
  {
    items := [];
    for k := 0 to |cmds|
      invariant EncodeCommands(codec, cmds, 0) == items + EncodeCommands(codec, cmds, k)
    {
      var item := CommandToMarshallable(codec, cmds[k]);
      assert items + [item] + EncodeCommands(codec, cmds, k + 1) == items + EncodeCommands(codec, cmds, k);
      items := items + [item];
    }
  }

  method CommandToMarshallable(codec: Codec, cmd: Command) returns (item: Json)
    ensures item == EncodeCommand(codec, cmd)
    decreases cmd, 0
  {
    match cmd {
      case SleepCommand(d) =>
        item := JObject([("sleep", JString(codec.durationText(d)))]);
      case RequestCommand(name, size) =>
        item := JObject([("call", JObject([("service", JString(name)), ("size", EncodeSize(codec, size))]))]);
      case ConcurrentCommand(members) =>
        var items := CommandsToMarshallable(codec, members);
        item := JArray(items);
    }
  }

  /** A field that `omitempty` drops when it is empty. */
  function Unless(empty: bool, key: string, j: Json): seq<(string, Json)> {
    if empty then [] else [(key, j)]
  }

  function ServiceToFields(codec: Codec, s: Service): seq<(string, Json)> {
    [("name", JString(s.name))]
    + (Unless(s.kind == ServiceUnknown, "type", JString(TypeText(s.kind)))
    + (Unless(s.numReplicas == 0, "numReplicas", JInt(s.numReplicas))
    + FromEntrypoint(codec, s)))
  }

  function FromEntrypoint(codec: Codec, s: Service): seq<(string, Json)> {
    Unless(!s.isEntrypoint, "isEntrypoint", JBool(s.isEntrypoint))
    + (Unless(s.errorRate == 0.0, "errorRate", EncodeRate(s.errorRate))
    + SizeAndScript(codec, s))
  }

  function SizeAndScript(codec: Codec, s: Service): seq<(string, Json)> {
    Unless(s.responseSize == 0, "responseSize", EncodeSize(codec, s.responseSize))
    + Unless(s.script == [], "script", JArray(EncodeCommands(codec, s.script, 0)))
  }

  function EncodeServices(codec: Codec, services: seq<Service>): (items: seq<Json>)
    ensures |items| == |services|
    ensures forall i | 0 <= i < |services| :: items[i] == JObject(ServiceToFields(codec, services[i]))
  {
    seq(|services|, i requires 0 <= i < |services| => JObject(ServiceToFields(codec, services[i])))
  }

  /** The graph's only field is `services`: no defaults section is written. */
  function EncodeGraph(codec: Codec, services: seq<Service>): Json {
    JObject([("services", JArray(EncodeServices(codec, services)))])
  }
}
