/**
 What the decoders of the graph package compute, as functions of the defaults in force. A plain
 field of the wrong type is noted and decoding goes on; a custom decoder that fails stops it.
 */
module Decoding {
  import opened Topology
  import opened Json

  const INT64_LIMIT := 0x8000_0000_0000_0000
  const INT32_LIMIT := 0x8000_0000

  // ---------------------------------------------------------------- scalars

  function FromInt64(n: int): Result<nat, DecodeError> {
    if n < 0 then Err(NegativeSize(n)) else Ok(n)
  }

  function DecodeSize(codec: Codec, j: Json): Result<nat, DecodeError> {
    match j
    case JString(s) => (match codec.sizeOf(s) case None => Err(InvalidSize(s)) case Some(n) => FromInt64(n))
    case JNull => Ok(0)
    case JInt(n) => if -INT64_LIMIT <= n < INT64_LIMIT then FromInt64(n) else Err(TypeMismatch)
    case _ => Err(TypeMismatch)
  }

  function FromFloat(r: real): Result<real, DecodeError> {
    if 0.0 <= r <= 1.0 then Ok(r) else Err(OutOfRange(r))
  }

  function DecodeRate(codec: Codec, j: Json): Result<real, DecodeError> {
    match j
    case JString(s) => (match codec.rateOf(s) case None => Err(InvalidPercentage(s)) case Some(r) => FromFloat(r))
    case JNull => Ok(0.0)
    case JInt(n) => FromFloat(n as real)
    case JFrac(r) => FromFloat(r)
    case _ => Err(TypeMismatch)
  }

  function TypeFromString(s: string): Result<ServiceType, DecodeError> {
    if s == "http" then Ok(ServiceHTTP)
    else if s == "grpc" then Ok(ServiceGRPC)
    else Err(InvalidServiceType(s))
  }

  function DecodeType(j: Json): Result<ServiceType, DecodeError> {
    match j
    case JString(s) => TypeFromString(s)
    case JNull => TypeFromString("")
    case _ => Err(TypeMismatch)
  }

  function DecodeDuration(codec: Codec, j: Json): Result<int, DecodeError> {
    match j
    case JString(s) => (match codec.durationOf(s) case None => Err(InvalidDuration(s)) case Some(d) => Ok(d))
    case JNull => (match codec.durationOf("") case None => Err(InvalidDuration("")) case Some(d) => Ok(d))
    case _ => Err(TypeMismatch)
  }

  // ---------------------------------------------------------------- plain fields

  /** A partly decoded record, and whether some plain field had the wrong type. */
  datatype Slot<+T> = Slot(value: T, mismatch: bool)

  function PlainString(before: string, j: Json): Slot<string> {
    match j
    case JString(s) => Slot(s, false)
    case JNull => Slot(before, false)
    case _ => Slot(before, true)
  }

  function PlainBool(before: bool, j: Json): Slot<bool> {
    match j
    case JBool(b) => Slot(b, false)
    case JNull => Slot(before, false)
    case _ => Slot(before, true)
  }

  function PlainInt32(before: int, j: Json): Slot<int> {
    match j
    case JInt(n) => if -INT32_LIMIT <= n < INT32_LIMIT then Slot(n, false) else Slot(before, true)
    case JNull => Slot(before, false)
    case _ => Slot(before, true)
  }

  function Finish<T>(slot: Slot<T>): Result<T, DecodeError> {
    if slot.mismatch then Err(TypeMismatch) else Ok(slot.value)
  }

  // ---------------------------------------------------------------- commands

  /** The default request in force when the call at a position is decoded. */
  type Ambient = seq<nat> -> Request

  function Fixed(r: Request): Ambient {
    (at: seq<nat>) => r
  }

  function RequestField(codec: Codec, slot: Slot<Request>, key: string, j: Json): Result<Slot<Request>, DecodeError> {
    var r := slot.value;
    if key == "service" then
      var name := PlainString(r.serviceName, j);
      Ok(Slot(RequestCommand(name.value, r.size), slot.mismatch || name.mismatch))
    else if key == "size" then
      match DecodeSize(codec, j)
      case Err(e) => Err(e)
      case Ok(z) => Ok(Slot(RequestCommand(r.serviceName, z), slot.mismatch))
    else Ok(slot)
  }

  function RequestFields(codec: Codec, slot: Slot<Request>, fields: seq<(string, Json)>)
    : Result<Slot<Request>, DecodeError>
    decreases fields
  {
    if fields == [] then Ok(slot)
    else
      match RequestField(codec, slot, fields[0].0, fields[0].1)
      case Err(e) => Err(e)
      case Ok(next) => RequestFields(codec, next, fields[1..])
  }

  /** RequestCommand.UnmarshalJSON, where `d` is the default request it starts from. */
  function DecodeRequest(codec: Codec, d: Request, j: Json): Result<Request, DecodeError> {
    match j
    case JString(s) => Ok(RequestCommand(s, d.size))
    case JNull => Ok(d)
    case JObject(fields) =>
      (match RequestFields(codec, Slot(d, false), fields) case Err(e) => Err(e) case Ok(slot) => Finish(slot))
    case _ => Err(TypeMismatch)
  }

  function DecodeCommand(codec: Codec, amb: Ambient, at: seq<nat>, j: Json): Result<Command, DecodeError>
    decreases j, 0
  {
    match j
    case JArray(items) =>
      (match DecodeCommands(codec, amb, at, items, 0)
       case Err(e) => Err(e)
       case Ok(cmds) => Ok(ConcurrentCommand(cmds)))
    case JNull => Err(UnknownCommandKey(""))
    case JObject(fields) =>
      if |fields| > 1 then Err(MultipleKeysInCommand)
      else if |fields| == 0 then Err(UnknownCommandKey(""))
      else if fields[0].0 == "sleep" then
        match DecodeDuration(codec, fields[0].1)
        case Err(e) => Err(e)
        case Ok(d) => Ok(SleepCommand(d))
      else if fields[0].0 == "call" then
        match DecodeRequest(codec, amb(at), fields[0].1)
        case Err(e) => Err(e)
        case Ok(r) => Ok(r)
      else Err(UnknownCommandKey(fields[0].0))
    case _ => Err(TypeMismatch)
  }

  /** The commands `k..` of a list at position `at`. */
  function DecodeCommands(codec: Codec, amb: Ambient, at: seq<nat>, items: seq<Json>, k: nat)
    : (r: Result<seq<Command>, DecodeError>)
    requires k <= |items|
    ensures r.Ok? ==> |r.value| == |items| - k
    decreases items, |items| - k
  {
    if k == |items| then Ok([])
    else
      match DecodeCommand(codec, amb, at + [k], items[k])
      case Err(e) => Err(e)
      case Ok(cmd) =>
        match DecodeCommands(codec, amb, at, items, k + 1)
        case Err(e) => Err(e)
        case Ok(rest) => Ok([cmd] + rest)
  }

  function DecodeScript(codec: Codec, amb: Ambient, at: seq<nat>, j: Json): Result<Script, DecodeError> {
    match j
    case JArray(items) => DecodeCommands(codec, amb, at, items, 0)
    case JNull => Ok([])
    case _ => Err(TypeMismatch)
  }

  // ---------------------------------------------------------------- services

  function ServiceField(codec: Codec, amb: Ambient, at: seq<nat>, slot: Slot<Service>, key: string, j: Json)
    : Result<Slot<Service>, DecodeError>
  {
    var s := slot.value;
    if key == "name" then
      var f := PlainString(s.name, j); Ok(Slot(s.(name := f.value), slot.mismatch || f.mismatch))
    else if key == "type" then
      match DecodeType(j) case Err(e) => Err(e) case Ok(t) => Ok(slot.(value := s.(kind := t)))
    else if key == "numReplicas" then
      var f := PlainInt32(s.numReplicas, j); Ok(Slot(s.(numReplicas := f.value), slot.mismatch || f.mismatch))
    else if key == "isEntrypoint" then
      var f := PlainBool(s.isEntrypoint, j); Ok(Slot(s.(isEntrypoint := f.value), slot.mismatch || f.mismatch))
    else if key == "errorRate" then
      match DecodeRate(codec, j) case Err(e) => Err(e) case Ok(r) => Ok(slot.(value := s.(errorRate := r)))
    else if key == "responseSize" then
      match DecodeSize(codec, j) case Err(e) => Err(e) case Ok(z) => Ok(slot.(value := s.(responseSize := z)))
    else if key == "script" then
      match DecodeScript(codec, amb, at, j) case Err(e) => Err(e) case Ok(c) => Ok(slot.(value := s.(script := c)))
    else Ok(slot)
  }

  function ServiceFields(codec: Codec, amb: Ambient, at: seq<nat>, slot: Slot<Service>, fields: seq<(string, Json)>)
    : Result<Slot<Service>, DecodeError>
    decreases fields
  {
    if fields == [] then Ok(slot)
    else
      match ServiceField(codec, amb, at, slot, fields[0].0, fields[0].1)
      case Err(e) => Err(e)
      case Ok(next) => ServiceFields(codec, amb, at, next, fields[1..])
  }

  function Named(s: Service): Result<Service, DecodeError> {
    if s.name == "" then Err(EmptyName) else Ok(s)
  }

  /** Service.UnmarshalJSON, where `d` is the default service it starts from. */
  function DecodeService(codec: Codec, amb: Ambient, at: seq<nat>, d: Service, j: Json): Result<Service, DecodeError> {
    match j
    case JNull => Named(d)
    case JObject(fields) =>
      (match ServiceFields(codec, amb, at, Slot(d, false), fields)
       case Err(e) => Err(e)
       case Ok(slot) => if slot.mismatch then Err(TypeMismatch) else Named(slot.value))
    case _ => Err(TypeMismatch)
  }

  /** The default service in force when element `k` of the services list is decoded. */
  type Bases = nat -> Service

  function Every(d: Service): Bases {
    (k: nat) => d
  }

  function DecodeServices(codec: Codec, amb: Ambient, at: seq<nat>, base: Bases, items: seq<Json>, k: nat)
    : (r: Result<seq<Service>, DecodeError>)
    requires k <= |items|
    ensures r.Ok? ==> |r.value| == |items| - k
    decreases |items| - k
  {
    if k == |items| then Ok([])
    else
      match DecodeService(codec, amb, at + [k], base(k), items[k])
      case Err(e) => Err(e)
      case Ok(s) =>
        match DecodeServices(codec, amb, at, base, items, k + 1)
        case Err(e) => Err(e)
        case Ok(rest) => Ok([s] + rest)
  }

  // ---------------------------------------------------------------- the two passes

  datatype Defaults = Defaults(
    kind: ServiceType,
    numReplicas: int,
    errorRate: real,
    responseSize: nat,
    script: Script,
    requestSize: nat)

  const DEFAULT_DEFAULTS := Defaults(ServiceHTTP, 1, 0.0, 0, [], 0)

  function DefaultsField(codec: Codec, amb: Ambient, at: seq<nat>, slot: Slot<Defaults>, key: string, j: Json)
    : Result<Slot<Defaults>, DecodeError>
  {
    var d := slot.value;
    if key == "type" then
      match DecodeType(j) case Err(e) => Err(e) case Ok(t) => Ok(slot.(value := d.(kind := t)))
    else if key == "numReplicas" then
      var f := PlainInt32(d.numReplicas, j); Ok(Slot(d.(numReplicas := f.value), slot.mismatch || f.mismatch))
    else if key == "errorRate" then
      match DecodeRate(codec, j) case Err(e) => Err(e) case Ok(r) => Ok(slot.(value := d.(errorRate := r)))
    else if key == "responseSize" then
      match DecodeSize(codec, j) case Err(e) => Err(e) case Ok(z) => Ok(slot.(value := d.(responseSize := z)))
    else if key == "script" then
      match DecodeScript(codec, amb, at, j) case Err(e) => Err(e) case Ok(c) => Ok(slot.(value := d.(script := c)))
    else if key == "requestSize" then
      match DecodeSize(codec, j) case Err(e) => Err(e) case Ok(z) => Ok(slot.(value := d.(requestSize := z)))
    else Ok(slot)
  }

  function DefaultsFields(codec: Codec, amb: Ambient, at: seq<nat>, slot: Slot<Defaults>, fields: seq<(string, Json)>)
    : Result<Slot<Defaults>, DecodeError>
    decreases fields
  {
    if fields == [] then Ok(slot)
    else
      match DefaultsField(codec, amb, at, slot, fields[0].0, fields[0].1)
      case Err(e) => Err(e)
      case Ok(next) => DefaultsFields(codec, amb, at, next, fields[1..])
  }

  function MetadataField(codec: Codec, amb: Ambient, slot: Slot<Defaults>, key: string, j: Json)
    : Result<Slot<Defaults>, DecodeError>
  {
    if key == "defaults" then
      match j
      case JNull => Ok(slot)
      case JObject(inner) => DefaultsFields(codec, amb, [], slot, inner)
      case _ => Ok(slot.(mismatch := true))
    else Ok(slot)
  }

  function MetadataFields(codec: Codec, amb: Ambient, slot: Slot<Defaults>, fields: seq<(string, Json)>)
    : Result<Slot<Defaults>, DecodeError>
    decreases fields
  {
    if fields == [] then Ok(slot)
    else
      match MetadataField(codec, amb, slot, fields[0].0, fields[0].1)
      case Err(e) => Err(e)
      case Ok(next) => MetadataFields(codec, amb, next, fields[1..])
  }

  /** The first pass: only the defaults section counts. */
  function DecodeMetadata(codec: Codec, amb: Ambient, j: Json): Result<Defaults, DecodeError> {
    match j
    case JNull => Ok(DEFAULT_DEFAULTS)
    case JObject(fields) =>
      (match MetadataFields(codec, amb, Slot(DEFAULT_DEFAULTS, false), fields)
       case Err(e) => Err(e)
       case Ok(slot) => Finish(slot))
    case _ => Err(TypeMismatch)
  }

  function GraphField(codec: Codec, amb: Ambient, base: Bases, slot: Slot<seq<Service>>, key: string, j: Json)
    : Result<Slot<seq<Service>>, DecodeError>
  {
    if key == "services" then
      match j
      case JNull => Ok(slot.(value := []))
      case JArray(items) =>
        (match DecodeServices(codec, amb, [], base, items, 0)
         case Err(e) => Err(e)
         case Ok(services) => Ok(slot.(value := services)))
      case _ => Ok(slot.(mismatch := true))
    else Ok(slot)
  }

  function GraphFields(codec: Codec, amb: Ambient, base: Bases, slot: Slot<seq<Service>>, fields: seq<(string, Json)>)
    : Result<Slot<seq<Service>>, DecodeError>
    decreases fields
  {
    if fields == [] then Ok(slot)
    else
      match GraphField(codec, amb, base, slot, fields[0].0, fields[0].1)
      case Err(e) => Err(e)
      case Ok(next) => GraphFields(codec, amb, base, next, fields[1..])
  }

  /** The second pass: only the services section counts. */
  function DecodeGraph(codec: Codec, amb: Ambient, base: Bases, j: Json): Result<seq<Service>, DecodeError> {
    match j
    case JNull => Ok([])
    case JObject(fields) =>
      (match GraphFields(codec, amb, base, Slot([], false), fields)
       case Err(e) => Err(e)
       case Ok(slot) => Finish(slot))
    case _ => Err(TypeMismatch)
  }

  function DefaultServiceFor(d: Defaults): Service {
    Service("", d.kind, d.numReplicas, false, d.errorRate, d.responseSize, d.script)
  }

  function DefaultRequestFor(d: Defaults): Request {
    RequestCommand("", d.requestSize)
  }
}
