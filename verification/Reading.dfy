/**
 What the texts of a document stand for, as relations between a JSON value and what it means: which
 values every decoder accepts, and what it makes of them.
 */
module Reading {
  import opened Topology
  import opened Json
  import opened Decoding
  import opened Encoding
  import opened Parsing
  import opened Layering
  import Validation

  // ---------------------------------------------------------------- scalars

  /** `j` stands for the size `n`: a size text, a 64-bit integer, or null for zero. */
  predicate MeansSize(codec: Codec, j: Json, n: int) {
    match j
    case JString(s) => codec.sizeOf(s) == Some(n)
    case JInt(m) => m == n && -0x8000_0000_0000_0000 <= n < 0x8000_0000_0000_0000
    case JNull => n == 0
    case _ => false
  }

  /** `j` stands for the fraction `r`: a percent text, a number, or null for zero. */
  predicate MeansRate(codec: Codec, j: Json, r: real) {
    match j
    case JString(s) => codec.rateOf(s) == Some(r)
    case JInt(m) => m as real == r
    case JFrac(q) => q == r
    case JNull => r == 0.0
    case _ => false
  }

  predicate MeansType(j: Json, t: ServiceType) {
    (j == JString("http") && t == ServiceHTTP) || (j == JString("grpc") && t == ServiceGRPC)
  }

  predicate MeansDuration(codec: Codec, j: Json, d: int) {
    match j
    case JString(s) => codec.durationOf(s) == Some(d)
    case JNull => codec.durationOf("") == Some(d)
    case _ => false
  }

  /**
   Sizes are accepted exactly when they stand for a natural number and rates exactly when they stand for a
   fraction between 0 and 1; a negative size and a rate out of range are reported with the value they had.
   */
  lemma ScalarsRead(codec: Codec, j: Json)
    ensures forall n: nat :: DecodeSize(codec, j) == Ok(n) <==> MeansSize(codec, j, n)
    ensures forall n: int :: DecodeSize(codec, j) == Err(NegativeSize(n)) <==> n < 0 && MeansSize(codec, j, n)
    ensures forall r: real :: DecodeRate(codec, j) == Ok(r) <==> 0.0 <= r <= 1.0 && MeansRate(codec, j, r)
    ensures forall r: real ::
              DecodeRate(codec, j) == Err(OutOfRange(r)) <==> !(0.0 <= r <= 1.0) && MeansRate(codec, j, r)
    ensures forall t :: DecodeType(j) == Ok(t) <==> MeansType(j, t)
    ensures forall d: int :: DecodeDuration(codec, j) == Ok(d) <==> MeansDuration(codec, j, d)
  {
  }

  // ---------------------------------------------------------------- commands

  predicate MeansName(f: Option<Json>, before: string, after: string) {
    match f
    case None => after == before
    case Some(JNull) => after == before
    case Some(JString(s)) => after == s
    case Some(_) => false
  }

  predicate FieldsMean(codec: Codec, d: Request, fields: seq<(string, Json)>, c: Request) {
    && MeansName(Find(fields, "service"), d.serviceName, c.serviceName)
    && if Find(fields, "size").Some? then MeansSize(codec, Find(fields, "size").value, c.size) else c.size == d.size
  }

  /** `j` is the call `c` where `d` is the default request: a service name, or an object with name and size. */
  predicate MeansCall(codec: Codec, d: Request, j: Json, c: Request) {
    match j
    case JString(s) => c == RequestCommand(s, d.size)
    case JObject(fields) => FieldsMean(codec, d, fields, c)
    case JNull => c == d
    case _ => false
  }

  /** `j` is the command `cmd`: a list is a group, and an object with one key a sleep or a call. */
  predicate MeansCommand(codec: Codec, amb: Ambient, at: seq<nat>, j: Json, cmd: Command)
    decreases j
  {
    match cmd
    case SleepCommand(d) =>
      j.JObject? && |j.fields| == 1 && j.fields[0].0 == "sleep" && MeansDuration(codec, j.fields[0].1, d)
    case RequestCommand(_, _) =>
      j.JObject? && |j.fields| == 1 && j.fields[0].0 == "call" && MeansCall(codec, amb(at), j.fields[0].1, cmd)
    case ConcurrentCommand(members) =>
      j.JArray? && MeansAll(codec, amb, at, j.items, members)
  }

  predicate MeansAll(codec: Codec, amb: Ambient, at: seq<nat>, items: seq<Json>, cmds: seq<Command>)
    decreases items, 0
  {
    |cmds| == |items| && forall k | 0 <= k < |items| :: MeansCommand(codec, amb, at + [k], items[k], cmds[k])
  }

  /** The elements `k..` mean the commands `cmds`. */
  predicate MeansFrom(codec: Codec, amb: Ambient, at: seq<nat>, items: seq<Json>, k: nat, cmds: seq<Command>)
    requires k <= |items|
  {
    && |cmds| == |items| - k
    && forall i | k <= i < |items| :: MeansCommand(codec, amb, at + [i], items[i], cmds[i - k])
  }

  lemma MeansOneMore(codec: Codec, amb: Ambient, at: seq<nat>, items: seq<Json>, k: nat, cmd: Command,
                     rest: seq<Command>)
    requires k < |items|
    ensures MeansFrom(codec, amb, at, items, k, [cmd] + rest) <==>
            MeansCommand(codec, amb, at + [k], items[k], cmd) && MeansFrom(codec, amb, at, items, k + 1, rest)
  {
    var cmds := [cmd] + rest;
    assert cmds[1..] == rest;
    if MeansFrom(codec, amb, at, items, k, cmds) {
      assert MeansCommand(codec, amb, at + [k], items[k], cmds[0]);
    }
  }

  /** No call of the list, at any depth, gives a key twice. */
  predicate UniqueCalls(j: Json)
    decreases j
  {
    match j
    case JArray(items) => forall k | 0 <= k < |items| :: UniqueCalls(items[k])
    case JObject(fields) => forall k | 0 <= k < |fields| :: UniqueKeys(FieldsOf(fields[k].1))
    case _ => true
  }

  /** No key is given twice, neither in the object nor in a call of its script. */
  predicate UniqueFields(fields: seq<(string, Json)>) {
    UniqueKeys(fields) && forall f <- fields :: f.0 == "script" ==> UniqueCalls(f.1)
  }

  lemma {:induction false} RequestFieldsRead(codec: Codec, slot: Slot<Request>, fields: seq<(string, Json)>, c: Request)
    requires UniqueKeys(fields)
    ensures RequestFields(codec, slot, fields) == Ok(Slot(c, false)) <==>
            !slot.mismatch && FieldsMean(codec, slot.value, fields, c)
    decreases fields
  {
    if fields != [] {
      FindRest(fields, fields[0].0);
      ScalarsRead(codec, fields[0].1);
      var next := RequestField(codec, slot, fields[0].0, fields[0].1);
      if next.Ok? {
        RequestFieldsRead(codec, next.value, fields[1..], c);
      }
    }
  }

  lemma CallRead(codec: Codec, d: Request, j: Json, c: Request)
    requires UniqueKeys(FieldsOf(j))
    ensures DecodeRequest(codec, d, j) == Ok(c) <==> MeansCall(codec, d, j, c)
  {
    if j.JObject? {
      RequestFieldsRead(codec, Slot(d, false), j.fields, c);
    }
  }

  /** A text of a command is accepted exactly when it means a command, and that is what is decoded. */
  lemma {:induction false} CommandRead(codec: Codec, amb: Ambient, at: seq<nat>, j: Json, cmd: Command)
    requires UniqueCalls(j)
    ensures DecodeCommand(codec, amb, at, j) == Ok(cmd) <==> MeansCommand(codec, amb, at, j, cmd)
    decreases j, 0
  {
    match j
    case JArray(items) =>
      if cmd.ConcurrentCommand? {
        CommandsRead(codec, amb, at, items, 0, cmd.members);
      }
    case JObject(fields) =>
      if |fields| == 1 {
        ScalarsRead(codec, fields[0].1);
        if cmd.RequestCommand? {
          CallRead(codec, amb(at), fields[0].1, cmd);
        }
      }
    case _ =>
  }

  lemma {:induction false} CommandsRead(codec: Codec, amb: Ambient, at: seq<nat>, items: seq<Json>, k: nat,
                                        cmds: seq<Command>)
    requires k <= |items| && forall i | 0 <= i < |items| :: UniqueCalls(items[i])
    ensures DecodeCommands(codec, amb, at, items, k) == Ok(cmds) <==> MeansFrom(codec, amb, at, items, k, cmds)
    decreases items, |items| - k
  {
    if k < |items| && cmds != [] {
      var cmd, rest := cmds[0], cmds[1..];
      assert cmds == [cmd] + rest;
      CommandRead(codec, amb, at + [k], items[k], cmd);
      CommandsRead(codec, amb, at, items, k + 1, rest);
      MeansOneMore(codec, amb, at, items, k, cmd, rest);
    }
  }

  /** `j` is the script: a list of commands, or null for none. */
  predicate MeansScript(codec: Codec, amb: Ambient, at: seq<nat>, j: Json, script: Script) {
    if j.JArray? then MeansAll(codec, amb, at, j.items, script) else j.JNull? && script == []
  }

  lemma ScriptRead(codec: Codec, amb: Ambient, at: seq<nat>, j: Json, script: Script)
    requires UniqueCalls(j)
    ensures DecodeScript(codec, amb, at, j) == Ok(script) <==> MeansScript(codec, amb, at, j, script)
  {
    if j.JArray? {
      CommandsRead(codec, amb, at, j.items, 0, script);
    }
  }

  // ---------------------------------------------------------------- services

  predicate MeansInt32(f: Option<Json>, before: int, after: int) {
    match f
    case None => after == before
    case Some(JNull) => after == before
    case Some(JInt(n)) => after == n && -0x8000_0000 <= n < 0x8000_0000
    case Some(_) => false
  }

  predicate MeansBool(f: Option<Json>, before: bool, after: bool) {
    match f
    case None => after == before
    case Some(JNull) => after == before
    case Some(JBool(b)) => after == b
    case Some(_) => false
  }

  predicate ServiceMeans(codec: Codec, amb: Ambient, at: seq<nat>, d: Service, fields: seq<(string, Json)>, s: Service)
  {
    && MeansName(Find(fields, "name"), d.name, s.name)
    && (match Find(fields, "type") case None => s.kind == d.kind case Some(j) => MeansType(j, s.kind))
    && MeansInt32(Find(fields, "numReplicas"), d.numReplicas, s.numReplicas)
    && MeansBool(Find(fields, "isEntrypoint"), d.isEntrypoint, s.isEntrypoint)
    && (match Find(fields, "errorRate")
        case None => s.errorRate == d.errorRate
        case Some(j) => 0.0 <= s.errorRate <= 1.0 && MeansRate(codec, j, s.errorRate))
    && (match Find(fields, "responseSize")
        case None => s.responseSize == d.responseSize
        case Some(j) => MeansSize(codec, j, s.responseSize))
    && (match Find(fields, "script")
        case None => s.script == d.script
        case Some(j) => MeansScript(codec, amb, at, j, s.script))
  }

  /** What the first field contributes, in terms of the fields after it. */
  lemma ServiceFieldRead(codec: Codec, amb: Ambient, at: seq<nat>, slot: Slot<Service>, fields: seq<(string, Json)>,
                         s: Service)
    requires fields != [] && Find(fields[1..], fields[0].0) == None
    requires fields[0].0 == "script" ==> UniqueCalls(fields[0].1)
    ensures var next := ServiceField(codec, amb, at, slot, fields[0].0, fields[0].1);
            !slot.mismatch && ServiceMeans(codec, amb, at, slot.value, fields, s) <==>
            next.Ok? && !next.value.mismatch && ServiceMeans(codec, amb, at, next.value.value, fields[1..], s)
  {
    ScalarsRead(codec, fields[0].1);
    if fields[0].0 == "script" {
      ScriptRead(codec, amb, at, fields[0].1, s.script);
    }
  }

  lemma {:induction false} ServiceFieldsRead(codec: Codec, amb: Ambient, at: seq<nat>, slot: Slot<Service>,
                                             fields: seq<(string, Json)>, s: Service)
    requires UniqueFields(fields)
    ensures ServiceFields(codec, amb, at, slot, fields) == Ok(Slot(s, false)) <==>
            !slot.mismatch && ServiceMeans(codec, amb, at, slot.value, fields, s)
    decreases fields
  {
    if fields != [] {
      FindRest(fields, fields[0].0);
      assert fields[0] in fields;
      ServiceFieldRead(codec, amb, at, slot, fields, s);
      var next := ServiceField(codec, amb, at, slot, fields[0].0, fields[0].1);
      if next.Ok? {
        ServiceFieldsRead(codec, amb, at, next.value, fields[1..], s);
      }
    }
  }

  /** A service is an object whose fields mean the service over the default service `d`, with a name. */
  lemma ServiceRead(codec: Codec, amb: Ambient, at: seq<nat>, d: Service, j: Json, s: Service)
    requires UniqueFields(FieldsOf(j))
    ensures DecodeService(codec, amb, at, d, j) == Ok(s) <==>
            s.name != "" && if j.JObject? then ServiceMeans(codec, amb, at, d, j.fields, s) else j.JNull? && s == d
  {
    if j.JObject? {
      ServiceFieldsRead(codec, amb, at, Slot(d, false), j.fields, s);
    }
  }

  // ---------------------------------------------------------------- the defaults section

  predicate DefaultsMean(codec: Codec, amb: Ambient, base: Defaults, fields: seq<(string, Json)>, d: Defaults) {
    && (match Find(fields, "type") case None => d.kind == base.kind case Some(j) => MeansType(j, d.kind))
    && MeansInt32(Find(fields, "numReplicas"), base.numReplicas, d.numReplicas)
    && (match Find(fields, "errorRate")
        case None => d.errorRate == base.errorRate
        case Some(j) => 0.0 <= d.errorRate <= 1.0 && MeansRate(codec, j, d.errorRate))
    && (match Find(fields, "responseSize")
        case None => d.responseSize == base.responseSize
        case Some(j) => MeansSize(codec, j, d.responseSize))
    && (match Find(fields, "script")
        case None => d.script == base.script
        case Some(j) => MeansScript(codec, amb, [], j, d.script))
    && (match Find(fields, "requestSize")
        case None => d.requestSize == base.requestSize
        case Some(j) => MeansSize(codec, j, d.requestSize))
  }

  lemma DefaultsFieldRead(codec: Codec, amb: Ambient, slot: Slot<Defaults>, fields: seq<(string, Json)>, d: Defaults)
    requires fields != [] && Find(fields[1..], fields[0].0) == None
    requires fields[0].0 == "script" ==> UniqueCalls(fields[0].1)
    ensures var next := DefaultsField(codec, amb, [], slot, fields[0].0, fields[0].1);
            !slot.mismatch && DefaultsMean(codec, amb, slot.value, fields, d) <==>
            next.Ok? && !next.value.mismatch && DefaultsMean(codec, amb, next.value.value, fields[1..], d)
  {
    ScalarsRead(codec, fields[0].1);
    if fields[0].0 == "script" {
      ScriptRead(codec, amb, [], fields[0].1, d.script);
    }
  }

  lemma {:induction false} DefaultsFieldsRead(codec: Codec, amb: Ambient, slot: Slot<Defaults>,
                                              fields: seq<(string, Json)>, d: Defaults)
    requires UniqueFields(fields)
    ensures DefaultsFields(codec, amb, [], slot, fields) == Ok(Slot(d, false)) <==>
            !slot.mismatch && DefaultsMean(codec, amb, slot.value, fields, d)
    decreases fields
  {
    if fields != [] {
      FindRest(fields, fields[0].0);
      assert fields[0] in fields;
      DefaultsFieldRead(codec, amb, slot, fields, d);
      var next := DefaultsField(codec, amb, [], slot, fields[0].0, fields[0].1);
      if next.Ok? {
        DefaultsFieldsRead(codec, amb, next.value, fields[1..], d);
      }
    }
  }

  lemma {:induction false} MetadataRead(codec: Codec, amb: Ambient, slot: Slot<Defaults>, top: seq<(string, Json)>,
                                        d: Defaults)
    requires UniqueKeys(top) && UniqueFields(SectionFields(Find(top, "defaults")))
    requires MetadataFields(codec, amb, slot, top) == Ok(Slot(d, false))
    ensures !slot.mismatch && DefaultsMean(codec, amb, slot.value, SectionFields(Find(top, "defaults")), d)
    decreases top
  {
    if top != [] {
      FindRest(top, top[0].0);
      var next := MetadataField(codec, amb, slot, top[0].0, top[0].1).value;
      MetadataRead(codec, amb, next, top[1..], d);
      if top[0].0 == "defaults" && top[0].1.JObject? {
        assert next == Slot(d, false);
        DefaultsFieldsRead(codec, amb, slot, top[0].1.fields, d);
      }
    }
  }

  // ---------------------------------------------------------------- documents

  /** No object of the document gives a key twice. */
  predicate UniqueDocument(top: seq<(string, Json)>) {
    && UniqueKeys(top) && UniqueFields(SectionFields(Find(top, "defaults")))
    && forall item <- ServiceItems(top) :: UniqueFields(FieldsOf(item))
  }

  /**
   What a parsed document says. There are defaults `d` that are the texts of its defaults section over
   the built-in values, and every service is the texts of its own fields over `d`; a call in its script
   that names no size has the section's request size.
   */
  lemma DocumentRead(codec: Codec, amb: Ambient, top: seq<(string, Json)>, i: nat) returns (d: Defaults)
    requires UniqueDocument(top) && Parse(codec, amb, JObject(top)).Ok? && i < |ServiceItems(top)|
    ensures DefaultsMean(codec, amb, Defaults(ServiceHTTP, 1, 0.0, 0, [], 0), SectionFields(Find(top, "defaults")), d)
    ensures var services := Parse(codec, amb, JObject(top)).value;
            && |services| == |ServiceItems(top)| && services[i].name != ""
            && ServiceMeans(codec, Fixed(RequestCommand("", d.requestSize)), [i],
                            Service("", d.kind, d.numReplicas, false, d.errorRate, d.responseSize, d.script),
                            FieldsOf(ServiceItems(top)[i]), services[i])
  {
    d := DecodeMetadata(codec, amb, JObject(top)).value;
    MetadataRead(codec, amb, Slot(DEFAULT_DEFAULTS, false), top, d);
    var own := Fixed(DefaultRequestFor(d));
    ServiceInList(codec, own, Every(DefaultServiceFor(d)), Slot([], false), top, i);
    ServiceRead(codec, own, [i], DefaultServiceFor(d), ServiceItems(top)[i],
                Parse(codec, amb, JObject(top)).value[i]);
  }

  /** Null is the empty graph; a document that is neither null nor an object is rejected. */
  lemma OtherDocuments(codec: Codec, amb: Ambient, j: Json)
    requires !j.JObject?
    ensures Parse(codec, amb, j) == if j.JNull? then Ok([]) else Err(Undecodable(TypeMismatch))
  {
    Validation.ValidationIsExact([]);
  }

  // ---------------------------------------------------------------- which error is reported

  /** Texts that stand for nothing, and values of the wrong kind. */
  lemma ScalarErrors(codec: Codec, j: Json)
    ensures forall s :: DecodeSize(codec, j) == Err(InvalidSize(s)) <==> j == JString(s) && codec.sizeOf(s) == None
    ensures forall s ::
              DecodeRate(codec, j) == Err(InvalidPercentage(s)) <==> j == JString(s) && codec.rateOf(s) == None
    ensures forall s :: DecodeType(j) == Err(InvalidServiceType(s)) <==>
              (j == JString(s) || (j.JNull? && s == "")) && s != "http" && s != "grpc"
    ensures forall s :: DecodeDuration(codec, j) == Err(InvalidDuration(s)) <==>
              (j == JString(s) || (j.JNull? && s == "")) && codec.durationOf(s) == None
    ensures j.JArray? || j.JObject? || j.JBool? ==>
              DecodeSize(codec, j) == Err(TypeMismatch) && DecodeRate(codec, j) == Err(TypeMismatch)
  {
  }

  /** A command with no key, with several, or with an unknown one; a command that is a plain value. */
  lemma CommandErrors(codec: Codec, amb: Ambient, at: seq<nat>, j: Json)
    ensures j.JObject? && |j.fields| > 1 ==> DecodeCommand(codec, amb, at, j) == Err(MultipleKeysInCommand)
    ensures j.JNull? || (j.JObject? && j.fields == []) ==>
              DecodeCommand(codec, amb, at, j) == Err(UnknownCommandKey(""))
    ensures forall key, v :: j == JObject([(key, v)]) && key != "sleep" && key != "call" ==>
              DecodeCommand(codec, amb, at, j) == Err(UnknownCommandKey(key))
    ensures !j.JObject? && !j.JArray? && !j.JNull? ==> DecodeCommand(codec, amb, at, j) == Err(TypeMismatch)
  {
  }

  /** The list of commands fails as its first failing element does. */
  lemma {:induction false} FirstCommandError(codec: Codec, amb: Ambient, at: seq<nat>, items: seq<Json>, k: nat, i: nat,
                                             e: DecodeError)
    requires k <= i < |items| && DecodeCommand(codec, amb, at + [i], items[i]) == Err(e)
    requires forall l | k <= l < i :: DecodeCommand(codec, amb, at + [l], items[l]).Ok?
    ensures DecodeCommands(codec, amb, at, items, k) == Err(e)
    decreases i - k
  {
    if k < i {
      FirstCommandError(codec, amb, at, items, k + 1, i, e);
    }
  }

  function ErrorOf<T>(r: Result<T, DecodeError>): Option<DecodeError> {
    match r case Ok(_) => None case Err(e) => Some(e)
  }

  /** How a field of a service stops the decoding; a plain field of the wrong type does not. */
  function Stops(codec: Codec, amb: Ambient, at: seq<nat>, field: (string, Json)): Option<DecodeError> {
    if field.0 == "type" then ErrorOf(DecodeType(field.1))
    else if field.0 == "errorRate" then ErrorOf(DecodeRate(codec, field.1))
    else if field.0 == "responseSize" then ErrorOf(DecodeSize(codec, field.1))
    else if field.0 == "script" then ErrorOf(DecodeScript(codec, amb, at, field.1))
    else None
  }

  /** The first field that stops the decoding is reported, whatever plain fields before it were mistyped. */
  lemma {:induction false} FirstFieldError(codec: Codec, amb: Ambient, at: seq<nat>, slot: Slot<Service>,
                                           fields: seq<(string, Json)>, k: nat, e: DecodeError)
    requires k < |fields| && Stops(codec, amb, at, fields[k]) == Some(e)
    requires forall i | 0 <= i < k :: Stops(codec, amb, at, fields[i]) == None
    ensures ServiceFields(codec, amb, at, slot, fields) == Err(e)
    decreases k
  {
    if k > 0 {
      assert Stops(codec, amb, at, fields[0]) == None;
      var next := ServiceField(codec, amb, at, slot, fields[0].0, fields[0].1).value;
      FirstFieldError(codec, amb, at, next, fields[1..], k - 1, e);
    }
  }

  lemma {:induction false} NoFieldError(codec: Codec, amb: Ambient, at: seq<nat>, slot: Slot<Service>,
                                        fields: seq<(string, Json)>)
    requires forall f <- fields :: Stops(codec, amb, at, f) == None
    ensures ServiceFields(codec, amb, at, slot, fields).Ok?
    decreases fields
  {
    if fields != [] {
      assert Stops(codec, amb, at, fields[0]) == None;
      NoFieldError(codec, amb, at, ServiceField(codec, amb, at, slot, fields[0].0, fields[0].1).value, fields[1..]);
    }
  }

  /**
   Which error a rejected service reports: that of its first field whose decoder fails; otherwise a type
   mismatch if it is no object or some plain field is mistyped, and the empty name if nothing else is wrong.
   */
  lemma ServiceErrors(codec: Codec, amb: Ambient, at: seq<nat>, d: Service, fields: seq<(string, Json)>, k: nat)
    requires k <= |fields| && forall i | 0 <= i < k :: Stops(codec, amb, at, fields[i]) == None
    ensures k < |fields| && Stops(codec, amb, at, fields[k]).Some? ==>
              DecodeService(codec, amb, at, d, JObject(fields)) == Err(Stops(codec, amb, at, fields[k]).value)
    ensures k == |fields| && UniqueFields(fields) && DecodeService(codec, amb, at, d, JObject(fields)).Err? ==>
              DecodeService(codec, amb, at, d, JObject(fields))
              == Err(if exists s :: ServiceMeans(codec, amb, at, d, fields, s) then EmptyName else TypeMismatch)
  {
    if k < |fields| && Stops(codec, amb, at, fields[k]).Some? {
      FirstFieldError(codec, amb, at, Slot(d, false), fields, k, Stops(codec, amb, at, fields[k]).value);
    } else if k == |fields| && UniqueFields(fields) {
      NoFieldError(codec, amb, at, Slot(d, false), fields);
      var slot := ServiceFields(codec, amb, at, Slot(d, false), fields).value;
      ServiceFieldsRead(codec, amb, at, Slot(d, false), fields, slot.value);
      forall s ensures ServiceMeans(codec, amb, at, d, fields, s) ==> slot == Slot(s, false) {
        ServiceFieldsRead(codec, amb, at, Slot(d, false), fields, s);
      }
    }
  }

  /** The list of services fails as its first failing element does. */
  lemma {:induction false} FirstServiceError(codec: Codec, amb: Ambient, at: seq<nat>, base: Bases, items: seq<Json>,
                                             k: nat, i: nat, e: DecodeError)
    requires k <= i < |items| && DecodeService(codec, amb, at + [i], base(i), items[i]) == Err(e)
    requires forall l: nat | k <= l < i :: DecodeService(codec, amb, at + [l], base(l), items[l]).Ok?
    ensures DecodeServices(codec, amb, at, base, items, k) == Err(e)
    decreases i - k
  {
    if k < i {
      FirstServiceError(codec, amb, at, base, items, k + 1, i, e);
    }
  }

  /** How a field of the defaults section stops the decoding. */
  function StopsDefaults(codec: Codec, amb: Ambient, field: (string, Json)): Option<DecodeError> {
    if field.0 == "requestSize" then ErrorOf(DecodeSize(codec, field.1)) else Stops(codec, amb, [], field)
  }

  /** The same for the defaults section: the first field whose decoder fails, whatever was mistyped before it. */
  lemma {:induction false} FirstDefaultsError(codec: Codec, amb: Ambient, slot: Slot<Defaults>,
                                              fields: seq<(string, Json)>, k: nat, e: DecodeError)
    requires k < |fields| && StopsDefaults(codec, amb, fields[k]) == Some(e)
    requires forall i | 0 <= i < k :: StopsDefaults(codec, amb, fields[i]) == None
    ensures DefaultsFields(codec, amb, [], slot, fields) == Err(e)
    decreases k
  {
    if k > 0 {
      assert StopsDefaults(codec, amb, fields[0]) == None;
      var next := DefaultsField(codec, amb, [], slot, fields[0].0, fields[0].1).value;
      FirstDefaultsError(codec, amb, next, fields[1..], k - 1, e);
    }
  }

  // ---------------------------------------------------------------- what is written

  lemma FindAfter(empty: bool, own: string, j: Json, rest: seq<(string, Json)>, key: string)
    ensures Find(Unless(empty, own, j) + rest, key) == if !empty && own == key then Some(j) else Find(rest, key)
  {
    if empty {
      assert [] + rest == rest;
    } else {
      assert ([(own, j)] + rest)[1..] == rest;
    }
  }

  /** The fields of a service under their keys: those with an empty value are left out, and no others. */
  lemma FieldsWritten(codec: Codec, s: Service, key: string)
    ensures Find(ServiceToFields(codec, s), key)
         == if key == "name" then Some(JString(s.name))
            else if key == "type" && !s.kind.ServiceUnknown? then Some(JString(TypeText(s.kind)))
            else if key == "numReplicas" && s.numReplicas != 0 then Some(JInt(s.numReplicas))
            else if key == "isEntrypoint" && s.isEntrypoint then Some(JBool(true))
            else if key == "errorRate" && s.errorRate != 0.0 then Some(EncodeRate(s.errorRate))
            else if key == "responseSize" && s.responseSize != 0 then Some(JString(codec.sizeText(s.responseSize)))
            else if key == "script" && s.script != [] then Some(JArray(EncodeCommands(codec, s.script, 0)))
            else None
  {
    var script, size := JArray(EncodeCommands(codec, s.script, 0)), EncodeSize(codec, s.responseSize);
    var last := Unless(s.script == [], "script", script);
    assert last + [] == last;
    FindAfter(s.script == [], "script", script, [], key);
    FindAfter(s.responseSize == 0, "responseSize", size, last, key);
    FindAfter(s.errorRate == 0.0, "errorRate", EncodeRate(s.errorRate), SizeAndScript(codec, s), key);
    var rated := Unless(s.errorRate == 0.0, "errorRate", EncodeRate(s.errorRate)) + SizeAndScript(codec, s);
    FindAfter(!s.isEntrypoint, "isEntrypoint", JBool(s.isEntrypoint), rated, key);
    FindAfter(s.numReplicas == 0, "numReplicas", JInt(s.numReplicas), FromEntrypoint(codec, s), key);
    var counted := Unless(s.numReplicas == 0, "numReplicas", JInt(s.numReplicas)) + FromEntrypoint(codec, s);
    FindAfter(s.kind == ServiceUnknown, "type", JString(TypeText(s.kind)), counted, key);
    var typed := Unless(s.kind == ServiceUnknown, "type", JString(TypeText(s.kind))) + counted;
    FindAfter(false, "name", JString(s.name), typed, key);
  }
}
