/**
 How far a parse depends on the default request its unlocked first pass finds in the global: the
 result is the same for every ambient default if and only if no call of the defaults section's
 script omits its size, or every service brings a script of its own.
 */
module Ambients {
  import opened Topology
  import opened Json
  import opened Decoding
  import opened Parsing
  import opened Layering
  import Validation

  ghost predicate SameNames(a: Ambient, b: Ambient) {
    forall at :: a(at).serviceName == b(at).serviceName
  }

  ghost predicate SameValues(a: Ambient, b: Ambient) {
    forall at :: a(at) == b(at)
  }

  /** The value under `call` names its size. */
  predicate GivesSize(call: Json) {
    !call.JString? && !call.JNull? && (call.JObject? ==> Find(call.fields, "size").Some?)
  }

  /** Every call of a command, at any depth, names its size. */
  predicate GivesSizes(cmd: Json) {
    match cmd
    case JArray(items) => forall item <- items :: GivesSizes(item)
    case JObject(fields) => |fields| == 1 && fields[0].0 == "call" ==> GivesSize(fields[0].1)
    case _ => true
  }

  predicate ScriptGivesSizes(script: Json) {
    script.JArray? ==> forall item <- script.items :: GivesSizes(item)
  }

  // ---------------------------------------------------------------- what is left without the sizes

  function Erase(cmd: Command): Command {
    match cmd
    case SleepCommand(_) => cmd
    case RequestCommand(name, _) => RequestCommand(name, 0)
    case ConcurrentCommand(members) => ConcurrentCommand(EraseAll(members))
  }

  function EraseAll(cmds: Script): (erased: Script)
    ensures |erased| == |cmds|
  {
    if cmds == [] then [] else [Erase(cmds[0])] + EraseAll(cmds[1..])
  }

  function EraseService(s: Service): Service {
    s.(script := EraseAll(s.script))
  }

  function EraseServices(services: seq<Service>): seq<Service> {
    if services == [] then [] else [EraseService(services[0])] + EraseServices(services[1..])
  }

  function EraseDefaults(d: Defaults): Defaults {
    d.(script := EraseAll(d.script))
  }

  /** The same error, or values that are equal after erasing the sizes of all calls. */
  predicate AlikeCommands(r: Result<Script, DecodeError>, s: Result<Script, DecodeError>) {
    if r.Ok? then s.Ok? && EraseAll(r.value) == EraseAll(s.value) else s == r
  }

  predicate AlikeSlots(r: Result<Slot<Service>, DecodeError>, s: Result<Slot<Service>, DecodeError>) {
    if r.Ok? then s.Ok? && AlikeService(r.value, s.value) else s == r
  }

  predicate AlikeService(x: Slot<Service>, y: Slot<Service>) {
    x.mismatch == y.mismatch && EraseService(x.value) == EraseService(y.value)
  }

  predicate AlikeDefaults(x: Slot<Defaults>, y: Slot<Defaults>) {
    x.mismatch == y.mismatch && EraseDefaults(x.value) == EraseDefaults(y.value)
  }

  predicate AlikeServices(r: Result<seq<Service>, DecodeError>, s: Result<seq<Service>, DecodeError>) {
    if r.Ok? then s.Ok? && EraseServices(r.value) == EraseServices(s.value) else s == r
  }

  // ---------------------------------------------------------------- calls and commands

  lemma {:induction false} RequestFieldsAgree(codec: Codec, a: Slot<Request>, b: Slot<Request>,
                                              fields: seq<(string, Json)>)
    requires a.mismatch == b.mismatch && a.value.serviceName == b.value.serviceName
    requires Find(fields, "size").Some? || a == b
    ensures RequestFields(codec, a, fields) == RequestFields(codec, b, fields)
    decreases fields
  {
    if fields != [] {
      var x := RequestField(codec, a, fields[0].0, fields[0].1);
      var y := RequestField(codec, b, fields[0].0, fields[0].1);
      if x.Ok? {
        RequestFieldsAgree(codec, x.value, y.value, fields[1..]);
      }
    }
  }

  lemma {:induction false} SizeIsKept(codec: Codec, slot: Slot<Request>, fields: seq<(string, Json)>)
    requires Find(fields, "size") == None && RequestFields(codec, slot, fields).Ok?
    ensures RequestFields(codec, slot, fields).value.value.size == slot.value.size
    decreases fields
  {
    if fields != [] {
      SizeIsKept(codec, RequestField(codec, slot, fields[0].0, fields[0].1).value, fields[1..]);
    }
  }

  lemma {:induction false} RequestFieldsAlike(codec: Codec, a: Slot<Request>, b: Slot<Request>,
                                              fields: seq<(string, Json)>)
    requires a.mismatch == b.mismatch && a.value.serviceName == b.value.serviceName
    ensures var r, s := RequestFields(codec, a, fields), RequestFields(codec, b, fields);
            if r.Ok? then
              && s.Ok? && s.value.mismatch == r.value.mismatch
              && s.value.value.serviceName == r.value.value.serviceName
            else s == r
    decreases fields
  {
    if fields != [] {
      var x := RequestField(codec, a, fields[0].0, fields[0].1);
      var y := RequestField(codec, b, fields[0].0, fields[0].1);
      if x.Ok? {
        RequestFieldsAlike(codec, x.value, y.value, fields[1..]);
      }
    }
  }

  /** Of a call, only the size can depend on the size of the default request. */
  lemma RequestAlike(codec: Codec, d: Request, e: Request, call: Json)
    requires d.serviceName == e.serviceName
    ensures var r, s := DecodeRequest(codec, d, call), DecodeRequest(codec, e, call);
            if r.Ok? then s.Ok? && s.value.serviceName == r.value.serviceName else s == r
  {
    if call.JObject? {
      RequestFieldsAlike(codec, Slot(d, false), Slot(e, false), call.fields);
    }
  }

  lemma RequestAgrees(codec: Codec, d: Request, e: Request, call: Json)
    requires d == e || (d.serviceName == e.serviceName && GivesSize(call))
    ensures DecodeRequest(codec, d, call) == DecodeRequest(codec, e, call)
  {
    if call.JObject? {
      RequestFieldsAgree(codec, Slot(d, false), Slot(e, false), call.fields);
    }
  }

  lemma RequestDiffers(codec: Codec, d: Request, e: Request, call: Json)
    requires d.size != e.size && !GivesSize(call) && DecodeRequest(codec, d, call).Ok?
    ensures DecodeRequest(codec, e, call) != DecodeRequest(codec, d, call)
  {
    if call.JObject? {
      SizeIsKept(codec, Slot(d, false), call.fields);
      if RequestFields(codec, Slot(e, false), call.fields).Ok? {
        SizeIsKept(codec, Slot(e, false), call.fields);
      }
    }
  }

  lemma {:induction false} CommandAlike(codec: Codec, a: Ambient, b: Ambient, at: seq<nat>, cmd: Json)
    requires SameNames(a, b)
    ensures var r, s := DecodeCommand(codec, a, at, cmd), DecodeCommand(codec, b, at, cmd);
            if r.Ok? then s.Ok? && Erase(s.value) == Erase(r.value) else s == r
    decreases cmd, 0
  {
    match cmd
    case JArray(items) => CommandsAlike(codec, a, b, at, items, 0);
    case JObject(fields) =>
      if |fields| == 1 && fields[0].0 == "call" {
        RequestAlike(codec, a(at), b(at), fields[0].1);
      }
    case _ =>
  }

  lemma {:induction false} CommandsAlike(codec: Codec, a: Ambient, b: Ambient, at: seq<nat>, items: seq<Json>, k: nat)
    requires k <= |items| && SameNames(a, b)
    ensures AlikeCommands(DecodeCommands(codec, a, at, items, k), DecodeCommands(codec, b, at, items, k))
    decreases items, |items| - k
  {
    if k < |items| {
      CommandAlike(codec, a, b, at + [k], items[k]);
      CommandsAlike(codec, a, b, at, items, k + 1);
    }
  }

  lemma {:induction false} CommandAgrees(codec: Codec, a: Ambient, b: Ambient, at: seq<nat>, cmd: Json)
    requires SameValues(a, b) || (SameNames(a, b) && GivesSizes(cmd))
    ensures DecodeCommand(codec, a, at, cmd) == DecodeCommand(codec, b, at, cmd)
    decreases cmd, 0
  {
    match cmd
    case JArray(items) => CommandsAgree(codec, a, b, at, items, 0);
    case JObject(fields) =>
      if |fields| == 1 && fields[0].0 == "call" {
        RequestAgrees(codec, a(at), b(at), fields[0].1);
      }
    case _ =>
  }

  lemma {:induction false} CommandsAgree(codec: Codec, a: Ambient, b: Ambient, at: seq<nat>, items: seq<Json>, k: nat)
    requires k <= |items|
    requires SameValues(a, b) || (SameNames(a, b) && forall item <- items :: GivesSizes(item))
    ensures DecodeCommands(codec, a, at, items, k) == DecodeCommands(codec, b, at, items, k)
    decreases items, |items| - k
  {
    if k < |items| {
      CommandAgrees(codec, a, b, at + [k], items[k]);
      CommandsAgree(codec, a, b, at, items, k + 1);
    }
  }

  lemma {:induction false} CommandDiffers(codec: Codec, d: Request, e: Request, at: seq<nat>, cmd: Json)
    requires d.size != e.size && !GivesSizes(cmd) && DecodeCommand(codec, Fixed(d), at, cmd).Ok?
    ensures DecodeCommand(codec, Fixed(e), at, cmd) != DecodeCommand(codec, Fixed(d), at, cmd)
    decreases cmd, 0
  {
    match cmd
    case JArray(items) =>
      var k :| 0 <= k < |items| && !GivesSizes(items[k]);
      CommandsDiffer(codec, d, e, at, items, 0, k);
    case JObject(fields) => RequestDiffers(codec, d, e, fields[0].1);
  }

  lemma {:induction false} CommandsDiffer(codec: Codec, d: Request, e: Request, at: seq<nat>, items: seq<Json>, k: nat,
                                          i: nat)
    requires d.size != e.size && k <= i < |items| && !GivesSizes(items[i])
    requires DecodeCommands(codec, Fixed(d), at, items, k).Ok?
    ensures DecodeCommands(codec, Fixed(e), at, items, k) != DecodeCommands(codec, Fixed(d), at, items, k)
    decreases items, i - k
  {
    var r, s := DecodeCommands(codec, Fixed(d), at, items, k), DecodeCommands(codec, Fixed(e), at, items, k);
    if k == i {
      CommandDiffers(codec, d, e, at + [k], items[k]);
      assert s.Ok? ==> s.value[0] != r.value[0];
    } else {
      CommandsDiffer(codec, d, e, at, items, k + 1, i);
      assert s.Ok? ==> s.value[1..] != r.value[1..];
    }
  }

  lemma ScriptAlike(codec: Codec, a: Ambient, b: Ambient, at: seq<nat>, script: Json)
    requires SameNames(a, b)
    ensures AlikeCommands(DecodeScript(codec, a, at, script), DecodeScript(codec, b, at, script))
  {
    if script.JArray? {
      CommandsAlike(codec, a, b, at, script.items, 0);
    }
  }

  lemma ScriptAgrees(codec: Codec, a: Ambient, b: Ambient, at: seq<nat>, script: Json)
    requires SameValues(a, b) || (SameNames(a, b) && ScriptGivesSizes(script))
    ensures DecodeScript(codec, a, at, script) == DecodeScript(codec, b, at, script)
  {
    if script.JArray? {
      CommandsAgree(codec, a, b, at, script.items, 0);
    }
  }

  /** A script that decodes means the same under all default sizes exactly when every call names its size. */
  lemma ScriptSizes(codec: Codec, d: Request, e: Request, at: seq<nat>, script: Json)
    requires d.serviceName == e.serviceName && d.size != e.size
    requires DecodeScript(codec, Fixed(d), at, script).Ok?
    ensures DecodeScript(codec, Fixed(e), at, script) == DecodeScript(codec, Fixed(d), at, script) <==>
            ScriptGivesSizes(script)
  {
    if ScriptGivesSizes(script) {
      ScriptAgrees(codec, Fixed(d), Fixed(e), at, script);
    } else {
      var k :| 0 <= k < |script.items| && !GivesSizes(script.items[k]);
      CommandsDiffer(codec, d, e, at, script.items, 0, k);
    }
  }

  // ---------------------------------------------------------------- the first pass

  lemma {:induction false} DefaultsFieldsAlike(codec: Codec, a: Ambient, b: Ambient, x: Slot<Defaults>,
                                               y: Slot<Defaults>, fields: seq<(string, Json)>)
    requires SameNames(a, b) && AlikeDefaults(x, y)
    ensures var r, s := DefaultsFields(codec, a, [], x, fields), DefaultsFields(codec, b, [], y, fields);
            if r.Ok? then s.Ok? && AlikeDefaults(r.value, s.value) else s == r
    decreases fields
  {
    if fields != [] {
      ScriptAlike(codec, a, b, [], fields[0].1);
      var p := DefaultsField(codec, a, [], x, fields[0].0, fields[0].1);
      var q := DefaultsField(codec, b, [], y, fields[0].0, fields[0].1);
      if p.Ok? {
        DefaultsFieldsAlike(codec, a, b, p.value, q.value, fields[1..]);
      }
    }
  }

  lemma {:induction false} MetadataFieldsAlike(codec: Codec, a: Ambient, b: Ambient, x: Slot<Defaults>,
                                               y: Slot<Defaults>, top: seq<(string, Json)>)
    requires SameNames(a, b) && AlikeDefaults(x, y)
    ensures var r, s := MetadataFields(codec, a, x, top), MetadataFields(codec, b, y, top);
            if r.Ok? then s.Ok? && AlikeDefaults(r.value, s.value) else s == r
    decreases top
  {
    if top != [] {
      if top[0].1.JObject? {
        DefaultsFieldsAlike(codec, a, b, x, y, top[0].1.fields);
      }
      var p := MetadataField(codec, a, x, top[0].0, top[0].1);
      var q := MetadataField(codec, b, y, top[0].0, top[0].1);
      if p.Ok? {
        MetadataFieldsAlike(codec, a, b, p.value, q.value, top[1..]);
      }
    }
  }

  /** Two first passes fail alike, and can only disagree on the sizes of calls in the default script. */
  lemma MetadataAlike(codec: Codec, a: Ambient, b: Ambient, j: Json)
    requires SameNames(a, b)
    ensures var r, s := DecodeMetadata(codec, a, j), DecodeMetadata(codec, b, j);
            if r.Ok? then s.Ok? && EraseDefaults(r.value) == EraseDefaults(s.value) else s == r
  {
    if j.JObject? {
      var start := Slot(DEFAULT_DEFAULTS, false);
      MetadataFieldsAlike(codec, a, b, start, start, j.fields);
    }
  }

  /** The script of the defaults section. */
  function DefaultScript(top: seq<(string, Json)>): Option<Json> {
    Find(SectionFields(Find(top, "defaults")), "script")
  }

  predicate DefaultsGiveSizes(top: seq<(string, Json)>) {
    DefaultScript(top).Some? ==> ScriptGivesSizes(DefaultScript(top).value)
  }

  lemma {:induction false} ScriptDecoded(codec: Codec, amb: Ambient, slot: Slot<Defaults>, fields: seq<(string, Json)>)
    requires DefaultsFields(codec, amb, [], slot, fields).Ok? && Find(fields, "script").Some?
    ensures DecodeScript(codec, amb, [], Find(fields, "script").value).Ok?
    decreases fields
  {
    if fields[0].0 != "script" {
      ScriptDecoded(codec, amb, DefaultsField(codec, amb, [], slot, fields[0].0, fields[0].1).value, fields[1..]);
    }
  }

  lemma {:induction false} DefaultScriptDecoded(codec: Codec, amb: Ambient, slot: Slot<Defaults>,
                                                top: seq<(string, Json)>)
    requires MetadataFields(codec, amb, slot, top).Ok? && DefaultScript(top).Some?
    ensures DecodeScript(codec, amb, [], DefaultScript(top).value).Ok?
    decreases top
  {
    if top[0].0 == "defaults" {
      ScriptDecoded(codec, amb, slot, top[0].1.fields);
    } else {
      DefaultScriptDecoded(codec, amb, MetadataField(codec, amb, slot, top[0].0, top[0].1).value, top[1..]);
    }
  }

  predicate UniqueDefaults(top: seq<(string, Json)>) {
    UniqueKeys(top) && UniqueKeys(SectionFields(Find(top, "defaults")))
  }

  lemma ScriptOfMetadata(codec: Codec, amb: Ambient, top: seq<(string, Json)>)
    requires UniqueDefaults(top) && DecodeMetadata(codec, amb, JObject(top)).Ok?
    ensures DefaultScript(top).Some? ==>
              DecodeScript(codec, amb, [], DefaultScript(top).value)
                  == Ok(DecodeMetadata(codec, amb, JObject(top)).value.script)
    ensures DefaultScript(top).None? ==> DecodeMetadata(codec, amb, JObject(top)).value.script == []
  {
    var start := Slot(DEFAULT_DEFAULTS, false);
    MetadataLayered(codec, amb, start, top);
    if DefaultScript(top).Some? {
      DefaultScriptDecoded(codec, amb, start, top);
    }
  }

  lemma MetadataSame(codec: Codec, a: Ambient, b: Ambient, top: seq<(string, Json)>)
    requires UniqueDefaults(top) && (SameValues(a, b) || (SameNames(a, b) && DefaultsGiveSizes(top)))
    ensures DecodeMetadata(codec, a, JObject(top)) == DecodeMetadata(codec, b, JObject(top))
  {
    MetadataAlike(codec, a, b, JObject(top));
    if DecodeMetadata(codec, a, JObject(top)).Ok? {
      ScriptOfMetadata(codec, a, top);
      ScriptOfMetadata(codec, b, top);
      if DefaultScript(top).Some? {
        ScriptAgrees(codec, a, b, [], DefaultScript(top).value);
      }
    }
  }

  // ---------------------------------------------------------------- the second pass

  predicate OwnScript(item: Json) {
    item.JObject? ==> Find(item.fields, "script").Some?
  }

  lemma {:induction false} ServiceFieldsAgree(codec: Codec, a: Ambient, b: Ambient, at: seq<nat>, x: Slot<Service>,
                                              y: Slot<Service>, fields: seq<(string, Json)>)
    requires SameValues(a, b)
    requires x == y || (x.(value := x.value.(script := y.value.script)) == y && Find(fields, "script").Some?)
    ensures ServiceFields(codec, a, at, x, fields) == ServiceFields(codec, b, at, y, fields)
    decreases fields
  {
    if fields != [] {
      ScriptAgrees(codec, a, b, at, fields[0].1);
      var p := ServiceField(codec, a, at, x, fields[0].0, fields[0].1);
      var q := ServiceField(codec, b, at, y, fields[0].0, fields[0].1);
      if p.Ok? {
        ServiceFieldsAgree(codec, a, b, at, p.value, q.value, fields[1..]);
      }
    }
  }

  /** The bases differ at most in scripts that item `k` and its successors override. */
  ghost predicate BasesAgree(base: Bases, other: Bases, items: seq<Json>) {
    forall k: nat | k < |items| :: BaseAgrees(base(k), other(k), items[k])
  }

  predicate BaseAgrees(d: Service, e: Service, item: Json) {
    d == e || (d.(script := e.script) == e && d.name == "" && OwnScript(item))
  }

  lemma ServiceAgrees(codec: Codec, a: Ambient, b: Ambient, at: seq<nat>, d: Service, e: Service, item: Json)
    requires SameValues(a, b) && BaseAgrees(d, e, item)
    ensures DecodeService(codec, a, at, d, item) == DecodeService(codec, b, at, e, item)
  {
    if item.JObject? {
      ServiceFieldsAgree(codec, a, b, at, Slot(d, false), Slot(e, false), item.fields);
    }
  }

  lemma {:induction false} ServicesAgree(codec: Codec, a: Ambient, b: Ambient, base: Bases, other: Bases,
                                         items: seq<Json>, k: nat)
    requires SameValues(a, b) && BasesAgree(base, other, items) && k <= |items|
    ensures DecodeServices(codec, a, [], base, items, k) == DecodeServices(codec, b, [], other, items, k)
    decreases |items| - k
  {
    if k < |items| {
      ServiceAgrees(codec, a, b, [] + [k], base(k), other(k), items[k]);
      ServicesAgree(codec, a, b, base, other, items, k + 1);
    }
  }

  /** Every list under a `services` key is decoded alike over both bases. */
  ghost predicate ListsAgree(base: Bases, other: Bases, top: seq<(string, Json)>) {
    forall i | 0 <= i < |top| && top[i].0 == "services" && top[i].1.JArray? :: BasesAgree(base, other, top[i].1.items)
  }

  lemma {:induction false} GraphFieldsAgree(codec: Codec, a: Ambient, b: Ambient, base: Bases, other: Bases,
                                            slot: Slot<seq<Service>>, top: seq<(string, Json)>)
    requires SameValues(a, b) && ListsAgree(base, other, top)
    ensures GraphFields(codec, a, base, slot, top) == GraphFields(codec, b, other, slot, top)
    decreases top
  {
    if top != [] {
      if top[0].0 == "services" && top[0].1.JArray? {
        ServicesAgree(codec, a, b, base, other, top[0].1.items, 0);
      }
      assert forall i | 0 <= i < |top[1..]| :: top[1..][i] == top[i + 1];
      var next := GraphField(codec, a, base, slot, top[0].0, top[0].1);
      if next.Ok? {
        GraphFieldsAgree(codec, a, b, base, other, next.value, top[1..]);
      }
    }
  }

  lemma GraphAgrees(codec: Codec, a: Ambient, b: Ambient, base: Bases, other: Bases, j: Json)
    requires SameValues(a, b) && (j.JObject? ==> ListsAgree(base, other, j.fields))
    ensures DecodeGraph(codec, a, base, j) == DecodeGraph(codec, b, other, j)
  {
    if j.JObject? {
      GraphFieldsAgree(codec, a, b, base, other, Slot([], false), j.fields);
    }
  }

  predicate AllOwnScripts(top: seq<(string, Json)>) {
    forall item <- ServiceItems(top) :: OwnScript(item)
  }

  lemma {:induction false} FoundIs(fields: seq<(string, Json)>, key: string, i: nat)
    requires UniqueKeys(fields) && i < |fields| && fields[i].0 == key
    ensures Find(fields, key) == Some(fields[i].1)
    decreases fields
  {
    if i > 0 {
      FoundIs(fields[1..], key, i - 1);
    }
  }

  lemma OwnScriptsHide(top: seq<(string, Json)>, d: Defaults, e: Defaults)
    requires UniqueKeys(top) && EraseDefaults(d) == EraseDefaults(e) && AllOwnScripts(top)
    ensures ListsAgree(Every(DefaultServiceFor(d)), Every(DefaultServiceFor(e)), top)
  {
    forall i | 0 <= i < |top| && top[i].0 == "services" && top[i].1.JArray?
      ensures BasesAgree(Every(DefaultServiceFor(d)), Every(DefaultServiceFor(e)), top[i].1.items)
    {
      FoundIs(top, "services", i);
    }
  }

  // ---------------------------------------------------------------- bases that differ in sizes

  lemma {:induction false} ServiceFieldsAlike(codec: Codec, amb: Ambient, at: seq<nat>, x: Slot<Service>,
                                              y: Slot<Service>, fields: seq<(string, Json)>)
    requires AlikeService(x, y)
    ensures AlikeSlots(ServiceFields(codec, amb, at, x, fields), ServiceFields(codec, amb, at, y, fields))
    decreases fields
  {
    if fields != [] {
      var p := ServiceField(codec, amb, at, x, fields[0].0, fields[0].1);
      var q := ServiceField(codec, amb, at, y, fields[0].0, fields[0].1);
      assert AlikeSlots(p, q);
      if p.Ok? {
        ServiceFieldsAlike(codec, amb, at, p.value, q.value, fields[1..]);
      }
    }
  }

  lemma {:induction false} ServicesAlike(codec: Codec, amb: Ambient, d: Service, e: Service, items: seq<Json>, k: nat)
    requires EraseService(d) == EraseService(e) && k <= |items|
    ensures AlikeServices(DecodeServices(codec, amb, [], Every(d), items, k),
                          DecodeServices(codec, amb, [], Every(e), items, k))
    decreases |items| - k
  {
    if k < |items| {
      if items[k].JObject? {
        ServiceFieldsAlike(codec, amb, [] + [k], Slot(d, false), Slot(e, false), items[k].fields);
      }
      ServicesAlike(codec, amb, d, e, items, k + 1);
    }
  }

  lemma {:induction false} GraphFieldsAlike(codec: Codec, amb: Ambient, d: Service, e: Service, x: Slot<seq<Service>>,
                                            y: Slot<seq<Service>>, top: seq<(string, Json)>)
    requires EraseService(d) == EraseService(e)
    requires x.mismatch == y.mismatch && EraseServices(x.value) == EraseServices(y.value)
    ensures var r, s := GraphFields(codec, amb, Every(d), x, top), GraphFields(codec, amb, Every(e), y, top);
            if r.Ok? then
              && s.Ok? && s.value.mismatch == r.value.mismatch
              && EraseServices(s.value.value) == EraseServices(r.value.value)
            else s == r
    decreases top
  {
    if top != [] {
      if top[0].0 == "services" && top[0].1.JArray? {
        ServicesAlike(codec, amb, d, e, top[0].1.items, 0);
      }
      var p := GraphField(codec, amb, Every(d), x, top[0].0, top[0].1);
      var q := GraphField(codec, amb, Every(e), y, top[0].0, top[0].1);
      if p.Ok? {
        GraphFieldsAlike(codec, amb, d, e, p.value, q.value, top[1..]);
      }
    }
  }

  lemma GraphAlike(codec: Codec, amb: Ambient, d: Service, e: Service, j: Json)
    requires EraseService(d) == EraseService(e)
    ensures AlikeServices(DecodeGraph(codec, amb, Every(d), j), DecodeGraph(codec, amb, Every(e), j))
  {
    if j.JObject? {
      GraphFieldsAlike(codec, amb, d, e, Slot([], false), Slot([], false), j.fields);
    }
  }

  lemma {:induction false} ErasedContains(cmds: Script)
    ensures Validation.ContainsConcurrent(EraseAll(cmds)) <==> Validation.ContainsConcurrent(cmds)
  {
    forall i | 0 <= i < |cmds| ensures EraseAll(cmds)[i] == Erase(cmds[i]) {
      ErasedAt(cmds, i);
    }
    if Validation.ContainsConcurrent(cmds) {
      var i :| 0 <= i < |cmds| && cmds[i].ConcurrentCommand?;
      assert EraseAll(cmds)[i].ConcurrentCommand?;
    }
  }

  lemma {:induction false} ErasedAt(cmds: Script, i: nat)
    requires i < |cmds|
    ensures EraseAll(cmds)[i] == Erase(cmds[i])
  {
    if i > 0 {
      ErasedAt(cmds[1..], i - 1);
    }
  }

  /** Validation does not look at sizes. */
  lemma {:induction false} ErasedProblems(cmds: Script, names: set<string>)
    ensures Validation.Problems(EraseAll(cmds), names) == Validation.Problems(cmds, names)
    decreases cmds
  {
    if cmds != [] {
      ErasedProblemsOf(cmds[0], names);
      ErasedProblems(cmds[1..], names);
      assert EraseAll(cmds)[1..] == EraseAll(cmds[1..]);
    }
  }

  lemma {:induction false} ErasedProblemsOf(cmd: Command, names: set<string>)
    ensures Validation.ProblemsOf(Erase(cmd), names) == Validation.ProblemsOf(cmd, names)
    decreases cmd
  {
    if cmd.ConcurrentCommand? {
      ErasedProblems(cmd.members, names);
      ErasedContains(cmd.members);
    }
  }

  lemma {:induction false} ErasedGraphProblems(services: seq<Service>, names: set<string>)
    ensures Validation.GraphProblems(EraseServices(services), names) == Validation.GraphProblems(services, names)
    ensures Validation.Names(EraseServices(services)) == Validation.Names(services)
  {
    if services != [] {
      ErasedProblems(services[0].script, names);
      ErasedGraphProblems(services[1..], names);
      assert services == [services[0]] + services[1..];
      assert EraseServices(services)[1..] == EraseServices(services[1..]);
      assert Validation.Names(services) == {services[0].name} + Validation.Names(services[1..]);
      assert Validation.Names(EraseServices(services))
          == {services[0].name} + Validation.Names(EraseServices(services[1..]));
    }
  }

  // ---------------------------------------------------------------- the whole parse

  const BUILT_IN_REQUEST: Request := RequestCommand("", 0)

  /** A condition on the text alone: the unlocked reads of the first pass cannot show in the result. */
  predicate Robust(top: seq<(string, Json)>) {
    DefaultsGiveSizes(top) || AllOwnScripts(top)
  }

  lemma RobustParse(codec: Codec, amb: Ambient, top: seq<(string, Json)>)
    requires UniqueDefaults(top) && Robust(top) && SameNames(amb, Fixed(BUILT_IN_REQUEST))
    ensures Parse(codec, amb, JObject(top)) == Parse(codec, Fixed(BUILT_IN_REQUEST), JObject(top))
  {
    var isolated := Fixed(BUILT_IN_REQUEST);
    if DefaultsGiveSizes(top) {
      MetadataSame(codec, amb, isolated, top);
    } else {
      MetadataAlike(codec, amb, isolated, JObject(top));
      if DecodeMetadata(codec, amb, JObject(top)).Ok? {
        var d, e := DecodeMetadata(codec, amb, JObject(top)).value, DecodeMetadata(codec, isolated, JObject(top)).value;
        OwnScriptsHide(top, d, e);
        GraphAgrees(codec, Fixed(DefaultRequestFor(d)), Fixed(DefaultRequestFor(e)),
                    Every(DefaultServiceFor(d)), Every(DefaultServiceFor(e)), JObject(top));
      }
    }
  }

  /** The same error, or graphs that are equal after erasing the sizes of all calls. */
  predicate UpToSizes(r: Result<seq<Service>, ParseError>, s: Result<seq<Service>, ParseError>) {
    if r.Ok? then s.Ok? && EraseServices(r.value) == EraseServices(s.value) else s == r
  }

  lemma ValidatedAlike(r: Result<seq<Service>, DecodeError>, s: Result<seq<Service>, DecodeError>)
    requires AlikeServices(r, s)
    ensures UpToSizes(Validated(r), Validated(s))
  {
    if r.Ok? {
      ErasedGraphProblems(r.value, Validation.Names(r.value));
      ErasedGraphProblems(s.value, Validation.Names(s.value));
    }
  }

  /** On any document at all, the ambient default can only change sizes of calls, never the outcome. */
  lemma ParseAlike(codec: Codec, a: Ambient, b: Ambient, j: Json)
    requires SameNames(a, b)
    ensures UpToSizes(Parse(codec, a, j), Parse(codec, b, j))
  {
    MetadataAlike(codec, a, b, j);
    if DecodeMetadata(codec, a, j).Ok? {
      var d, e := DecodeMetadata(codec, a, j).value, DecodeMetadata(codec, b, j).value;
      assert DefaultRequestFor(d) == DefaultRequestFor(e);
      GraphAlike(codec, Fixed(DefaultRequestFor(d)), DefaultServiceFor(d), DefaultServiceFor(e), j);
      ValidatedAlike(DecodeGraph(codec, Fixed(DefaultRequestFor(d)), Every(DefaultServiceFor(d)), j),
                     DecodeGraph(codec, Fixed(DefaultRequestFor(d)), Every(DefaultServiceFor(e)), j));
    }
  }

  predicate UniqueServices(top: seq<(string, Json)>) {
    UniqueDefaults(top) && forall item <- ServiceItems(top) :: UniqueKeys(FieldsOf(item))
  }

  /** A service without a script inherits the one of the defaults section. */
  lemma InheritedScript(codec: Codec, amb: Ambient, top: seq<(string, Json)>, i: nat)
    requires UniqueServices(top) && Parse(codec, amb, JObject(top)).Ok?
    requires i < |ServiceItems(top)| && !OwnScript(ServiceItems(top)[i])
    ensures i < |Parse(codec, amb, JObject(top)).value|
    ensures Parse(codec, amb, JObject(top)).value[i].script == DecodeMetadata(codec, amb, JObject(top)).value.script
  {
    LayeredOver(codec, amb, top, i, LayeredDefaults(codec, amb, top));
    MetadataLayered(codec, amb, Slot(DEFAULT_DEFAULTS, false), top);
  }

  lemma FragileParse(codec: Codec, e: Request, top: seq<(string, Json)>)
    requires UniqueServices(top) && !Robust(top) && e.serviceName == "" && e.size != 0
    requires Parse(codec, Fixed(BUILT_IN_REQUEST), JObject(top)).Ok?
    ensures Parse(codec, Fixed(e), JObject(top)) != Parse(codec, Fixed(BUILT_IN_REQUEST), JObject(top))
  {
    var i :| 0 <= i < |ServiceItems(top)| && !OwnScript(ServiceItems(top)[i]);
    InheritedScript(codec, Fixed(BUILT_IN_REQUEST), top, i);
    ScriptOfMetadata(codec, Fixed(BUILT_IN_REQUEST), top);
    if Parse(codec, Fixed(e), JObject(top)).Ok? {
      InheritedScript(codec, Fixed(e), top, i);
      ScriptOfMetadata(codec, Fixed(e), top);
      ScriptSizes(codec, BUILT_IN_REQUEST, e, [], DefaultScript(top).value);
    }
  }

  /**
   The exact condition. A document that parses in isolation parses to the same graph under every
   ambient default if and only if it is robust.
   */
  lemma IgnoresAmbientIffRobust(codec: Codec, top: seq<(string, Json)>)
    requires UniqueServices(top) && Parse(codec, Fixed(BUILT_IN_REQUEST), JObject(top)).Ok?
    ensures (forall amb: Ambient | SameNames(amb, Fixed(BUILT_IN_REQUEST)) ::
               Parse(codec, amb, JObject(top)) == Parse(codec, Fixed(BUILT_IN_REQUEST), JObject(top)))
            <==> Robust(top)
  {
    if Robust(top) {
      forall amb: Ambient | SameNames(amb, Fixed(BUILT_IN_REQUEST))
        ensures Parse(codec, amb, JObject(top)) == Parse(codec, Fixed(BUILT_IN_REQUEST), JObject(top))
      {
        RobustParse(codec, amb, top);
      }
    } else {
      var larger: Request := RequestCommand("", 1);
      FragileParse(codec, larger, top);
      assert SameNames(Fixed(larger), Fixed(BUILT_IN_REQUEST));
    }
  }
}
