/**
 How the layers of defaults combine: a field of a service overrides the same field of the defaults
 section, which overrides the built-in value; and which default request a call is completed with.
 Fields are looked up by name here, without any globals or folding over the text.
 */
module Layering {
  import opened Topology
  import opened Json
  import opened Decoding
  import opened Parsing

  /** No key occurs twice in the object. */
  predicate UniqueKeys(fields: seq<(string, Json)>) {
    forall i, j | 0 <= i < j < |fields| :: fields[i].0 != fields[j].0
  }

  /** The value under `key`. */
  function Find(fields: seq<(string, Json)>, key: string): Option<Json>
    decreases fields
  {
    if fields == [] then None
    else if fields[0].0 == key then Some(fields[0].1)
    else Find(fields[1..], key)
  }

  lemma {:induction false} FindAbsent(fields: seq<(string, Json)>, key: string)
    requires forall i | 0 <= i < |fields| :: fields[i].0 != key
    ensures Find(fields, key) == None
    decreases fields
  {
    if fields != [] {
      FindAbsent(fields[1..], key);
    }
  }

  function StringOr(f: Option<Json>, fallback: string): string {
    if f.Some? then PlainString(fallback, f.value).value else fallback
  }

  function BoolOr(f: Option<Json>, fallback: bool): bool {
    if f.Some? then PlainBool(fallback, f.value).value else fallback
  }

  function Int32Or(f: Option<Json>, fallback: int): int {
    if f.Some? then PlainInt32(fallback, f.value).value else fallback
  }

  function TypeOr(f: Option<Json>, fallback: ServiceType): ServiceType {
    if f.Some? && DecodeType(f.value).Ok? then DecodeType(f.value).value else fallback
  }

  function RateOr(codec: Codec, f: Option<Json>, fallback: real): real {
    if f.Some? && DecodeRate(codec, f.value).Ok? then DecodeRate(codec, f.value).value else fallback
  }

  function SizeOr(codec: Codec, f: Option<Json>, fallback: nat): nat {
    if f.Some? && DecodeSize(codec, f.value).Ok? then DecodeSize(codec, f.value).value else fallback
  }

  function ScriptOr(codec: Codec, amb: Ambient, at: seq<nat>, f: Option<Json>, fallback: Script): Script {
    if f.Some? && DecodeScript(codec, amb, at, f.value).Ok? then DecodeScript(codec, amb, at, f.value).value
    else fallback
  }

  /** The service that the fields describe on top of `base`. */
  function ServiceOver(codec: Codec, amb: Ambient, at: seq<nat>, fields: seq<(string, Json)>, base: Service): Service
  {
    Service(
      StringOr(Find(fields, "name"), base.name),
      TypeOr(Find(fields, "type"), base.kind),
      Int32Or(Find(fields, "numReplicas"), base.numReplicas),
      BoolOr(Find(fields, "isEntrypoint"), base.isEntrypoint),
      RateOr(codec, Find(fields, "errorRate"), base.errorRate),
      SizeOr(codec, Find(fields, "responseSize"), base.responseSize),
      ScriptOr(codec, amb, at, Find(fields, "script"), base.script))
  }

  function DefaultsOver(codec: Codec, amb: Ambient, at: seq<nat>, fields: seq<(string, Json)>, base: Defaults): Defaults
  {
    Defaults(
      TypeOr(Find(fields, "type"), base.kind),
      Int32Or(Find(fields, "numReplicas"), base.numReplicas),
      RateOr(codec, Find(fields, "errorRate"), base.errorRate),
      SizeOr(codec, Find(fields, "responseSize"), base.responseSize),
      ScriptOr(codec, amb, at, Find(fields, "script"), base.script),
      SizeOr(codec, Find(fields, "requestSize"), base.requestSize))
  }

  lemma FindRest(fields: seq<(string, Json)>, key: string)
    requires UniqueKeys(fields) && fields != []
    ensures UniqueKeys(fields[1..])
    ensures fields[0].0 == key ==> Find(fields[1..], key) == None
  {
    if fields[0].0 == key {
      FindAbsent(fields[1..], key);
    }
  }

  lemma {:induction false} ServiceFieldsLayered(codec: Codec, amb: Ambient, at: seq<nat>, slot: Slot<Service>,
                                                fields: seq<(string, Json)>)
    requires UniqueKeys(fields) && ServiceFields(codec, amb, at, slot, fields).Ok?
    ensures ServiceFields(codec, amb, at, slot, fields).value.value == ServiceOver(codec, amb, at, fields, slot.value)
    decreases fields
  {
    if fields != [] {
      FindRest(fields, fields[0].0);
      var next := ServiceField(codec, amb, at, slot, fields[0].0, fields[0].1).value;
      ServiceFieldsLayered(codec, amb, at, next, fields[1..]);
    }
  }

  lemma {:induction false} DefaultsFieldsLayered(codec: Codec, amb: Ambient, at: seq<nat>, slot: Slot<Defaults>,
                                                 fields: seq<(string, Json)>)
    requires UniqueKeys(fields) && DefaultsFields(codec, amb, at, slot, fields).Ok?
    ensures DefaultsFields(codec, amb, at, slot, fields).value.value == DefaultsOver(codec, amb, at, fields, slot.value)
    decreases fields
  {
    if fields != [] {
      FindRest(fields, fields[0].0);
      var next := DefaultsField(codec, amb, at, slot, fields[0].0, fields[0].1).value;
      DefaultsFieldsLayered(codec, amb, at, next, fields[1..]);
    }
  }

  function FieldsOf(j: Json): seq<(string, Json)> {
    if j.JObject? then j.fields else []
  }

  function SectionFields(section: Option<Json>): seq<(string, Json)> {
    if section.Some? then FieldsOf(section.value) else []
  }

  /** The defaults section as layered over the built-in defaults. */
  function LayeredDefaults(codec: Codec, amb: Ambient, top: seq<(string, Json)>): Defaults {
    DefaultsOver(codec, amb, [], SectionFields(Find(top, "defaults")), DEFAULT_DEFAULTS)
  }

  lemma {:induction false} MetadataLayered(codec: Codec, amb: Ambient, slot: Slot<Defaults>, top: seq<(string, Json)>)
    requires UniqueKeys(top) && UniqueKeys(SectionFields(Find(top, "defaults")))
    requires MetadataFields(codec, amb, slot, top).Ok?
    ensures MetadataFields(codec, amb, slot, top).value.value
         == DefaultsOver(codec, amb, [], SectionFields(Find(top, "defaults")), slot.value)
    decreases top
  {
    if top != [] {
      FindRest(top, top[0].0);
      var next := MetadataField(codec, amb, slot, top[0].0, top[0].1).value;
      if top[0].0 == "defaults" {
        if top[0].1.JObject? {
          DefaultsFieldsLayered(codec, amb, [], slot, top[0].1.fields);
        }
      }
      MetadataLayered(codec, amb, next, top[1..]);
    }
  }

  function ItemsOf(j: Json): seq<Json> {
    if j.JArray? then j.items else []
  }

  /** The elements of the services section. */
  function ServiceItems(top: seq<(string, Json)>): seq<Json> {
    match Find(top, "services")
    case None => []
    case Some(j) => ItemsOf(j)
  }

  lemma {:induction false} GraphEnds(codec: Codec, amb: Ambient, base: Bases, slot: Slot<seq<Service>>,
                                     top: seq<(string, Json)>)
    requires Find(top, "services") == None
    ensures GraphFields(codec, amb, base, slot, top) == Ok(slot)
    decreases top
  {
    if top != [] {
      GraphEnds(codec, amb, base, slot, top[1..]);
    }
  }

  lemma {:induction false} GraphLayered(codec: Codec, amb: Ambient, base: Bases, slot: Slot<seq<Service>>,
                                        top: seq<(string, Json)>)
    requires UniqueKeys(top) && slot.value == [] && GraphFields(codec, amb, base, slot, top).Ok?
    ensures DecodeServices(codec, amb, [], base, ServiceItems(top), 0)
         == Ok(GraphFields(codec, amb, base, slot, top).value.value)
    decreases top
  {
    if top != [] {
      FindRest(top, top[0].0);
      var next := GraphField(codec, amb, base, slot, top[0].0, top[0].1).value;
      if top[0].0 == "services" {
        GraphEnds(codec, amb, base, next, top[1..]);
      } else {
        GraphLayered(codec, amb, base, next, top[1..]);
      }
    }
  }

  lemma {:induction false} ServiceAt(codec: Codec, amb: Ambient, at: seq<nat>, base: Bases, items: seq<Json>, k: nat,
                                     i: nat)
    requires k <= i < |items| && DecodeServices(codec, amb, at, base, items, k).Ok?
    ensures DecodeService(codec, amb, at + [i], base(i), items[i])
         == Ok(DecodeServices(codec, amb, at, base, items, k).value[i - k])
    decreases i - k
  {
    if k < i {
      ServiceAt(codec, amb, at, base, items, k + 1, i);
    }
  }

  lemma ServiceInList(codec: Codec, amb: Ambient, base: Bases, slot: Slot<seq<Service>>, top: seq<(string, Json)>,
                      i: nat)
    requires UniqueKeys(top) && slot.value == [] && GraphFields(codec, amb, base, slot, top).Ok?
    requires i < |ServiceItems(top)|
    ensures var services := GraphFields(codec, amb, base, slot, top).value.value;
            && |services| == |ServiceItems(top)|
            && DecodeService(codec, amb, [i], base(i), ServiceItems(top)[i]) == Ok(services[i])
  {
    GraphLayered(codec, amb, base, slot, top);
    ServiceAt(codec, amb, [], base, ServiceItems(top), 0, i);
    assert [] + [i] == [i];
  }

  lemma ServiceIsLayered(codec: Codec, amb: Ambient, at: seq<nat>, base: Service, item: Json)
    requires UniqueKeys(FieldsOf(item)) && DecodeService(codec, amb, at, base, item).Ok?
    ensures DecodeService(codec, amb, at, base, item).value == ServiceOver(codec, amb, at, FieldsOf(item), base)
  {
    if item.JObject? {
      ServiceFieldsLayered(codec, amb, at, Slot(base, false), item.fields);
    }
  }

  lemma LayeredOver(codec: Codec, amb: Ambient, top: seq<(string, Json)>, i: nat, d: Defaults)
    requires UniqueKeys(top) && UniqueKeys(SectionFields(Find(top, "defaults")))
    requires Parse(codec, amb, JObject(top)).Ok?
    requires i < |ServiceItems(top)| && UniqueKeys(FieldsOf(ServiceItems(top)[i]))
    requires d == LayeredDefaults(codec, amb, top)
    ensures var services := Parse(codec, amb, JObject(top)).value;
            && |services| == |ServiceItems(top)|
            && services[i] == ServiceOver(codec, Fixed(DefaultRequestFor(d)), [i],
                                          FieldsOf(ServiceItems(top)[i]), DefaultServiceFor(d))
  {
    MetadataLayered(codec, amb, Slot(DEFAULT_DEFAULTS, false), top);
    var own := Fixed(DefaultRequestFor(d));
    ServiceInList(codec, own, Every(DefaultServiceFor(d)), Slot([], false), top, i);
    ServiceIsLayered(codec, own, [i], DefaultServiceFor(d), ServiceItems(top)[i]);
  }

  /** The default request of the calls in a service's own script. */
  function OwnRequest(codec: Codec, section: seq<(string, Json)>): Request {
    RequestCommand("", SizeOr(codec, Find(section, "requestSize"), 0))
  }

  /**
   The layered reading of a parsed document, field by field. Every field of a service is its own, or that
   of the defaults section, or the built-in value. Calls in its own script are completed with the
   section's requestSize; calls in the section's script with the ambient default, whatever requestSize says.
   */
  lemma ParseIsLayered(codec: Codec, amb: Ambient, top: seq<(string, Json)>, i: nat)
    requires UniqueKeys(top) && UniqueKeys(SectionFields(Find(top, "defaults")))
    requires Parse(codec, amb, JObject(top)).Ok?
    requires i < |ServiceItems(top)| && UniqueKeys(FieldsOf(ServiceItems(top)[i]))
    ensures |Parse(codec, amb, JObject(top)).value| == |ServiceItems(top)|
    ensures var s := Parse(codec, amb, JObject(top)).value[i];
            var own, section := FieldsOf(ServiceItems(top)[i]), SectionFields(Find(top, "defaults"));
            && s.name == StringOr(Find(own, "name"), "")
            && s.kind == TypeOr(Find(own, "type"), TypeOr(Find(section, "type"), ServiceHTTP))
            && s.numReplicas == Int32Or(Find(own, "numReplicas"), Int32Or(Find(section, "numReplicas"), 1))
            && s.isEntrypoint == BoolOr(Find(own, "isEntrypoint"), false)
            && s.errorRate == RateOr(codec, Find(own, "errorRate"), RateOr(codec, Find(section, "errorRate"), 0.0))
            && s.responseSize
               == SizeOr(codec, Find(own, "responseSize"), SizeOr(codec, Find(section, "responseSize"), 0))
            && s.script == ScriptOr(codec, Fixed(OwnRequest(codec, section)), [i], Find(own, "script"),
                                    ScriptOr(codec, amb, [], Find(section, "script"), []))
  {
    LayeredOver(codec, amb, top, i, LayeredDefaults(codec, amb, top));
  }
}
