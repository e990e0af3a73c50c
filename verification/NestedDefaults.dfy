/**
 Where the reading of nested defaults departs from its documentation, and a document that shows it:
 its own default request size does not reach the calls of its default script.
 */
module NestedDefaults {
  import opened Topology
  import opened Json
  import opened Decoding
  import opened Parsing
  import opened Layering
  import opened Ambients
  import ParseThreads
  import Validation

  /**
   The documentation lets a default hold in all nested scopes, so that the section's own requestSize
   would complete the calls of the section's script. The code parses a document as documented if and
   only if the document is robust or its requestSize is zero.
   */
  lemma NestedDefaultsIff(codec: Codec, top: seq<(string, Json)>, d: Defaults)
    requires UniqueServices(top) && Parse(codec, Fixed(BUILT_IN_REQUEST), JObject(top)).Ok?
    requires DecodeMetadata(codec, Fixed(BUILT_IN_REQUEST), JObject(top)) == Ok(d)
    ensures Parse(codec, Fixed(DefaultRequestFor(d)), JObject(top))
              == Parse(codec, Fixed(BUILT_IN_REQUEST), JObject(top)) <==>
            Robust(top) || d.requestSize == 0
  {
    if Robust(top) {
      RobustParse(codec, Fixed(DefaultRequestFor(d)), top);
    } else if d.requestSize != 0 {
      FragileParse(codec, DefaultRequestFor(d), top);
    }
  }

  const CALL_A := JObject([("call", JString("a"))])
  const NESTED_SECTION := [("script", JArray([CALL_A])), ("requestSize", JInt(1))]

  /** defaults: {script: [{call: a}], requestSize: 1}, services: [{name: a}] */
  const NESTED := [("defaults", JObject(NESTED_SECTION)), ("services", JArray([JObject([("name", JString("a"))])]))]

  function CallingItself(size: nat): Service {
    Service("a", ServiceHTTP, 1, false, 0.0, 0, [RequestCommand("a", size)])
  }

  lemma NestedMetadata(codec: Codec, amb: Ambient)
    requires amb([0]).serviceName == ""
    ensures DecodeMetadata(codec, amb, JObject(NESTED))
         == Ok(DEFAULT_DEFAULTS.(script := [RequestCommand("a", amb([0]).size)], requestSize := 1))
  {
    var script: Script := [RequestCommand("a", amb([0]).size)];
    var start, scripted := Slot(DEFAULT_DEFAULTS, false), Slot(DEFAULT_DEFAULTS.(script := script), false);
    var sized := Slot(scripted.value.(requestSize := 1), false);
    assert [] + [0] == [0];
    assert DecodeCommand(codec, amb, [0], CALL_A) == Ok(script[0]);
    assert DecodeCommands(codec, amb, [], [CALL_A], 1) == Ok([]);
    assert script == [script[0]] + [];
    assert DecodeScript(codec, amb, [], JArray([CALL_A])) == Ok(script);
    assert NESTED_SECTION[1..] == [NESTED_SECTION[1]] && [NESTED_SECTION[1]][1..] == [];
    assert DefaultsFields(codec, amb, [], sized, []) == Ok(sized);
    assert DefaultsFields(codec, amb, [], scripted, [NESTED_SECTION[1]]) == Ok(sized);
    assert DefaultsFields(codec, amb, [], start, NESTED_SECTION) == Ok(sized);
    assert NESTED[1..] == [NESTED[1]] && [NESTED[1]][1..] == [];
    assert MetadataFields(codec, amb, sized, []) == Ok(sized);
    assert MetadataFields(codec, amb, sized, [NESTED[1]]) == Ok(sized);
  }

  lemma NestedServices(codec: Codec, d: Defaults)
    requires d.kind == ServiceHTTP && d.numReplicas == 1 && d.errorRate == 0.0 && d.responseSize == 0
    ensures DecodeGraph(codec, Fixed(DefaultRequestFor(d)), Every(DefaultServiceFor(d)), JObject(NESTED))
         == Ok([DefaultServiceFor(d).(name := "a")])
  {
    var amb, base := Fixed(DefaultRequestFor(d)), Every(DefaultServiceFor(d));
    var s, fields := DefaultServiceFor(d).(name := "a"), [("name", JString("a"))];
    var items := [JObject(fields)];
    var empty: Slot<seq<Service>> := Slot([], false);
    var filled: Slot<seq<Service>> := Slot([s], false);
    assert fields[1..] == [];
    assert ServiceFields(codec, amb, [] + [0], Slot(s, false), []) == Ok(Slot(s, false));
    assert DecodeService(codec, amb, [] + [0], base(0), items[0]) == Ok(s);
    assert DecodeServices(codec, amb, [], base, items, 1) == Ok([]);
    assert [s] + [] == [s];
    assert DecodeServices(codec, amb, [], base, items, 0) == Ok([s]);
    assert NESTED[1..] == [NESTED[1]] && [NESTED[1]][1..] == [];
    assert GraphFields(codec, amb, base, filled, []) == Ok(filled);
    assert GraphFields(codec, amb, base, empty, [NESTED[1]]) == Ok(filled);
  }

  lemma NestedIsValid(size: nat)
    ensures Validated(Ok([CallingItself(size)])) == Ok([CallingItself(size)])
  {
    var services := [CallingItself(size)];
    var call: Request := RequestCommand("a", size);
    assert [call][1..] == [] && CallsOf(call) == [call];
    assert Calls([call]) == [call];
    assert services[0] in services;
    assert "a" in Validation.Names(services);
    Validation.ValidationIsExact(services);
  }

  lemma NestedParses(codec: Codec, amb: Ambient)
    requires amb([0]).serviceName == ""
    ensures Parse(codec, amb, JObject(NESTED)) == Ok([CallingItself(amb([0]).size)])
  {
    NestedMetadata(codec, amb);
    var d := DecodeMetadata(codec, amb, JObject(NESTED)).value;
    NestedServices(codec, d);
    NestedIsValid(amb([0]).size);
  }

  /** A document that parses and is not robust: its call gets size 0 where the documentation says 1. */
  lemma NestedDefaultsFail(codec: Codec)
    ensures UniqueServices(NESTED) && !Robust(NESTED)
    ensures Parse(codec, Fixed(BUILT_IN_REQUEST), JObject(NESTED)) == Ok([CallingItself(0)])
    ensures Parse(codec, Fixed(RequestCommand("", 1)), JObject(NESTED)) == Ok([CallingItself(1)])
    ensures CallingItself(0) != CallingItself(1)
  {
    NestedParses(codec, Fixed(BUILT_IN_REQUEST));
    NestedParses(codec, Fixed(RequestCommand("", 1)));
    NestedIsFragile();
    assert CallingItself(0).script[0] != CallingItself(1).script[0];
  }

  lemma NestedIsFragile()
    ensures UniqueServices(NESTED) && !Robust(NESTED)
  {
    assert Find(NESTED, "defaults") == Some(JObject(NESTED_SECTION));
    assert Find(NESTED_SECTION, "script") == Some(JArray([CALL_A]));
    assert CALL_A in [CALL_A] && !GivesSizes(CALL_A);
    var item := JObject([("name", JString("a"))]);
    assert NESTED[1..] == [NESTED[1]];
    assert Find([NESTED[1]], "services") == Some(JArray([item]));
    assert Find(NESTED, "services") == Some(JArray([item]));
    assert [("name", JString("a"))][1..] == [];
    assert item in ServiceItems(NESTED) && !OwnScript(item);
  }

  /** The same document loses its isolation: next to another one, some schedule changes its result. */
  lemma NestedInterference(codec: Codec)
    ensures exists schedule, st ::
              && ParseThreads.Run(codec, [JObject(NESTED), ParseThreads.OTHER], ParseThreads.Init(2), schedule)
                 == Option.Some(st)
              && |st.phases| == 2 && st.phases[0].Finished?
              && st.phases[0].result != Parse(codec, Fixed(BUILT_IN_REQUEST), JObject(NESTED))
  {
    NestedDefaultsFail(codec);
    ParseThreads.Interference(codec, NESTED);
  }

  // ---------------------------------------------------------------- the documented spellings

  lemma {:induction false} NoSection(codec: Codec, amb: Ambient, slot: Slot<Defaults>, top: seq<(string, Json)>)
    requires Find(top, "defaults") == None
    ensures MetadataFields(codec, amb, slot, top) == Ok(slot)
    decreases top
  {
    if top != [] {
      NoSection(codec, amb, slot, top[1..]);
    }
  }

  /** A document without the key `defaults` has the built-in defaults, whatever its other keys are. */
  lemma DefaultKeyIsIgnored(codec: Codec, amb: Ambient, top: seq<(string, Json)>)
    requires Find(top, "defaults") == None
    ensures DecodeMetadata(codec, amb, JObject(top)) == Ok(DEFAULT_DEFAULTS)
  {
    NoSection(codec, amb, Slot(DEFAULT_DEFAULTS, false), top);
  }

  lemma {:induction false} FieldIsIgnored(codec: Codec, slot: Slot<Request>, front: seq<(string, Json)>, payload: Json,
                                          back: seq<(string, Json)>)
    ensures RequestFields(codec, slot, front + [("payloadSize", payload)] + back)
         == RequestFields(codec, slot, front + back)
    decreases front
  {
    var all := front + [("payloadSize", payload)] + back;
    if front == [] {
      assert all[1..] == back && front + back == back;
    } else {
      assert all[1..] == front[1..] + [("payloadSize", payload)] + back;
      assert (front + back)[1..] == front[1..] + back;
      var next := RequestField(codec, slot, front[0].0, front[0].1);
      if next.Ok? {
        FieldIsIgnored(codec, next.value, front[1..], payload, back);
      }
    }
  }

  /**
   The key `payloadSize` changes nothing about a call, wherever it stands and whatever its value is; a
   call without the key `size` keeps the default size.
   */
  lemma PayloadSizeIsIgnored(codec: Codec, d: Request, front: seq<(string, Json)>, payload: Json,
                             back: seq<(string, Json)>)
    ensures DecodeRequest(codec, d, JObject(front + [("payloadSize", payload)] + back))
         == DecodeRequest(codec, d, JObject(front + back))
    ensures Find(front + back, "size") == None && DecodeRequest(codec, d, JObject(front + back)).Ok? ==>
              DecodeRequest(codec, d, JObject(front + back)).value.size == d.size
  {
    FieldIsIgnored(codec, Slot(d, false), front, payload, back);
    if Find(front + back, "size") == None && DecodeRequest(codec, d, JObject(front + back)).Ok? {
      SizeIsKept(codec, Slot(d, false), front + back);
    }
  }
}
