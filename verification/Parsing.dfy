/**
 Parsing a service graph in the form of its code: two passes over the text, the second one under
 package globals that are overwritten and restored. Every method is tied to the functions of
 Decoding; what `Parse` means is the subject of Layering, RoundTrip and ParseThreads.
 */
module Parsing {
  import opened Topology
  import opened Json
  import opened Decoding
  import Validation

  datatype ParseError = Undecodable(error: DecodeError) | Invalid(problem: Validation.Problem)

  function Validated(r: Result<seq<Service>, DecodeError>): Result<seq<Service>, ParseError> {
    match r
    case Err(e) => Err(Undecodable(e))
    case Ok(services) =>
      match Validation.First(Validation.GraphProblems(services, Validation.Names(services)))
      case Some(p) => Err(Invalid(p))
      case None => Ok(services)
  }

  /** The whole parse as a function; `amb` is what the unlocked first pass finds in the global. */
  function Parse(codec: Codec, amb: Ambient, j: Json): Result<seq<Service>, ParseError> {
    match DecodeMetadata(codec, amb, j)
    case Err(e) => Err(Undecodable(e))
    case Ok(d) => Validated(DecodeGraph(codec, Fixed(DefaultRequestFor(d)), Every(DefaultServiceFor(d)), j))
  }

  function Prepend<T>(front: seq<T>, r: Result<seq<T>, DecodeError>): Result<seq<T>, DecodeError> {
    match r
    case Err(e) => Err(e)
    case Ok(rest) => Ok(front + rest)
  }

  /** The package globals svc.DefaultService, script.DefaultRequestCommand and the mutex. */
  class Globals {
    var defaultService: Service
    var defaultRequest: Request
    var locked: bool

    constructor ()
      ensures defaultService == Service("", ServiceHTTP, 1, false, 0.0, 0, [])
      ensures defaultRequest == RequestCommand("", 0) && !locked
    {
      defaultService := Service("", ServiceHTTP, 1, false, 0.0, 0, []);
      defaultRequest := RequestCommand("", 0);
      locked := false;
    }

    /** RequestCommand.UnmarshalJSON */
    method UnmarshalRequest(codec: Codec, j: Json) returns (r: Result<Request, DecodeError>)
      ensures r == DecodeRequest(codec, defaultRequest, j)
    {
      var c := defaultRequest;
      match j {
        case JString(s) =>
          return Ok(RequestCommand(s, c.size));
        case JNull =>
          return Ok(c);
        case JObject(fields) =>
          var slot := Slot(c, false);
          for k := 0 to |fields|
            invariant RequestFields(codec, Slot(c, false), fields) == RequestFields(codec, slot, fields[k..])
          {
            assert fields[k..][1..] == fields[k + 1..];
            var next := RequestField(codec, slot, fields[k].0, fields[k].1);
            if next.Err? {
              return Err(next.error);
            }
            slot := next.value;
          }
          return Finish(slot);
        case _ =>
          return Err(TypeMismatch);
      }
    }

    /** unmarshallableCommand.UnmarshalJSON */
    method UnmarshalCommand(codec: Codec, ghost at: seq<nat>, j: Json) returns (r: Result<Command, DecodeError>)
      ensures r == DecodeCommand(codec, Fixed(defaultRequest), at, j)
      decreases j, 0
    {
      match j {
        case JArray(items) =>
          var cmds := ParseCommands(codec, at, items);
          if cmds.Err? {
            return Err(cmds.error);
          }
          return Ok(ConcurrentCommand(cmds.value));
        case JNull =>
          return Err(UnknownCommandKey(""));
        case JObject(fields) =>
          if |fields| > 1 {
            return Err(MultipleKeysInCommand);
          }
          var key := if |fields| == 0 then "" else fields[0].0;
          if key == "sleep" {
            var d := DecodeDuration(codec, fields[0].1);
            return if d.Err? then Err(d.error) else Ok(SleepCommand(d.value));
          } else if key == "call" {
            var c := UnmarshalRequest(codec, fields[0].1);
            return if c.Err? then Err(c.error) else Ok(c.value);
          } else {
            return Err(UnknownCommandKey(key));
          }
        case _ =>
          return Err(TypeMismatch);
      }
    }

    /** parseJSONCommands, on the elements of the list */
    method ParseCommands(codec: Codec, ghost at: seq<nat>, items: seq<Json>)
      returns (r: Result<seq<Command>, DecodeError>)
      ensures r == DecodeCommands(codec, Fixed(defaultRequest), at, items, 0)
      decreases items, 1
    {
      var cmds: seq<Command> := [];
      PrependNone(DecodeCommands(codec, Fixed(defaultRequest), at, items, 0));
      for k := 0 to |items|
        invariant DecodeCommands(codec, Fixed(defaultRequest), at, items, 0)
                  == Prepend(cmds, DecodeCommands(codec, Fixed(defaultRequest), at, items, k))
      {
        var cmd := UnmarshalCommand(codec, at + [k], items[k]);
        if cmd.Err? {
          return Err(cmd.error);
        }
        PrependOne(cmds, cmd.value, DecodeCommands(codec, Fixed(defaultRequest), at, items, k + 1));
        cmds := cmds + [cmd.value];
      }
      assert cmds + [] == cmds;
      return Ok(cmds);
    }

    /** Script.UnmarshalJSON */
    method UnmarshalScript(codec: Codec, ghost at: seq<nat>, j: Json) returns (r: Result<Script, DecodeError>)
      ensures r == DecodeScript(codec, Fixed(defaultRequest), at, j)
    {
      match j {
        case JArray(items) => r := ParseCommands(codec, at, items);
        case JNull => r := Ok([]);
        case _ => r := Err(TypeMismatch);
      }
    }

    /** One field of a service, decoded in place; a custom decoder that fails stops the decoding. */
    method UnmarshalServiceField(codec: Codec, ghost at: seq<nat>, slot: Slot<Service>, key: string, j: Json)
      returns (r: Result<Slot<Service>, DecodeError>)
      ensures r == ServiceField(codec, Fixed(defaultRequest), at, slot, key, j)
    {
      var s, mismatch := slot.value, slot.mismatch;
      match key {
        case "name" =>
          var f := PlainString(s.name, j);
          s, mismatch := s.(name := f.value), mismatch || f.mismatch;
        case "type" =>
          var t := DecodeType(j);
          if t.Err? {
            return Err(t.error);
          }
          s := s.(kind := t.value);
        case "numReplicas" =>
          var f := PlainInt32(s.numReplicas, j);
          s, mismatch := s.(numReplicas := f.value), mismatch || f.mismatch;
        case "isEntrypoint" =>
          var f := PlainBool(s.isEntrypoint, j);
          s, mismatch := s.(isEntrypoint := f.value), mismatch || f.mismatch;
        case "errorRate" =>
          var rate := DecodeRate(codec, j);
          if rate.Err? {
            return Err(rate.error);
          }
          s := s.(errorRate := rate.value);
        case "responseSize" =>
          var size := DecodeSize(codec, j);
          if size.Err? {
            return Err(size.error);
          }
          s := s.(responseSize := size.value);
        case "script" =>
          var script := UnmarshalScript(codec, at, j);
          if script.Err? {
            return Err(script.error);
          }
          s := s.(script := script.value);
        case _ =>
      }
      return Ok(Slot(s, mismatch));
    }

    /** Service.UnmarshalJSON */
    method UnmarshalService(codec: Codec, ghost at: seq<nat>, j: Json) returns (r: Result<Service, DecodeError>)
      ensures r == DecodeService(codec, Fixed(defaultRequest), at, defaultService, j)
    {
      var slot := Slot(defaultService, false);
      match j {
        case JNull =>
        case JObject(fields) =>
          for k := 0 to |fields|
            invariant ServiceFields(codec, Fixed(defaultRequest), at, Slot(defaultService, false), fields)
                      == ServiceFields(codec, Fixed(defaultRequest), at, slot, fields[k..])
          {
            assert fields[k..][1..] == fields[k + 1..];
            var next := UnmarshalServiceField(codec, at, slot, fields[k].0, fields[k].1);
            if next.Err? {
              return Err(next.error);
            }
            slot := next.value;
          }
        case _ =>
          return Err(TypeMismatch);
      }
      if slot.mismatch {
        return Err(TypeMismatch);
      }
      if slot.value.name == "" {
        return Err(EmptyName);
      }
      return Ok(slot.value);
    }

    /** One field of the defaults section. */
    method UnmarshalDefaultsField(codec: Codec, slot: Slot<Defaults>, key: string, j: Json)
      returns (r: Result<Slot<Defaults>, DecodeError>)
      ensures r == DefaultsField(codec, Fixed(defaultRequest), [], slot, key, j)
    {
      var d, mismatch := slot.value, slot.mismatch;
      match key {
        case "type" =>
          var t := DecodeType(j);
          if t.Err? {
            return Err(t.error);
          }
          d := d.(kind := t.value);
        case "numReplicas" =>
          var f := PlainInt32(d.numReplicas, j);
          d, mismatch := d.(numReplicas := f.value), mismatch || f.mismatch;
        case "errorRate" =>
          var rate := DecodeRate(codec, j);
          if rate.Err? {
            return Err(rate.error);
          }
          d := d.(errorRate := rate.value);
        case "responseSize" =>
          var size := DecodeSize(codec, j);
          if size.Err? {
            return Err(size.error);
          }
          d := d.(responseSize := size.value);
        case "script" =>
          var script := UnmarshalScript(codec, [], j);
          if script.Err? {
            return Err(script.error);
          }
          d := d.(script := script.value);
        case "requestSize" =>
          var size := DecodeSize(codec, j);
          if size.Err? {
            return Err(size.error);
          }
          d := d.(requestSize := size.value);
        case _ =>
      }
      return Ok(Slot(d, mismatch));
    }

    /** The defaults section, decoded over what is there already. */
    method UnmarshalDefaults(codec: Codec, start: Slot<Defaults>, j: Json)
      returns (r: Result<Slot<Defaults>, DecodeError>)
      ensures r == MetadataField(codec, Fixed(defaultRequest), start, "defaults", j)
    {
      match j {
        case JNull =>
          return Ok(start);
        case JObject(fields) =>
          var slot := start;
          for k := 0 to |fields|
            invariant DefaultsFields(codec, Fixed(defaultRequest), [], start, fields)
                      == DefaultsFields(codec, Fixed(defaultRequest), [], slot, fields[k..])
          {
            assert fields[k..][1..] == fields[k + 1..];
            var next := UnmarshalDefaultsField(codec, slot, fields[k].0, fields[k].1);
            if next.Err? {
              return Err(next.error);
            }
            slot := next.value;
          }
          return Ok(slot);
        case _ =>
          return Ok(start.(mismatch := true));
      }
    }

    /** The first pass: it reads the global default request, and it holds no lock. */
    method UnmarshalMetadata(codec: Codec, j: Json) returns (r: Result<Defaults, DecodeError>)
      ensures r == DecodeMetadata(codec, Fixed(defaultRequest), j)
    {
      var slot := Slot(DEFAULT_DEFAULTS, false);
      match j {
        case JNull =>
        case JObject(fields) =>
          for k := 0 to |fields|
            invariant MetadataFields(codec, Fixed(defaultRequest), Slot(DEFAULT_DEFAULTS, false), fields)
                      == MetadataFields(codec, Fixed(defaultRequest), slot, fields[k..])
          {
            assert fields[k..][1..] == fields[k + 1..];
            if fields[k].0 == "defaults" {
              var next := UnmarshalDefaults(codec, slot, fields[k].1);
              if next.Err? {
                return Err(next.error);
              }
              slot := next.value;
            }
          }
        case _ =>
          return Err(TypeMismatch);
      }
      return Finish(slot);
    }

    /** The second pass, run while the globals hold the graph's own defaults. */
    method UnmarshalServices(codec: Codec, j: Json) returns (r: Result<seq<Service>, DecodeError>)
      ensures r == DecodeGraph(codec, Fixed(defaultRequest), Every(defaultService), j)
    {
      match j {
        case JNull =>
          return Ok([]);
        case JObject(fields) =>
          var slot: Slot<seq<Service>> := Slot([], false);
          for k := 0 to |fields|
            invariant GraphFields(codec, Fixed(defaultRequest), Every(defaultService), Slot([], false), fields)
                      == GraphFields(codec, Fixed(defaultRequest), Every(defaultService), slot, fields[k..])
          {
            assert fields[k..][1..] == fields[k + 1..];
            if fields[k].0 == "services" {
              match fields[k].1 {
                case JNull => slot := slot.(value := []);
                case JArray(items) =>
                  var services := UnmarshalServiceList(codec, [], items);
                  if services.Err? {
                    return Err(services.error);
                  }
                  slot := slot.(value := services.value);
                case _ => slot := slot.(mismatch := true);
              }
            }
          }
          return Finish(slot);
        case _ =>
          return Err(TypeMismatch);
      }
    }

    method UnmarshalServiceList(codec: Codec, ghost at: seq<nat>, items: seq<Json>)
      returns (r: Result<seq<Service>, DecodeError>)
      ensures r == DecodeServices(codec, Fixed(defaultRequest), at, Every(defaultService), items, 0)
    {
      var services: seq<Service> := [];
      PrependNone(DecodeServices(codec, Fixed(defaultRequest), at, Every(defaultService), items, 0));
      for k := 0 to |items|
        invariant DecodeServices(codec, Fixed(defaultRequest), at, Every(defaultService), items, 0)
                  == Prepend(services, DecodeServices(codec, Fixed(defaultRequest), at, Every(defaultService),
                                                      items, k))
      {
        var s := UnmarshalService(codec, at + [k], items[k]);
        if s.Err? {
          return Err(s.error);
        }
        PrependOne(services, s.value,
                   DecodeServices(codec, Fixed(defaultRequest), at, Every(defaultService), items, k + 1));
        services := services + [s.value];
      }
      assert services + [] == services;
      return Ok(services);
    }

    /**
     parseJSONServiceGraphWithDefaults with withGlobalDefaults: the pass runs under the given
     defaults, and the globals are restored whether or not it succeeds.
     */
    method ParseWithDefaults(codec: Codec, d: Defaults, j: Json) returns (r: Result<seq<Service>, DecodeError>)
      requires !locked
      modifies this
      ensures r == DecodeGraph(codec, Fixed(DefaultRequestFor(d)), Every(DefaultServiceFor(d)), j)
      ensures defaultService == old(defaultService) && defaultRequest == old(defaultRequest) && !locked
    {
      locked := true;
      var origService := defaultService;
      defaultService := DefaultServiceFor(d);
      var origRequest := defaultRequest;
      defaultRequest := DefaultRequestFor(d);
      r := UnmarshalServices(codec, j);
      defaultService := origService;
      defaultRequest := origRequest;
      locked := false;
    }

    /** ServiceGraph.UnmarshalJSON */
    method UnmarshalGraph(codec: Codec, j: Json) returns (r: Result<seq<Service>, ParseError>)
      requires !locked
      modifies this
      ensures r == Parse(codec, Fixed(old(defaultRequest)), j)
      ensures defaultService == old(defaultService) && defaultRequest == old(defaultRequest) && !locked
    {
      var metadata := UnmarshalMetadata(codec, j);
      if metadata.Err? {
        return Err(Undecodable(metadata.error));
      }
      var services := ParseWithDefaults(codec, metadata.value, j);
      if services.Err? {
        return Err(Undecodable(services.error));
      }
      var problem := Validation.Validate(services.value);
      if problem.Some? {
        return Err(Invalid(problem.value));
      }
      return Ok(services.value);
    }
  }

  lemma PrependNone<T>(r: Result<seq<T>, DecodeError>)
    ensures Prepend([], r) == r
  {
    if r.Ok? {
      assert [] + r.value == r.value;
    }
  }

  lemma PrependOne<T>(front: seq<T>, x: T, r: Result<seq<T>, DecodeError>)
    ensures Prepend(front, Prepend([x], r)) == Prepend(front + [x], r)
  {
    if r.Ok? {
      assert front + ([x] + r.value) == front + [x] + r.value;
    }
  }
}
