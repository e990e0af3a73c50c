/** How a pod picks its own service, and the known service types, out of the service graph. */
module PodSetup {
  import opened Topology

  /** The script each name stands for: the first service with that name wins. */
  function ScriptsOf(services: seq<Service>): map<string, Script> {
    if services == [] then map[] else ScriptsOf(services[1..])[services[0].name := services[0].script]
  }

  /** Service `i` is the first one called `name`. */
  predicate IsFirst(services: seq<Service>, name: string, i: nat) {
    i < |services| && services[i].name == name && forall k | 0 <= k < i :: services[k].name != name
  }

  predicate IsLast(services: seq<Service>, name: string, i: nat) {
    i < |services| && services[i].name == name && forall k | i < k < |services| :: services[k].name != name
  }

  lemma {:induction false} ScriptsOfFirst(services: seq<Service>, name: string, i: nat)
    requires IsFirst(services, name, i)
    ensures name in ScriptsOf(services) && ScriptsOf(services)[name] == services[i].script
  {
    if i > 0 {
      assert services[0].name != name;
      assert IsFirst(services[1..], name, i - 1);
      ScriptsOfFirst(services[1..], name, i - 1);
    }
  }

  lemma {:induction false} ScriptsOfNames(services: seq<Service>, name: string)
    ensures name in ScriptsOf(services) <==> Defines(services, name)
  {
    if services != [] {
      ScriptsOfNames(services[1..], name);
      if Defines(services[1..], name) {
        var i :| 0 <= i < |services[1..]| && services[1..][i].name == name;
        assert services[i + 1].name == name;
      }
      if Defines(services, name) && services[0].name != name {
        var i :| 0 <= i < |services| && services[i].name == name;
        assert services[1..][i - 1].name == name;
      }
    }
  }

  /** extractService: the script it yields is the one the executor model runs under that name. */
  method ExtractService(services: seq<Service>, name: string) returns (r: Result<Service, string>)
    ensures r.Ok? <==> name in ScriptsOf(services)
    ensures r.Ok? ==> exists i: nat :: IsFirst(services, name, i) && r.value == services[i]
    ensures r.Ok? ==> r.value.script == ScriptsOf(services)[name]
    ensures r.Err? ==> r.error == name
  {
    ScriptsOfNames(services, name);
    for i := 0 to |services|
      invariant forall k | 0 <= k < i :: services[k].name != name
    {
      if services[i].name == name {
        assert IsFirst(services, name, i);
        ScriptsOfFirst(services, name, i);
        return Ok(services[i]);
      }
    }
    return Err(name);
  }

  /** extractServiceTypes: its keys, which decide "does not exist", are the executor's defined names. */
  method ExtractServiceTypes(services: seq<Service>) returns (types: map<string, ServiceType>)
    ensures types.Keys == ScriptsOf(services).Keys
    ensures forall i: nat, name :: IsLast(services, name, i) ==> name in types && types[name] == services[i].kind
  {
    types := map[];
    for i := 0 to |services|
      invariant forall name :: name in types <==> Defines(services[..i], name)
      invariant forall k: nat, name ::
                  IsLast(services[..i], name, k) ==> name in types && types[name] == services[k].kind
    {
      var service := services[i];
      ghost var before := types;
      types := types[service.name := service.kind];
      assert forall name :: name in types <==> Defines(services[..i + 1], name);
      forall k: nat, name | IsLast(services[..i + 1], name, k)
        ensures name in types && types[name] == services[k].kind
      {
        if k < i {
          assert services[..i + 1][i].name != name;
          forall l | k < l < i ensures services[..i][l].name != name {
            assert services[..i + 1][l].name != name;
          }
          assert services[..i][k] == services[..i + 1][k];
          assert IsLast(services[..i], name, k);
        }
      }
    }
    assert services[..|services|] == services;
    forall name ensures name in types <==> name in ScriptsOf(services) {
      ScriptsOfNames(services, name);
    }
  }
}
