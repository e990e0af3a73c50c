/** The service graph as the converter and the pods see it. */
module Topology {
  datatype Option<+T> = None | Some(value: T)

  datatype Result<+T, +E> = Ok(value: T) | Err(error: E)

  datatype Command =
    | SleepCommand(duration: int)
    | RequestCommand(serviceName: string, size: nat)
    | ConcurrentCommand(members: seq<Command>)

  type Script = seq<Command>

  type Request = c: Command | c.RequestCommand? witness RequestCommand("", 0)

  datatype ServiceType = ServiceUnknown | ServiceHTTP | ServiceGRPC

  datatype Service = Service(
    name: string,
    kind: ServiceType,
    numReplicas: int,
    isEntrypoint: bool,
    errorRate: real,
    responseSize: nat,
    script: Script)

  predicate Defines(services: seq<Service>, name: string) {
    exists i :: 0 <= i < |services| && services[i].name == name
  }

  /** Every call of a script, at any depth, in the order in which the script text lists them. */
  function Calls(cmds: Script): seq<Request> {
    if cmds == [] then [] else CallsOf(cmds[0]) + Calls(cmds[1..])
  }

  function CallsOf(cmd: Command): seq<Request> {
    match cmd
    case SleepCommand(_) => []
    case RequestCommand(_, _) => [cmd]
    case ConcurrentCommand(members) => Calls(members)
  }

  lemma CallsFrom(cmds: Script, k: nat)
    requires k < |cmds|
    ensures Calls(cmds[k..]) == CallsOf(cmds[k]) + Calls(cmds[k + 1..])
  {
    assert cmds[k..][1..] == cmds[k + 1..];
  }

  lemma CallsOfMember(cmds: Script, i: nat)
    requires i < |cmds|
    ensures forall c <- CallsOf(cmds[i]) :: c in Calls(cmds)
  {
    if i > 0 {
      CallsOfMember(cmds[1..], i - 1);
    }
  }
}
