// Service ports: which are forwarded, on which local port, and to which port and container of a pod
// (LoopPodsToForward, getPortMap, portSearch and findContainerForPort of pkg/fwdservice/fwdservice.go).
module PodPorts {
  import opened Text

  datatype ContainerPort = ContainerPort(name: string, number: int)

  datatype Container = Container(name: string, ports: seq<ContainerPort>)

  datatype ServicePort = ServicePort(udp: bool, port: int, targetPort: string)

  datatype PortMapping = PortMapping(source: string, target: string)

  /** getPortMap: the target of the first mapping for the port, or the port itself. */
  function MappedPort(portMap: seq<PortMapping>, p: string): string {
    if portMap == [] then p
    else if portMap[0].source == p then portMap[0].target
    else MappedPort(portMap[1..], p)
  }

  function LocalPort(portMap: seq<PortMapping>, port: ServicePort): string {
    MappedPort(portMap, Itoa(port.port))
  }

  /** Not UDP, and the mapped local port parses as a 32-bit integer. */
  predicate Forwardable(portMap: seq<PortMapping>, port: ServicePort) {
    !port.udp && ParseInt(LocalPort(portMap, port), INT32_LIMIT).Some?
  }

  // ---------- The port and container of a forward ----------

  /** A container port and the name of its container. */
  datatype Owned = Owned(port: ContainerPort, container: string)

  /** The container ports in the order both searches visit them. */
  function AllPorts(containers: seq<Container>): seq<Owned> {
    if containers == [] then []
    else
      var c := containers[0];
      seq(|c.ports|, i requires 0 <= i < |c.ports| => Owned(c.ports[i], c.name)) + AllPorts(containers[1..])
  }

  /** portSearch: the first container port of the name. */
  function PortSearch(ports: seq<Owned>, name: string): Option<Owned> {
    if ports == [] then None
    else if ports[0].port.name == name then Some(ports[0])
    else PortSearch(ports[1..], name)
  }

  /** findContainerForPort: the first container with the port number, else the first container. */
  function ContainerForPort(containers: seq<Container>, ports: seq<Owned>, number: int): string {
    if ports == [] then (if containers == [] then "" else containers[0].name)
    else if ports[0].port.number == number then ports[0].container
    else ContainerForPort(containers, ports[1..], number)
  }

  /** What strconv.ParseInt with 32 bits yields when its range error is ignored. */
  function Clamped(v: int): int {
    if v >= INT32_LIMIT then INT32_LIMIT - 1 else if v < -INT32_LIMIT then -INT32_LIMIT else v
  }

  /** A target port that is not a number is looked up by name and stays as it is when not found; a number keeps its
      text. The second part is the container. */
  function PodPort(containers: seq<Container>, targetPort: string): (string, string) {
    match ParseInt(targetPort, INT64_LIMIT)
    case Some(v) => (targetPort, ContainerForPort(containers, AllPorts(containers), Clamped(v)))
    case None =>
      match PortSearch(AllPorts(containers), targetPort)
      case Some(o) => (Itoa(o.port.number), o.container)
      case None => (targetPort, "")
  }

  lemma {:induction false} PortSearchFinds(ports: seq<Owned>, name: string)
    ensures match PortSearch(ports, name)
            case Some(o) =>
              o.port.name == name &&
              exists i :: 0 <= i < |ports| && ports[i] == o && forall j :: 0 <= j < i ==> ports[j].port.name != name
            case None => forall i :: 0 <= i < |ports| ==> ports[i].port.name != name
  {
    if ports != [] && ports[0].port.name != name {
      PortSearchFinds(ports[1..], name);
      match PortSearch(ports[1..], name)
      case Some(o) =>
        var i :| 0 <= i < |ports| - 1 && ports[1..][i] == o
                 && forall j :: 0 <= j < i ==> ports[1..][j].port.name != name;
        assert ports[i + 1] == o && forall j :: 0 < j < i + 1 ==> ports[j] == ports[1..][j - 1];
      case None =>
        assert forall i :: 0 < i < |ports| ==> ports[i] == ports[1..][i - 1];
    }
  }

  // ---------- What these mean ----------

  predicate FirstMapping(portMap: seq<PortMapping>, p: string, i: int) {
    0 <= i < |portMap| && portMap[i].source == p && forall j :: 0 <= j < i ==> portMap[j].source != p
  }

  /** The first mapping of a source port decides; an unmapped port is itself. */
  lemma {:induction false} MappedPortIs(portMap: seq<PortMapping>, p: string)
    ensures (forall i :: 0 <= i < |portMap| ==> portMap[i].source != p) ==> MappedPort(portMap, p) == p
    ensures forall i :: FirstMapping(portMap, p, i) ==> MappedPort(portMap, p) == portMap[i].target
  {
    if portMap != [] && portMap[0].source != p {
      MappedPortIs(portMap[1..], p);
      forall i | FirstMapping(portMap, p, i)
        ensures MappedPort(portMap, p) == portMap[i].target
      {
        assert FirstMapping(portMap[1..], p, i - 1);
      }
    }
  }

  /** A port whose local port is written as a number is forwarded exactly when it is not UDP and the number has 32
      bits. */
  lemma ForwardableIff(portMap: seq<PortMapping>, port: ServicePort, v: int)
    requires LocalPort(portMap, port) == Itoa(v)
    ensures Forwardable(portMap, port) <==> !port.udp && -0x8000_0000 <= v < 0x8000_0000
  {
    hide Itoa, LocalPort;
    ParseOfItoaIff(v, INT32_LIMIT);
  }

  lemma {:induction false} SkipContainers(before: seq<Container>, rest: seq<Container>)
    ensures AllPorts(before + rest) == AllPorts(before) + AllPorts(rest)
  {
    if before == [] {
      assert before + rest == rest;
    } else {
      assert (before + rest)[1..] == before[1..] + rest;
      SkipContainers(before[1..], rest);
    }
  }

  lemma {:induction false} PortsOf(containers: seq<Container>, o: Owned)
    requires o in AllPorts(containers)
    ensures exists c :: c in containers && o.port in c.ports
  {
    var c := containers[0];
    if o in AllPorts(containers[1..]) {
      PortsOf(containers[1..], o);
    } else {
      assert c in containers && o.port in c.ports;
    }
  }

  lemma {:induction false} SkipPorts(all: seq<Container>, before: seq<Owned>, rest: seq<Owned>, name: string,
                                    number: int)
    ensures (forall o :: o in before ==> o.port.name != name) ==>
              PortSearch(before + rest, name) == PortSearch(rest, name)
    ensures (forall o :: o in before ==> o.port.number != number) ==>
              ContainerForPort(all, before + rest, number) == ContainerForPort(all, rest, number)
  {
    if before == [] {
      assert before + rest == rest;
    } else {
      assert (before + rest)[1..] == before[1..] + rest && before[0] in before;
      SkipPorts(all, before[1..], rest, name, number);
    }
  }

  function OwnedBy(c: Container, ports: seq<ContainerPort>): seq<Owned> {
    seq(|ports|, i requires 0 <= i < |ports| => Owned(ports[i], c.name))
  }

  /** All ports, split at one of them: those before it are of earlier containers, or earlier in its own. */
  lemma SplitAt(before: seq<Container>, c: Container, k: nat, after: seq<Container>)
    returns (pre: seq<Owned>, post: seq<Owned>)
    requires k < |c.ports|
    ensures AllPorts(before + [c] + after) == pre + ([Owned(c.ports[k], c.name)] + post)
    ensures forall o :: o in pre ==> (exists d :: d in before && o.port in d.ports) || o.port in c.ports[..k]
  {
    var own := OwnedBy(c, c.ports[..k]);
    pre := AllPorts(before) + own;
    post := OwnedBy(c, c.ports[k + 1..]) + AllPorts(after);
    assert before + [c] + after == before + ([c] + after);
    SkipContainers(before, [c] + after);
    OwnPorts(c, k, after);
    hide AllPorts, OwnedBy;
    Regroup(AllPorts(before), own, [Owned(c.ports[k], c.name)] + post);
    forall o | o in pre
      ensures (exists d :: d in before && o.port in d.ports) || o.port in c.ports[..k]
    {
      if o in AllPorts(before) {
        PortsOf(before, o);
      } else {
        OwnedPorts(c, c.ports[..k], o);
      }
    }
  }

  lemma Regroup(a: seq<Owned>, b: seq<Owned>, c: seq<Owned>)
    ensures a + (b + c) == (a + b) + c
  {
  }

  lemma OwnedPorts(c: Container, ports: seq<ContainerPort>, o: Owned)
    ensures o in OwnedBy(c, ports) ==> o.port in ports
  {
  }

  lemma OwnPorts(c: Container, k: nat, after: seq<Container>)
    requires k < |c.ports|
    ensures AllPorts([c] + after) ==
            OwnedBy(c, c.ports[..k]) + ([Owned(c.ports[k], c.name)] + (OwnedBy(c, c.ports[k + 1..]) + AllPorts(after)))
  {
    assert ([c] + after)[1..] == after;
  }

  /** A named target port becomes the number and the container of the first container port of that name. */
  lemma NamedPodPort(before: seq<Container>, c: Container, k: nat, after: seq<Container>, name: string)
    requires k < |c.ports| && c.ports[k].name == name && ParseInt(name, INT64_LIMIT).None?
    requires forall d, p :: d in before && p in d.ports ==> p.name != name
    requires forall p :: p in c.ports[..k] ==> p.name != name
    ensures PodPort(before + [c] + after, name) == (Itoa(c.ports[k].number), c.name)
  {
    hide ParseInt, Itoa, AllPorts, ContainerForPort;
    var all := before + [c] + after;
    var pre, post := SplitAt(before, c, k, after);
    SkipPorts(all, pre, [Owned(c.ports[k], c.name)] + post, name, 0);
  }

  /** A name that no container port has stays as it is, without a container. */
  lemma UnknownPodPort(containers: seq<Container>, name: string)
    requires ParseInt(name, INT64_LIMIT).None?
    requires forall d, p :: d in containers && p in d.ports ==> p.name != name
    ensures PodPort(containers, name) == (name, "")
  {
    hide ParseInt, Itoa, AllPorts, ContainerForPort;
    var all := AllPorts(containers);
    forall o | o in all
      ensures o.port.name != name
    {
      PortsOf(containers, o);
    }
    SkipPorts(containers, all, [], name, 0);
    assert all + [] == all;
  }

  /** A numeric target port keeps its text and goes to the first container with that port. */
  lemma NumericPodPort(before: seq<Container>, c: Container, k: nat, after: seq<Container>, v: int)
    requires k < |c.ports| && c.ports[k].number == v && -INT32_LIMIT <= v < INT32_LIMIT
    requires forall d, p :: d in before && p in d.ports ==> p.number != v
    requires forall p :: p in c.ports[..k] ==> p.number != v
    ensures PodPort(before + [c] + after, Itoa(v)) == (Itoa(v), c.name)
  {
    ParseOfItoa(v, INT64_LIMIT);
    hide ParseInt, Itoa, AllPorts, PortSearch;
    var all := before + [c] + after;
    var pre, post := SplitAt(before, c, k, after);
    SkipPorts(all, pre, [Owned(c.ports[k], c.name)] + post, "", v);
  }

  /** A number that no container port has goes to the first container, if there is one. */
  lemma UnknownNumericPodPort(containers: seq<Container>, v: int)
    requires -INT32_LIMIT <= v < INT32_LIMIT
    requires forall d, p :: d in containers && p in d.ports ==> p.number != v
    ensures PodPort(containers, Itoa(v)) == (Itoa(v), if containers == [] then "" else containers[0].name)
  {
    ParseOfItoa(v, INT64_LIMIT);
    hide ParseInt, Itoa, AllPorts, PortSearch;
    var all := AllPorts(containers);
    forall o | o in all
      ensures o.port.number != v
    {
      PortsOf(containers, o);
    }
    SkipPorts(containers, all, [], "", v);
    assert all + [] == all;
  }
}
