/** The host-networks-containers graph, and what makes it well formed. */
module TopologySpec {
  import opened Wrappers

  // ---------- what Docker reports ----------

  datatype Net = Net(id: string, name: string, driver: string, internal: bool, ingress: bool)

  /** A published port has a public number other than zero. */
  datatype Port = Port(ip: string, public: nat)

  /** `networks` maps network names to the id of the endpoint's network; an endpoint can be missing. */
  datatype Container = Container(
    id: string, name: string, running: bool, networkMode: string, ports: seq<Port>,
    networks: map<string, Option<string>>)

  // ---------- the graph ----------

  datatype NodeKind = HostNode | NetworkNode | ContainerNode
  datatype EdgeKind = NetworkContainer | HostContainer | HostNetwork
  datatype Node = Node(id: string, kind: NodeKind, title: string, flags: seq<string>)
  datatype Edge = Edge(source: string, target: string, kind: EdgeKind, flags: seq<string>)
  datatype Topology = Topology(nodes: seq<Node>, edges: seq<Edge>)

  function HostId(node: string): string { "host:" + node }
  function NetId(n: Net): string { "net:" + n.id }
  function ContainerId(c: Container): string { "ct:" + c.id }

  function NetIds(nets: seq<Net>): set<string> { set n | n in nets :: NetId(n) }

  /** `isLoopback` */
  predicate IsLoopback(ip: string) { ip == "::1" || "127." <= ip }

  predicate Published(p: Port) { p.public != 0 }

  predicate PublishedWide(ports: seq<Port>) { exists p :: p in ports && Published(p) && !IsLoopback(p.ip) }

  predicate PublishedLocally(ports: seq<Port>) {
    (exists p :: p in ports && Published(p)) && !PublishedWide(ports)
  }

  predicate DirectDriver(driver: string) { driver in {"macvlan", "ipvlan", "host"} }

  /** The ids of the networks that put their containers on the wire. */
  function DirectIds(nets: seq<Net>): set<string> { set n | n in nets && DirectDriver(n.driver) :: n.id }

  function ById(nets: seq<Net>): map<string, string> { map n | n in nets :: n.id := NetId(n) }

  /** Of two networks with one name, the later one is found. */
  function ByName(nets: seq<Net>): map<string, string> {
    if nets == [] then map[] else ByName(nets[..|nets| - 1])[nets[|nets| - 1].name := NetId(nets[|nets| - 1])]
  }

  /** The network node an endpoint leads to: by network id, or else by name. */
  function Resolved(nets: seq<Net>, name: string, endpoint: Option<string>): Option<string> {
    match endpoint
    case None => None
    case Some(id) =>
      if id != "" && id in ById(nets) then Some(ById(nets)[id])
      else if name in ByName(nets) then Some(ByName(nets)[name])
      else None
  }

  /** The network nodes a container is attached to. */
  function Attached(nets: seq<Net>, c: Container): set<string> {
    set name | name in c.networks && Resolved(nets, name, c.networks[name]).Some?
      :: Resolved(nets, name, c.networks[name]).value
  }

  /** Attached to a network that exposes it. */
  predicate OnDirectNet(nets: seq<Net>, c: Container) {
    exists name :: name in c.networks && Resolved(nets, name, c.networks[name]).Some?
      && c.networks[name].value in DirectIds(nets)
  }

  predicate Exposed(nets: seq<Net>, c: Container) {
    PublishedWide(c.ports) || c.networkMode == "host" || OnDirectNet(nets, c)
  }

  // ---------- the parts of the graph ----------

  function NetFlags(n: Net): seq<string> {
    (if n.internal then ["isolated"] else []) + (if n.ingress then ["ingress"] else [])
    + (if DirectDriver(n.driver) then ["exposed-direct"] else [])
  }

  predicate SystemName(name: string) { name in {"bridge", "host", "none", "docker_gwbridge", "ingress"} }

  function NetNode(n: Net, used: set<string>): Node {
    Node(NetId(n), NetworkNode, n.name,
      NetFlags(n) + if NetId(n) !in used && !SystemName(n.name) then ["unused"] else [])
  }

  function ContainerFlags(nets: seq<Net>, c: Container): seq<string> {
    (if Exposed(nets, c) then ["exposed-public"] else if PublishedLocally(c.ports) then ["local-only"] else [])
    + (if c.running then [] else ["inactive"])
  }

  function ContainerNodeOf(nets: seq<Net>, c: Container): Node {
    Node(ContainerId(c), ContainerNode, c.name, ContainerFlags(nets, c))
  }

  function Included(cs: seq<Container>, all: bool): seq<Container> {
    if cs == [] then []
    else
      var front, last := Included(cs[..|cs| - 1], all), cs[|cs| - 1];
      if all || last.running then front + [last] else front
  }

  function Used(nets: seq<Net>, cs: seq<Container>): set<string> {
    set c, n | c in cs && n in Attached(nets, c) :: n
  }

  function HostEdge(node: string, c: Container, exposed: bool): Edge {
    Edge(HostId(node), ContainerId(c), HostContainer, if exposed then ["exposed"] else [])
  }

  /** The networks of a container in some order, each once. */
  ghost predicate Orders(sources: seq<string>, nets: seq<Net>, c: Container) {
    && (forall s :: s in sources <==> s in Attached(nets, c))
    && (forall i, j :: 0 <= i < j < |sources| ==> sources[i] != sources[j])
  }

  function NetEdges(sources: seq<string>, c: Container): seq<Edge> {
    seq(|sources|, i requires 0 <= i < |sources| => Edge(sources[i], ContainerId(c), NetworkContainer, []))
  }

  /** The edges of one container: one from each network it is attached to, and one from the host
      when there are none or when the container is exposed. */
  function Block(node: string, nets: seq<Net>, c: Container, sources: seq<string>): seq<Edge> {
    NetEdges(sources, c) + if sources == [] || Exposed(nets, c) then [HostEdge(node, c, Exposed(nets, c))] else []
  }

  function Blocks(node: string, nets: seq<Net>, cs: seq<Container>, sources: seq<seq<string>>): seq<Edge>
    requires |sources| == |cs|
  {
    if cs == [] then []
    else
      var n := |cs| - 1;
      Blocks(node, nets, cs[..n], sources[..n]) + Block(node, nets, cs[n], sources[n])
  }

  /** Networks that are not isolated hang off the host. */
  function HostEdges(node: string, nets: seq<Net>): seq<Edge> {
    if nets == [] then []
    else
      var front, last := HostEdges(node, nets[..|nets| - 1]), nets[|nets| - 1];
      if last.internal then front else front + [Edge(HostId(node), NetId(last), HostNetwork, [])]
  }

  function NetNodes(nets: seq<Net>, used: set<string>): seq<Node> {
    seq(|nets|, i requires 0 <= i < |nets| => NetNode(nets[i], used))
  }

  function ContainerNodes(nets: seq<Net>, cs: seq<Container>): seq<Node> {
    seq(|cs|, i requires 0 <= i < |cs| => ContainerNodeOf(nets, cs[i]))
  }

  /** The whole graph of the containers `cs`. Only the order of the networks of a container is open. */
  function Graph(node: string, nets: seq<Net>, cs: seq<Container>, sources: seq<seq<string>>): Topology
    requires |sources| == |cs|
  {
    var host := Node(HostId(node), HostNode, if node == "" then "host" else node, []);
    Topology(
      [host] + NetNodes(nets, Used(nets, cs)) + ContainerNodes(nets, cs),
      Blocks(node, nets, cs, sources) + HostEdges(node, nets))
  }

  ghost predicate AllOrders(sources: seq<seq<string>>, nets: seq<Net>, cs: seq<Container>) {
    |sources| == |cs| && forall k :: 0 <= k < |cs| ==> Orders(sources[k], nets, cs[k])
  }

  predicate DistinctNets(nets: seq<Net>) { forall i, j :: 0 <= i < j < |nets| ==> nets[i].id != nets[j].id }

  predicate DistinctContainers(cs: seq<Container>) { forall i, j :: 0 <= i < j < |cs| ==> cs[i].id != cs[j].id }
}
