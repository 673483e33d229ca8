/** Building the graph the way the source does: loops over growing slices and lookup maps. */
module NetworkTopology {
  import opened Wrappers
  import opened TopologyLaws
  import opened TopologySpec

  // ---------- keys of seen edges ----------

  predicate NoBar(s: string) { '|' !in s }

  function Key(source: string, c: Container): string { source + "|" + ContainerId(c) }

  function ExposedKey(source: string, c: Container): string { source + "|" + ContainerId(c) + "|exposed" }

  /** What follows the last bar is determined by the whole. */
  lemma LastPart(a: string, b: string, p: string, q: string)
    requires NoBar(p) && NoBar(q) && a + "|" + p == b + "|" + q
    ensures p == q && a == b
  {
    var s := a + "|" + p;
    assert s[|a|] == '|' && s[|b|] == '|';
    assert forall i :: |a| < i < |s| ==> s[i] == p[i - |a| - 1];
    assert forall i :: |b| < i < |s| ==> s[i] == q[i - |b| - 1];
    assert |a| == |b|;
    assert s[..|a|] == a && s[..|b|] == b;
    assert s[|a| + 1..] == p && s[|b| + 1..] == q;
  }

  lemma KeysDiffer(a: string, c: Container, b: string, d: Container)
    requires NoBar(c.id) && NoBar(d.id)
    ensures Key(a, c) == Key(b, d) ==> a == b && c.id == d.id
    ensures Key(a, c) != ExposedKey(b, d)
    ensures ExposedKey(a, c) == ExposedKey(b, d) ==> a == b && c.id == d.id
  {
    var p, q := ContainerId(c), ContainerId(d);
    assert NoBar(p) && NoBar(q) && NoBar("exposed");
    assert p[3..] == c.id && q[3..] == d.id && p[0] == 'c';
    if Key(a, c) == Key(b, d) { LastPart(a, b, p, q); }
    if Key(a, c) == ExposedKey(b, d) {
      assert Key(a, c) == a + "|" + p && ExposedKey(b, d) == Key(b, d) + "|" + "exposed";
      LastPart(a, Key(b, d), p, "exposed");
    }
    if ExposedKey(a, c) == ExposedKey(b, d) {
      assert ExposedKey(a, c) == Key(a, c) + "|" + "exposed" && ExposedKey(b, d) == Key(b, d) + "|" + "exposed";
      LastPart(Key(a, c), Key(b, d), "exposed", "exposed");
      LastPart(a, b, p, q);
    }
  }

  /** No edge of this container has been seen. */
  ghost predicate FreshFor(seen: set<string>, c: Container) {
    forall source :: Key(source, c) !in seen && ExposedKey(source, c) !in seen
  }

  /** Everything new in `seen` is a key of `c`. */
  ghost predicate GrownBy(before: set<string>, seen: set<string>, c: Container) {
    forall k :: k in seen ==> k in before || exists source :: k == Key(source, c) || k == ExposedKey(source, c)
  }

  lemma StaysFresh(before: set<string>, seen: set<string>, c: Container, d: Container)
    requires FreshFor(before, d) && GrownBy(before, seen, c) && NoBar(c.id) && NoBar(d.id) && c.id != d.id
    ensures FreshFor(seen, d)
  {
    forall source
      ensures Key(source, d) !in seen && ExposedKey(source, d) !in seen
    {
      if Key(source, d) in seen {
        var s :| Key(source, d) == Key(s, c) || Key(source, d) == ExposedKey(s, c);
        KeysDiffer(source, d, s, c);
      }
      if ExposedKey(source, d) in seen {
        var s :| ExposedKey(source, d) == Key(s, c) || ExposedKey(source, d) == ExposedKey(s, c);
        KeysDiffer(s, c, source, d);
        KeysDiffer(source, d, s, c);
      }
    }
  }

  // ---------- containers ----------

  /** `buildTopologyContainer`, the exposure part. */
  method BuildContainer(ports: seq<Port>) returns (exposedPublic: bool, localOnly: bool)
    ensures exposedPublic == PublishedWide(ports) && localOnly == PublishedLocally(ports)
  {
    exposedPublic, localOnly := false, false;
    var hasPublished, allLoopback := false, true;
    for i := 0 to |ports|
      invariant hasPublished <==> exists k :: 0 <= k < i && Published(ports[k])
      invariant exposedPublic <==> exists k :: 0 <= k < i && Published(ports[k]) && !IsLoopback(ports[k].ip)
      invariant allLoopback == !exposedPublic
    {
      var p := ports[i];
      if p.public == 0 {
        continue;
      }
      assert Published(p);
      hasPublished := true;
      if !IsLoopback(p.ip) {
        allLoopback := false;
        exposedPublic := true;
      }
    }
    if hasPublished && allLoopback {
      localOnly, exposedPublic := true, false;
    }
  }

  method FlagNetwork(n: Net) returns (flags: seq<string>, isDirect: bool)
    ensures flags == NetFlags(n) && isDirect == DirectDriver(n.driver)
  {
    flags := [];
    if n.internal {
      flags := flags + ["isolated"];
    }
    if n.ingress {
      flags := flags + ["ingress"];
    }
    isDirect := n.driver == "macvlan" || n.driver == "ipvlan" || n.driver == "host";
    if isDirect {
      flags := flags + ["exposed-direct"];
    }
  }

  lemma IndexNext(nets: seq<Net>, n: Net)
    ensures ById(nets + [n]) == ById(nets)[n.id := NetId(n)]
    ensures ByName(nets + [n]) == ByName(nets)[n.name := NetId(n)]
    ensures DirectIds(nets + [n]) == if DirectDriver(n.driver) then DirectIds(nets) + {n.id} else DirectIds(nets)
    ensures Bare(nets + [n]) == Bare(nets) + [Node(NetId(n), NetworkNode, n.name, NetFlags(n))]
  {
    assert (nets + [n])[..|nets|] == nets;
    assert forall m :: m in nets + [n] <==> m in nets || m == n;
    if DirectDriver(n.driver) {
      assert n in nets + [n];
    }
  }

  /** The lookup maps and the network nodes before their use is known. */
  method IndexNetworks(nets: seq<Net>)
    returns (byId: map<string, string>, byName: map<string, string>, direct: set<string>, nodes: seq<Node>)
    ensures byId == ById(nets) && byName == ByName(nets) && direct == DirectIds(nets)
    ensures nodes == Bare(nets)
  {
    byId, byName, direct, nodes := map[], map[], {}, [];
    for i := 0 to |nets|
      invariant byId == ById(nets[..i]) && byName == ByName(nets[..i]) && direct == DirectIds(nets[..i])
      invariant nodes == Bare(nets[..i])
    {
      var n := nets[i];
      IndexNext(nets[..i], n);
      assert nets[..i + 1] == nets[..i] + [n];
      var flags, isDirect := FlagNetwork(n);
      if isDirect {
        direct := direct + {n.id};
      }
      var nodeId := NetId(n);
      byId := byId[n.id := nodeId];
      byName := byName[n.name := nodeId];
      nodes := nodes + [Node(nodeId, NetworkNode, n.name, flags)];
    }
    assert nets[..|nets|] == nets;
  }

  function Bare(nets: seq<Net>): seq<Node> {
    seq(|nets|, i requires 0 <= i < |nets| => Node(NetId(nets[i]), NetworkNode, nets[i].name, NetFlags(nets[i])))
  }

  /** The attachments of a container, in the order in which its networks happen to come. */
  method ResolveAttachments(ghost nets: seq<Net>, c: Container, byId: map<string, string>, byName: map<string, string>,
                            direct: set<string>)
    returns (attachments: seq<string>, onDirect: bool)
    requires byId == ById(nets) && byName == ByName(nets) && direct == DirectIds(nets)
    ensures forall s :: s in attachments <==> s in Attached(nets, c)
    ensures onDirect == OnDirectNet(nets, c)
  {
    attachments, onDirect := [], false;
    var left := c.networks.Keys;
    while left != {}
      invariant left <= c.networks.Keys
      invariant forall s :: s in attachments <==>
        exists name :: name in c.networks && name !in left
          && Resolved(nets, name, c.networks[name]) == Some(s)
      invariant onDirect <==>
        exists name :: name in c.networks && name !in left
          && Resolved(nets, name, c.networks[name]).Some? && c.networks[name].value in direct
    {
      var name :| name in left;
      left := left - {name};
      if c.networks[name].None? {
        continue;
      }
      var networkId, netNodeId := c.networks[name].value, "";
      if networkId != "" && networkId in byId {
        netNodeId := byId[networkId];
      } else if name in byName {
        netNodeId := byName[name];
      } else {
        continue;
      }
      if networkId in direct {
        onDirect := true;
      }
      attachments := attachments + [netNodeId];
    }
  }

  /** The edges from the networks of a container; an attachment that has been seen is skipped. */
  method NetworkEdges(c: Container, attachments: seq<string>, seen: set<string>, usage: map<string, nat>)
    returns (block: seq<Edge>, seen': set<string>, usage': map<string, nat>, ghost sources: seq<string>)
    requires NoBar(c.id) && FreshFor(seen, c)
    ensures forall s :: s in sources <==> s in attachments
    ensures forall a, b :: 0 <= a < b < |sources| ==> sources[a] != sources[b]
    ensures block == NetEdges(sources, c)
    ensures GrownBy(seen, seen', c)
    ensures forall s :: Key(s, c) in seen' <==> s in sources
    ensures forall s :: ExposedKey(s, c) !in seen'
    ensures forall id :: id in usage' <==> id in usage || id in sources
  {
    block, seen', usage', sources := [], seen, usage, [];
    for i := 0 to |attachments|
      invariant forall s :: s in sources <==> s in attachments[..i]
      invariant forall a, b :: 0 <= a < b < |sources| ==> sources[a] != sources[b]
      invariant forall s :: Key(s, c) in seen' <==> s in sources
      invariant forall s :: ExposedKey(s, c) !in seen'
      invariant GrownBy(seen, seen', c)
      invariant block == NetEdges(sources, c)
      invariant forall id :: id in usage' <==> id in usage || id in sources
    {
      var source := attachments[i];
      assert attachments[..i + 1] == attachments[..i] + [source];
      var edgeKey := source + "|" + ContainerId(c);
      assert edgeKey == Key(source, c);
      if edgeKey in seen' {
        continue;
      }
      NewKey(seen, seen', source, c);
      seen' := seen' + {edgeKey};
      usage' := usage'[source := if source in usage' then usage'[source] + 1 else 1];
      block := block + [Edge(source, ContainerId(c), NetworkContainer, [])];
      sources := sources + [source];
    }
    assert attachments[..|attachments|] == attachments;
  }

  /** All edges of one container. */
  method ContainerEdges(node: string, ghost nets: seq<Net>, c: Container, attachments: seq<string>, exposed: bool,
                        seen: set<string>, usage: map<string, nat>)
    returns (block: seq<Edge>, seen': set<string>, usage': map<string, nat>, ghost sources: seq<string>)
    requires NoBar(c.id) && FreshFor(seen, c) && exposed == Exposed(nets, c)
    requires forall s :: s in attachments <==> s in Attached(nets, c)
    ensures Orders(sources, nets, c) && block == Block(node, nets, c, sources)
    ensures GrownBy(seen, seen', c)
    ensures usage'.Keys == usage.Keys + Attached(nets, c)
  {
    block, seen', usage', sources := NetworkEdges(c, attachments, seen, usage);
    assert sources == [] <==> attachments == [] by {
      assert attachments != [] ==> attachments[0] in sources;
      assert sources != [] ==> sources[0] in attachments;
    }
    if |attachments| == 0 {
      var edgeKey := HostId(node) + "|" + ContainerId(c);
      assert edgeKey == Key(HostId(node), c);
      if edgeKey !in seen' {
        seen' := seen' + {edgeKey};
        block := block + [Edge(HostId(node), ContainerId(c), HostContainer, if exposed then ["exposed"] else [])];
      }
    } else if exposed {
      var edgeKey := HostId(node) + "|" + ContainerId(c) + "|exposed";
      assert edgeKey == ExposedKey(HostId(node), c);
      if edgeKey !in seen' {
        seen' := seen' + {edgeKey};
        block := block + [Edge(HostId(node), ContainerId(c), HostContainer, ["exposed"])];
      }
    }
  }

  lemma NewKey(before: set<string>, seen: set<string>, source: string, c: Container)
    requires NoBar(c.id) && GrownBy(before, seen, c)
    ensures GrownBy(before, seen + {Key(source, c)}, c)
    ensures forall s :: Key(s, c) in seen + {Key(source, c)} <==> Key(s, c) in seen || s == source
    ensures forall s :: ExposedKey(s, c) in seen + {Key(source, c)} <==> ExposedKey(s, c) in seen
  {
    forall s
      ensures Key(s, c) == Key(source, c) <==> s == source
      ensures ExposedKey(s, c) != Key(source, c)
    {
      KeysDiffer(s, c, source, c);
      KeysDiffer(source, c, s, c);
    }
  }

  // ---------- the graph ----------

  /** What the loop over the containers has built so far. */
  ghost predicate BuiltUpTo(node: string, nets: seq<Net>, cs: seq<Container>, nodes: seq<Node>, edges: seq<Edge>,
                            usage: map<string, nat>, sources: seq<seq<string>>)
  {
    && AllOrders(sources, nets, cs)
    && nodes == ContainerNodes(nets, cs)
    && edges == Blocks(node, nets, cs, sources)
    && usage.Keys == Used(nets, cs)
  }

  lemma OneMoreContainer(node: string, nets: seq<Net>, cs: seq<Container>, c: Container, srcs: seq<string>,
                         nodes: seq<Node>, edges: seq<Edge>, usage: map<string, nat>, usage': map<string, nat>,
                         sources: seq<seq<string>>)
    requires BuiltUpTo(node, nets, cs, nodes, edges, usage, sources)
    requires Orders(srcs, nets, c) && usage'.Keys == usage.Keys + Attached(nets, c)
    ensures BuiltUpTo(node, nets, cs + [c], nodes + [ContainerNodeOf(nets, c)],
      edges + Block(node, nets, c, srcs), usage', sources + [srcs])
  {
    assert (cs + [c])[..|cs|] == cs && (sources + [srcs])[..|cs|] == sources;
    assert forall d :: d in cs + [c] <==> d in cs || d == c;
    assert Used(nets, cs + [c]) == Used(nets, cs) + Attached(nets, c);
  }

  /** The containers and their edges. */
  method BuildContainers(node: string, ghost nets: seq<Net>, cs: seq<Container>, all: bool, byId: map<string, string>,
                         byName: map<string, string>, direct: set<string>)
    returns (nodes: seq<Node>, edges: seq<Edge>, usage: map<string, nat>, ghost sources: seq<seq<string>>)
    requires byId == ById(nets) && byName == ByName(nets) && direct == DirectIds(nets)
    requires DistinctContainers(cs) && forall c :: c in cs ==> NoBar(c.id)
    ensures BuiltUpTo(node, nets, Included(cs, all), nodes, edges, usage, sources)
  {
    nodes, edges, usage, sources := [], [], map[], [];
    var seen: set<string> := {};
    for i := 0 to |cs|
      invariant BuiltUpTo(node, nets, Included(cs[..i], all), nodes, edges, usage, sources)
      invariant forall k :: i <= k < |cs| ==> FreshFor(seen, cs[k])
    {
      var c := cs[i];
      assert cs[..i + 1][..i] == cs[..i];
      if !all && !c.running {
        continue;
      }
      var exposed, localOnly := BuildContainer(c.ports);
      if c.networkMode == "host" {
        exposed, localOnly := true, false;
      }
      var attachments, onDirect := ResolveAttachments(nets, c, byId, byName, direct);
      if onDirect {
        exposed, localOnly := true, false;
      }
      var flags: seq<string> := [];
      if exposed {
        flags := flags + ["exposed-public"];
      } else if localOnly {
        flags := flags + ["local-only"];
      }
      if !c.running {
        flags := flags + ["inactive"];
      }
      assert flags == ContainerFlags(nets, c);
      var block, seen', usage';
      ghost var srcs;
      block, seen', usage', srcs := ContainerEdges(node, nets, c, attachments, exposed, seen, usage);
      forall k | i < k < |cs|
        ensures FreshFor(seen', cs[k])
      {
        StaysFresh(seen, seen', c, cs[k]);
      }
      OneMoreContainer(node, nets, Included(cs[..i], all), c, srcs, nodes, edges, usage, usage', sources);
      nodes := nodes + [Node(ContainerId(c), ContainerNode, c.name, flags)];
      edges, seen, usage, sources := edges + block, seen', usage', sources + [srcs];
    }
    assert cs[..|cs|] == cs;
  }

  lemma FinishNext(node: string, nets: seq<Net>, n: Net, used: set<string>)
    ensures NetNodes(nets + [n], used) == NetNodes(nets, used) + [NetNode(n, used)]
    ensures HostEdges(node, nets + [n]) ==
      if n.internal then HostEdges(node, nets)
      else HostEdges(node, nets) + [Edge(HostId(node), NetId(n), HostNetwork, [])]
  {
    assert (nets + [n])[..|nets|] == nets;
  }

  /** One network node: flagged when unused, looked at for isolation. */
  method FinishNetwork(ghost n: Net, bare: Node, usage: map<string, nat>) returns (nd: Node, isIsolated: bool)
    requires bare == Node(NetId(n), NetworkNode, n.name, NetFlags(n))
    ensures nd == NetNode(n, usage.Keys) && isIsolated == n.internal
  {
    nd := bare;
    var systemByName := nd.title == "bridge" || nd.title == "host" || nd.title == "none"
      || nd.title == "docker_gwbridge" || nd.title == "ingress";
    isIsolated := "isolated" in nd.flags;
    assert n.internal ==> NetFlags(n)[0] == "isolated";
    if nd.id !in usage && !systemByName {
      nd := nd.(flags := nd.flags + ["unused"]);
    }
  }

  /** Marks the unused networks and hangs the others off the host. */
  method FinishNetworks(node: string, ghost nets: seq<Net>, bare: seq<Node>, usage: map<string, nat>)
    returns (nodes: seq<Node>, edges: seq<Edge>)
    requires bare == Bare(nets)
    ensures nodes == NetNodes(nets, usage.Keys) && edges == HostEdges(node, nets)
  {
    nodes, edges := [], [];
    for i := 0 to |bare|
      invariant nodes == NetNodes(nets[..i], usage.Keys) && edges == HostEdges(node, nets[..i])
    {
      ghost var n := nets[i];
      FinishNext(node, nets[..i], n, usage.Keys);
      assert nets[..i + 1] == nets[..i] + [n];
      var nd, isIsolated := FinishNetwork(n, bare[i], usage);
      nodes := nodes + [nd];
      if !isIsolated {
        edges := edges + [Edge(HostId(node), nd.id, HostNetwork, [])];
      }
    }
    assert nets[..|bare|] == nets;
  }

  /** `Topology`, on what the two listings returned. */
  method BuildTopology(node: string, nets: seq<Net>, cs: seq<Container>, all: bool)
    returns (t: Topology, ghost sources: seq<seq<string>>)
    requires DistinctContainers(cs) && forall c :: c in cs ==> NoBar(c.id)
    ensures AllOrders(sources, nets, Included(cs, all))
    ensures t == Graph(node, nets, Included(cs, all), sources)
    ensures DistinctNets(nets) ==> WellFormed(t)
  {
    var byId, byName, direct, bare := IndexNetworks(nets);
    var containerNodes, edges, usage;
    containerNodes, edges, usage, sources := BuildContainers(node, nets, cs, all, byId, byName, direct);
    var networkNodes, hostEdges := FinishNetworks(node, nets, bare, usage);
    var host := Node(HostId(node), HostNode, if node == "" then "host" else node, []);
    t := Topology([host] + networkNodes + containerNodes, edges + hostEdges);
    if DistinctNets(nets) {
      IncludedAreDistinct(cs, all);
      GraphIsWellFormed(node, nets, Included(cs, all), sources);
    }
  }
}
