/** What the nodes and edges of the graph tell about the host, in the words of Docker's own report. */
module TopologyPromises {
  import opened Wrappers
  import opened TopologySpec
  import opened TopologyLaws

  // ---------- attachments ----------

  /** The endpoint names a network by its id. */
  ghost predicate Known(nets: seq<Net>, id: string) { id != "" && exists n :: n in nets && n.id == id }

  /** The last network of that name. */
  ghost predicate LastNamed(nets: seq<Net>, name: string, i: int) {
    0 <= i < |nets| && nets[i].name == name && forall j :: i < j < |nets| ==> nets[j].name != name
  }

  /** An endpoint leads to a node by the id of its network, or else by the name it is listed under. */
  ghost predicate LeadsTo(nets: seq<Net>, name: string, endpoint: Option<string>, node: string) {
    && endpoint.Some?
    && if Known(nets, endpoint.value) then node == "net:" + endpoint.value
       else exists i :: LastNamed(nets, name, i) && node == "net:" + nets[i].id
  }

  /** It leads to some node. */
  ghost predicate Leads(nets: seq<Net>, name: string, endpoint: Option<string>) {
    endpoint.Some? && (Known(nets, endpoint.value) || exists n :: n in nets && n.name == name)
  }

  lemma {:induction false} ByNameIsLast(nets: seq<Net>, name: string)
    ensures name in ByName(nets) <==> exists i :: LastNamed(nets, name, i)
    ensures forall i :: LastNamed(nets, name, i) ==> name in ByName(nets) && ByName(nets)[name] == "net:" + nets[i].id
  {
    if nets != [] {
      var n := |nets| - 1;
      var front := nets[..n];
      ByNameIsLast(front, name);
      if nets[n].name == name {
        assert LastNamed(nets, name, n);
      } else {
        forall i
          ensures LastNamed(nets, name, i) <==> LastNamed(front, name, i)
        {
        }
      }
    }
  }

  lemma ResolvedMeans(nets: seq<Net>, name: string, endpoint: Option<string>, node: string)
    ensures Resolved(nets, name, endpoint) == Some(node) <==> LeadsTo(nets, name, endpoint, node)
  {
    ByNameIsLast(nets, name);
    if endpoint.Some? {
      var id := endpoint.value;
      assert id in ById(nets) <==> exists n :: n in nets && n.id == id;
    }
  }

  /** A container hangs off a network. */
  ghost predicate HangsOff(nets: seq<Net>, c: Container, node: string) {
    exists name :: name in c.networks && LeadsTo(nets, name, c.networks[name], node)
  }

  lemma AttachedMeans(nets: seq<Net>, c: Container, node: string)
    ensures node in Attached(nets, c) <==> HangsOff(nets, c, node)
  {
    forall name | name in c.networks
      ensures Resolved(nets, name, c.networks[name]) == Some(node) <==> LeadsTo(nets, name, c.networks[name], node)
    {
      ResolvedMeans(nets, name, c.networks[name], node);
    }
    if HangsOff(nets, c, node) {
      var name :| name in c.networks && LeadsTo(nets, name, c.networks[name], node);
      assert Resolved(nets, name, c.networks[name]) == Some(node);
    }
  }

  /** The network-container edges: one for each included container and network it hangs off. */
  lemma PairsMean(node: string, nets: seq<Net>, cs: seq<Container>, sources: seq<seq<string>>, e: Edge)
    requires AllOrders(sources, nets, cs)
    ensures e in Graph(node, nets, cs, sources).edges && e.kind == NetworkContainer <==>
      exists k :: 0 <= k < |cs| && HangsOff(nets, cs[k], e.source)
        && e == Edge(e.source, "ct:" + cs[k].id, NetworkContainer, [])
  {
    PairsAreAttachments(node, nets, cs, sources, e);
    forall k | 0 <= k < |cs|
      ensures Attaches(nets, cs[k], e) <==>
        HangsOff(nets, cs[k], e.source) && e == Edge(e.source, "ct:" + cs[k].id, NetworkContainer, [])
    {
      AttachedMeans(nets, cs[k], e.source);
    }
  }

  // ---------- exposure ----------

  ghost predicate Loopback(ip: string) { ip == "::1" || (|ip| >= 4 && ip[..4] == "127.") }

  ghost predicate OnTheWire(driver: string) { driver in {"macvlan", "ipvlan", "host"} }

  /** A published port that is bound beyond loopback. */
  ghost predicate BoundWide(c: Container) { exists p :: p in c.ports && p.public != 0 && !Loopback(p.ip) }

  ghost predicate PublishesAny(c: Container) { exists p :: p in c.ports && p.public != 0 }

  /** An endpoint on a network that puts its containers on the wire. */
  ghost predicate WiredEndpoint(nets: seq<Net>, c: Container) {
    exists name :: name in c.networks && c.networks[name].Some?
      && (exists n :: n in nets && n.id == c.networks[name].value && OnTheWire(n.driver))
      && Leads(nets, name, c.networks[name])
  }

  /** A container can be reached from outside. */
  ghost predicate Reachable(nets: seq<Net>, c: Container) {
    BoundWide(c) || c.networkMode == "host" || WiredEndpoint(nets, c)
  }

  lemma WideMeans(c: Container)
    ensures PublishedWide(c.ports) <==> BoundWide(c)
    ensures PublishedLocally(c.ports) <==> PublishesAny(c) && !BoundWide(c)
  {
    forall p | p in c.ports
      ensures IsLoopback(p.ip) <==> Loopback(p.ip)
    {
    }
    if PublishedWide(c.ports) {
      var p :| p in c.ports && Published(p) && !IsLoopback(p.ip);
      assert p.public != 0 && !Loopback(p.ip);
    }
    if BoundWide(c) {
      var p :| p in c.ports && p.public != 0 && !Loopback(p.ip);
      assert Published(p) && !IsLoopback(p.ip);
    }
    if PublishesAny(c) {
      var p :| p in c.ports && p.public != 0;
      assert Published(p);
    }
  }

  lemma WiredMeans(nets: seq<Net>, c: Container)
    ensures OnDirectNet(nets, c) <==> WiredEndpoint(nets, c)
  {
    forall name | name in c.networks && c.networks[name].Some?
      ensures Resolved(nets, name, c.networks[name]).Some? <==> Leads(nets, name, c.networks[name])
      ensures c.networks[name].value in DirectIds(nets) <==>
        exists n :: n in nets && n.id == c.networks[name].value && OnTheWire(n.driver)
    {
      LeadsMeans(nets, name, c.networks[name]);
      DirectMeans(nets, c.networks[name].value);
    }
    if OnDirectNet(nets, c) {
      var name :| name in c.networks && Resolved(nets, name, c.networks[name]).Some?
        && c.networks[name].value in DirectIds(nets);
      assert c.networks[name].Some?;
    }
  }

  lemma LeadsMeans(nets: seq<Net>, name: string, endpoint: Option<string>)
    ensures Resolved(nets, name, endpoint).Some? <==> Leads(nets, name, endpoint)
  {
    ByNameExists(nets, name);
    assert endpoint.Some? ==> (Known(nets, endpoint.value) <==> endpoint.value != "" && endpoint.value in ById(nets));
  }

  lemma DirectMeans(nets: seq<Net>, id: string)
    ensures id in DirectIds(nets) <==> exists n :: n in nets && n.id == id && OnTheWire(n.driver)
  {
    if id in DirectIds(nets) {
      var n :| n in nets && DirectDriver(n.driver) && n.id == id;
      assert OnTheWire(n.driver);
    }
    if n :| n in nets && n.id == id && OnTheWire(n.driver) {
      assert DirectDriver(n.driver);
    }
  }

  lemma ReachableMeans(nets: seq<Net>, c: Container)
    ensures Exposed(nets, c) <==> Reachable(nets, c)
  {
    WideMeans(c);
    WiredMeans(nets, c);
  }

  // ---------- nodes ----------

  /** The node of a container: its name, whether it can be reached from outside, only from the host
      itself, and whether it runs. */
  lemma ContainerNodeTells(node: string, nets: seq<Net>, cs: seq<Container>, sources: seq<seq<string>>, k: nat)
    requires |sources| == |cs| && k < |cs|
    ensures |Graph(node, nets, cs, sources).nodes| == 1 + |nets| + |cs|
    ensures var n, c := Graph(node, nets, cs, sources).nodes[1 + |nets| + k], cs[k];
      && n.kind == ContainerNode && n.id == "ct:" + c.id && n.title == c.name
      && ("exposed-public" in n.flags <==> Reachable(nets, c))
      && ("local-only" in n.flags <==> !Reachable(nets, c) && PublishesAny(c) && !BoundWide(c))
      && ("inactive" in n.flags <==> !c.running)
  {
    var c := cs[k];
    assert Graph(node, nets, cs, sources).nodes[1 + |nets| + k] == ContainerNodeOf(nets, c);
    ReachableMeans(nets, c);
    WideMeans(c);
  }

  /** The node of a network: its name, and what its flags say about it. */
  lemma NetworkNodeTells(node: string, nets: seq<Net>, cs: seq<Container>, sources: seq<seq<string>>, i: nat)
    requires AllOrders(sources, nets, cs) && i < |nets|
    ensures |Graph(node, nets, cs, sources).nodes| == 1 + |nets| + |cs|
    ensures var n, net := Graph(node, nets, cs, sources).nodes[1 + i], nets[i];
      && n.kind == NetworkNode && n.id == "net:" + net.id && n.title == net.name
      && ("isolated" in n.flags <==> net.internal) && ("ingress" in n.flags <==> net.ingress)
      && ("exposed-direct" in n.flags <==> OnTheWire(net.driver))
      && ("unused" in n.flags <==>
           && net.name !in {"bridge", "host", "none", "docker_gwbridge", "ingress"}
           && forall k :: 0 <= k < |cs| ==> !HangsOff(nets, cs[k], n.id))
  {
    assert Graph(node, nets, cs, sources).nodes[1 + i] == NetNode(nets[i], Used(nets, cs));
    FlagsMean(nets[i], Used(nets, cs));
    UsedMeans(nets, cs, "net:" + nets[i].id);
  }

  lemma FlagsMean(net: Net, used: set<string>)
    ensures var flags := NetNode(net, used).flags;
      && ("isolated" in flags <==> net.internal) && ("ingress" in flags <==> net.ingress)
      && ("exposed-direct" in flags <==> OnTheWire(net.driver))
      && ("unused" in flags <==>
           net.name !in {"bridge", "host", "none", "docker_gwbridge", "ingress"} && "net:" + net.id !in used)
  {
  }

  lemma UsedMeans(nets: seq<Net>, cs: seq<Container>, id: string)
    ensures id in Used(nets, cs) <==> exists k :: 0 <= k < |cs| && HangsOff(nets, cs[k], id)
  {
    forall k | 0 <= k < |cs|
      ensures id in Attached(nets, cs[k]) <==> HangsOff(nets, cs[k], id)
    {
      AttachedMeans(nets, cs[k], id);
    }
    if id in Used(nets, cs) {
      var c :| c in cs && id in Attached(nets, c);
      var k :| 0 <= k < |cs| && cs[k] == c;
      assert HangsOff(nets, cs[k], id);
    }
    if k :| 0 <= k < |cs| && HangsOff(nets, cs[k], id) {
      assert cs[k] in cs && id in Attached(nets, cs[k]);
    }
  }

  lemma HostNodeTells(node: string, nets: seq<Net>, cs: seq<Container>, sources: seq<seq<string>>)
    requires |sources| == |cs|
    ensures Graph(node, nets, cs, sources).nodes != []
    ensures var n := Graph(node, nets, cs, sources).nodes[0];
      n.kind == HostNode && n.id == "host:" + node && n.title == if node == "" then "host" else node
  {
  }

  // ---------- edges of the host ----------

  /** The host has an edge to each network that is not isolated, and to no other. */
  lemma HostNetworksTell(node: string, nets: seq<Net>, cs: seq<Container>, sources: seq<seq<string>>, e: Edge)
    requires |sources| == |cs|
    ensures e in Graph(node, nets, cs, sources).edges && e.kind == HostNetwork <==>
      exists n :: n in nets && !n.internal && e == Edge("host:" + node, "net:" + n.id, HostNetwork, [])
  {
    HostEdgesHold(node, nets, e);
    BlocksHold(node, nets, cs, sources, e);
  }

  /** The host has an edge to each container that is attached to nothing or can be reached from outside,
      flagged in the second case. */
  lemma HostContainersTell(node: string, nets: seq<Net>, cs: seq<Container>, sources: seq<seq<string>>, e: Edge)
    requires AllOrders(sources, nets, cs)
    ensures e in Graph(node, nets, cs, sources).edges && e.kind == HostContainer <==>
      exists k :: 0 <= k < |cs| && HasHostLine(nets, cs[k]) && e == HostLine(node, nets, cs[k])
  {
    HostEdgesKind(node, nets);
    BlocksHold(node, nets, cs, sources, e);
    forall k | 0 <= k < |cs|
      ensures e in Block(node, nets, cs[k], sources[k]) && e.kind == HostContainer <==>
        HasHostLine(nets, cs[k]) && e == HostLine(node, nets, cs[k])
    {
      BlockTells(node, nets, cs[k], sources[k], e);
    }
  }

  ghost function HostLine(node: string, nets: seq<Net>, c: Container): Edge {
    Edge("host:" + node, "ct:" + c.id, HostContainer, if Reachable(nets, c) then ["exposed"] else [])
  }

  ghost predicate HasHostLine(nets: seq<Net>, c: Container) {
    Reachable(nets, c) || forall name :: name in c.networks ==> !Leads(nets, name, c.networks[name])
  }

  lemma BlockTells(node: string, nets: seq<Net>, c: Container, sources: seq<string>, e: Edge)
    requires Orders(sources, nets, c)
    ensures e in Block(node, nets, c, sources) && e.kind == HostContainer <==>
      HasHostLine(nets, c) && e == HostLine(node, nets, c)
  {
    ReachableMeans(nets, c);
    NothingAttached(nets, c);
    assert sources == [] <==> Attached(nets, c) == {} by {
      if sources != [] { assert sources[0] in Attached(nets, c); }
    }
    assert forall x :: x in NetEdges(sources, c) ==> x.kind == NetworkContainer;
  }

  lemma NothingAttached(nets: seq<Net>, c: Container)
    ensures Attached(nets, c) == {} <==> forall name :: name in c.networks ==> !Leads(nets, name, c.networks[name])
  {
    forall name | name in c.networks
      ensures Leads(nets, name, c.networks[name]) <==> Resolved(nets, name, c.networks[name]).Some?
    {
      LeadsMeans(nets, name, c.networks[name]);
    }
    if name :| name in c.networks && Resolved(nets, name, c.networks[name]).Some? {
      assert Resolved(nets, name, c.networks[name]).value in Attached(nets, c);
    }
  }

  lemma {:induction false} ByNameExists(nets: seq<Net>, name: string)
    ensures name in ByName(nets) <==> exists n :: n in nets && n.name == name
  {
    if nets != [] {
      var front, last := nets[..|nets| - 1], nets[|nets| - 1];
      ByNameExists(front, name);
      assert nets == front + [last];
    }
  }

  // ---------- which containers ----------

  /** All containers, or those that run, in the order of the report. */
  lemma {:induction false} IncludedMeans(cs: seq<Container>, all: bool) returns (at: seq<nat>)
    ensures |at| == |Included(cs, all)|
    ensures forall k :: 0 <= k < |at| ==> at[k] < |cs| && Included(cs, all)[k] == cs[at[k]]
    ensures forall j, k :: 0 <= j < k < |at| ==> at[j] < at[k]
    ensures forall i :: 0 <= i < |cs| ==> (i in at <==> all || cs[i].running)
  {
    at := [];
    if cs != [] {
      var n := |cs| - 1;
      at := IncludedMeans(cs[..n], all);
      assert forall i :: 0 <= i < n ==> cs[..n][i] == cs[i];
      if all || cs[n].running { at := at + [n]; }
    }
  }
}
