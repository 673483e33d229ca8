/** The graph is well formed, and its flags tell the truth about its edges. */
module TopologyLaws {
  import opened TopologySpec

  lemma IdsTellKinds(a: string, b: string)
    ensures "host:" + a != "net:" + b && "host:" + a != "ct:" + b && "net:" + a != "ct:" + b
    ensures "net:" + a == "net:" + b ==> a == b
    ensures "ct:" + a == "ct:" + b ==> a == b
  {
    assert ("host:" + a)[0] == 'h' && ("net:" + b)[0] == 'n' && ("ct:" + b)[0] == 'c' && ("net:" + a)[0] == 'n';
    assert ("net:" + a)[4..] == a && ("net:" + b)[4..] == b && ("ct:" + a)[3..] == a && ("ct:" + b)[3..] == b;
  }

  predicate UniqueIds(nodes: seq<Node>) { forall i, j :: 0 <= i < j < |nodes| ==> nodes[i].id != nodes[j].id }

  lemma NodeIdsAreUnique(node: string, nets: seq<Net>, cs: seq<Container>, sources: seq<seq<string>>)
    requires DistinctNets(nets) && DistinctContainers(cs) && |sources| == |cs|
    ensures UniqueIds(Graph(node, nets, cs, sources).nodes)
  {
    var nodes := Graph(node, nets, cs, sources).nodes;
    forall i, j | 0 <= i < j < |nodes|
      ensures nodes[i].id != nodes[j].id
    {
      NodeIdAt(node, nets, cs, sources, i);
      NodeIdAt(node, nets, cs, sources, j);
      IdsTellKinds(PlainId(node, nets, cs, i), PlainId(node, nets, cs, j));
    }
  }

  /** The id behind the prefix of a node. */
  function PlainId(node: string, nets: seq<Net>, cs: seq<Container>, i: nat): string
    requires i < 1 + |nets| + |cs|
  {
    if i == 0 then node else if i <= |nets| then nets[i - 1].id else cs[i - 1 - |nets|].id
  }

  lemma NodeIdAt(node: string, nets: seq<Net>, cs: seq<Container>, sources: seq<seq<string>>, i: nat)
    requires |sources| == |cs| && i < 1 + |nets| + |cs|
    ensures |Graph(node, nets, cs, sources).nodes| == 1 + |nets| + |cs|
    ensures Graph(node, nets, cs, sources).nodes[i].id ==
      (if i == 0 then "host:" else if i <= |nets| then "net:" else "ct:") + PlainId(node, nets, cs, i)
  {
  }

  lemma {:induction false} ByNameFinds(nets: seq<Net>)
    ensures forall name :: name in ByName(nets) ==> ByName(nets)[name] in NetIds(nets)
  {
    if nets != [] {
      ByNameFinds(nets[..|nets| - 1]);
      assert forall n :: n in nets[..|nets| - 1] ==> n in nets;
    }
  }

  lemma AttachedToNets(nets: seq<Net>, c: Container)
    ensures Attached(nets, c) <= NetIds(nets)
  {
    ByNameFinds(nets);
  }

  /** An edge of the containers belongs to one of them. */
  lemma {:induction false} BlocksHold(node: string, nets: seq<Net>, cs: seq<Container>,
                                      sources: seq<seq<string>>, e: Edge)
    requires |sources| == |cs|
    ensures e in Blocks(node, nets, cs, sources) <==>
      exists k :: 0 <= k < |cs| && e in Block(node, nets, cs[k], sources[k])
  {
    if cs != [] {
      var n := |cs| - 1;
      var front, last := Blocks(node, nets, cs[..n], sources[..n]), Block(node, nets, cs[n], sources[n]);
      assert Blocks(node, nets, cs, sources) == front + last;
      BlocksHold(node, nets, cs[..n], sources[..n], e);
      assert forall k :: 0 <= k < n ==> cs[..n][k] == cs[k] && sources[..n][k] == sources[k];
      assert e in front + last <==> e in front || e in last;
    }
  }

  lemma {:induction false} HostEdgesHold(node: string, nets: seq<Net>, e: Edge)
    ensures e in HostEdges(node, nets) <==>
      exists n :: n in nets && !n.internal && e == Edge(HostId(node), NetId(n), HostNetwork, [])
  {
    if nets != [] {
      var front, last := nets[..|nets| - 1], nets[|nets| - 1];
      HostEdgesHold(node, front, e);
      assert nets == front + [last];
    }
  }

  predicate HasNode(t: Topology, id: string) { exists n :: n in t.nodes && n.id == id }

  lemma NodesAreThere(node: string, nets: seq<Net>, cs: seq<Container>, sources: seq<seq<string>>)
    requires |sources| == |cs|
    ensures var t := Graph(node, nets, cs, sources);
      && HasNode(t, HostId(node))
      && (forall n :: n in nets ==> HasNode(t, NetId(n)))
      && (forall c :: c in cs ==> HasNode(t, ContainerId(c)))
  {
    var t := Graph(node, nets, cs, sources);
    assert t.nodes[0].id == HostId(node);
    forall n | n in nets
      ensures HasNode(t, NetId(n))
    {
      var i :| 0 <= i < |nets| && nets[i] == n;
      assert t.nodes[1 + i].id == NetId(n);
    }
    forall c | c in cs
      ensures HasNode(t, ContainerId(c))
    {
      var i :| 0 <= i < |cs| && cs[i] == c;
      assert t.nodes[1 + |nets| + i].id == ContainerId(c);
    }
  }

  lemma EdgesJoinNodes(node: string, nets: seq<Net>, cs: seq<Container>, sources: seq<seq<string>>, e: Edge)
    requires AllOrders(sources, nets, cs) && e in Graph(node, nets, cs, sources).edges
    ensures HasNode(Graph(node, nets, cs, sources), e.source) && HasNode(Graph(node, nets, cs, sources), e.target)
  {
    NodesAreThere(node, nets, cs, sources);
    if e in HostEdges(node, nets) {
      HostEdgesHold(node, nets, e);
    } else {
      BlocksHold(node, nets, cs, sources, e);
      var k :| 0 <= k < |cs| && e in Block(node, nets, cs[k], sources[k]);
      AttachedToNets(nets, cs[k]);
      assert cs[k] in cs;
      if e.kind == NetworkContainer {
        assert e.source in sources[k];
        var n :| n in nets && NetId(n) == e.source;
      }
    }
  }

  // ---------- pairs ----------

  predicate NoPairTwice(edges: seq<Edge>) {
    forall i, j :: 0 <= i < j < |edges| && edges[i].kind == NetworkContainer && edges[j].kind == NetworkContainer ==>
      edges[i].source != edges[j].source || edges[i].target != edges[j].target
  }

  lemma BlocksTarget(node: string, nets: seq<Net>, cs: seq<Container>, sources: seq<seq<string>>, e: Edge)
    requires |sources| == |cs| && e in Blocks(node, nets, cs, sources)
    ensures exists k :: 0 <= k < |cs| && e.target == ContainerId(cs[k])
  {
    BlocksHold(node, nets, cs, sources, e);
  }

  lemma {:induction false} BlocksRepeatNoPair(node: string, nets: seq<Net>, cs: seq<Container>,
                                              sources: seq<seq<string>>)
    requires AllOrders(sources, nets, cs) && DistinctContainers(cs)
    ensures NoPairTwice(Blocks(node, nets, cs, sources))
  {
    if cs != [] {
      var n := |cs| - 1;
      var front, last := Blocks(node, nets, cs[..n], sources[..n]), Block(node, nets, cs[n], sources[n]);
      BlocksRepeatNoPair(node, nets, cs[..n], sources[..n]);
      forall e | e in front
        ensures e.target != ContainerId(cs[n])
      {
        BlocksTarget(node, nets, cs[..n], sources[..n], e);
        var k :| 0 <= k < n && e.target == ContainerId(cs[..n][k]);
        IdsTellKinds(cs[k].id, cs[n].id);
      }
      assert NoPairTwice(last);
      forall i, j | 0 <= i < j < |front + last| && i < |front| <= j
        ensures (front + last)[i].target != (front + last)[j].target
      {
        assert front[i] in front;
      }
    }
  }

  lemma {:induction false} HostEdgesKind(node: string, nets: seq<Net>)
    ensures forall e :: e in HostEdges(node, nets) ==> e.kind == HostNetwork
  {
    if nets != [] { HostEdgesKind(node, nets[..|nets| - 1]); }
  }

  lemma NoPairRepeats(node: string, nets: seq<Net>, cs: seq<Container>, sources: seq<seq<string>>)
    requires AllOrders(sources, nets, cs) && DistinctContainers(cs)
    ensures NoPairTwice(Graph(node, nets, cs, sources).edges)
  {
    BlocksRepeatNoPair(node, nets, cs, sources);
    HostEdgesKind(node, nets);
    var front, last := Blocks(node, nets, cs, sources), HostEdges(node, nets);
    assert forall j :: 0 <= j < |last| ==> last[j] in last;
  }

  // ---------- what the flags mean ----------

  /** An edge joins a container and a network it is attached to. */
  predicate Attaches(nets: seq<Net>, c: Container, e: Edge) {
    e.source in Attached(nets, c) && e == Edge(e.source, ContainerId(c), NetworkContainer, [])
  }

  /** The pairs of the graph are exactly the attachments. */
  lemma PairsAreAttachments(node: string, nets: seq<Net>, cs: seq<Container>, sources: seq<seq<string>>, e: Edge)
    requires AllOrders(sources, nets, cs)
    ensures e in Graph(node, nets, cs, sources).edges && e.kind == NetworkContainer <==>
      exists k :: 0 <= k < |cs| && Attaches(nets, cs[k], e)
  {
    BlocksHold(node, nets, cs, sources, e);
    HostEdgesKind(node, nets);
    if k :| 0 <= k < |cs| && Attaches(nets, cs[k], e) {
      assert e.source in sources[k];
      var i :| 0 <= i < |sources[k]| && sources[k][i] == e.source;
      assert NetEdges(sources[k], cs[k])[i] == e;
      assert e in Block(node, nets, cs[k], sources[k]);
    }
  }

  predicate Feeds(t: Topology, id: string) { exists e :: e in t.edges && e.kind == NetworkContainer && e.source == id }

  /** A network is flagged as unused if and only if no container hangs off it, system networks aside. */
  lemma UnusedMeansNoContainer(node: string, nets: seq<Net>, cs: seq<Container>, sources: seq<seq<string>>, i: nat)
    requires AllOrders(sources, nets, cs) && i < |nets|
    ensures var t := Graph(node, nets, cs, sources); var n := t.nodes[1 + i];
      && n.id == NetId(nets[i]) && n.kind == NetworkNode
      && ("unused" in n.flags <==> !SystemName(n.title) && !Feeds(t, n.id))
  {
    var t, id := Graph(node, nets, cs, sources), NetId(nets[i]);
    assert t.nodes[1 + i] == NetNode(nets[i], Used(nets, cs));
    if Feeds(t, id) {
      var e :| e in t.edges && e.kind == NetworkContainer && e.source == id;
      PairsAreAttachments(node, nets, cs, sources, e);
      var k :| 0 <= k < |cs| && e.source in Attached(nets, cs[k]);
      assert cs[k] in cs && id in Used(nets, cs);
    }
    if id in Used(nets, cs) {
      var c :| c in cs && id in Attached(nets, c);
      var k :| 0 <= k < |cs| && cs[k] == c;
      var e := Edge(id, ContainerId(c), NetworkContainer, []);
      PairsAreAttachments(node, nets, cs, sources, e);
      assert e in t.edges;
    }
  }

  /** A red line from the host to a container. */
  predicate RedLine(e: Edge, id: string) { e.kind == HostContainer && e.target == id && "exposed" in e.flags }

  function RedLines(edges: seq<Edge>, id: string): nat {
    if edges == [] then 0
    else RedLines(edges[..|edges| - 1], id) + if RedLine(edges[|edges| - 1], id) then 1 else 0
  }

  lemma {:induction false} JoinRedLines(a: seq<Edge>, b: seq<Edge>, id: string)
    ensures RedLines(a + b, id) == RedLines(a, id) + RedLines(b, id)
  {
    if b == [] {
      assert a + b == a;
    } else {
      var front := b[..|b| - 1];
      JoinRedLines(a, front, id);
      assert (a + b)[..|a + b| - 1] == a + front;
    }
  }

  lemma {:induction false} NoRedLines(edges: seq<Edge>, id: string)
    requires forall e :: e in edges ==> !RedLine(e, id)
    ensures RedLines(edges, id) == 0
  {
    if edges != [] {
      assert edges[|edges| - 1] in edges;
      NoRedLines(edges[..|edges| - 1], id);
    }
  }

  lemma BlockRedLines(node: string, nets: seq<Net>, c: Container, sources: seq<string>, id: string)
    ensures RedLines(Block(node, nets, c, sources), id) == if id == ContainerId(c) && Exposed(nets, c) then 1 else 0
  {
    var e := HostEdge(node, c, Exposed(nets, c));
    NoRedLines(NetEdges(sources, c), id);
    JoinRedLines(NetEdges(sources, c), [e], id);
    assert [e][..0] == [];
    assert NetEdges(sources, c) + [] == NetEdges(sources, c);
    assert RedLine(e, id) <==> id == ContainerId(c) && Exposed(nets, c);
  }

  lemma {:induction false} BlocksRedLines(node: string, nets: seq<Net>, cs: seq<Container>,
                                          sources: seq<seq<string>>, k: nat)
    requires |sources| == |cs| && DistinctContainers(cs) && k < |cs|
    ensures RedLines(Blocks(node, nets, cs, sources), ContainerId(cs[k])) == if Exposed(nets, cs[k]) then 1 else 0
  {
    var n, id := |cs| - 1, ContainerId(cs[k]);
    var front, last := Blocks(node, nets, cs[..n], sources[..n]), Block(node, nets, cs[n], sources[n]);
    JoinRedLines(front, last, id);
    BlockRedLines(node, nets, cs[n], sources[n], id);
    IdsTellKinds(cs[k].id, cs[n].id);
    if k < n {
      BlocksRedLines(node, nets, cs[..n], sources[..n], k);
    } else {
      OthersRedLines(node, nets, cs[..n], sources[..n], cs[n]);
    }
  }

  lemma OthersRedLines(node: string, nets: seq<Net>, cs: seq<Container>, sources: seq<seq<string>>, c: Container)
    requires |sources| == |cs| && forall d :: d in cs ==> d.id != c.id
    ensures RedLines(Blocks(node, nets, cs, sources), ContainerId(c)) == 0
  {
    forall e | e in Blocks(node, nets, cs, sources)
      ensures !RedLine(e, ContainerId(c))
    {
      BlocksTarget(node, nets, cs, sources, e);
      var k :| 0 <= k < |cs| && e.target == ContainerId(cs[k]);
      IdsTellKinds(cs[k].id, c.id);
    }
    NoRedLines(Blocks(node, nets, cs, sources), ContainerId(c));
  }

  /** A container is flagged as exposed if and only if exactly one red line leads to it; otherwise
      none does. */
  lemma ExposedMeansOneRedLine(node: string, nets: seq<Net>, cs: seq<Container>, sources: seq<seq<string>>, k: nat)
    requires |sources| == |cs| && DistinctContainers(cs) && k < |cs|
    ensures var t := Graph(node, nets, cs, sources); var n := t.nodes[1 + |nets| + k];
      && n.id == ContainerId(cs[k]) && n.kind == ContainerNode
      && ("exposed-public" in n.flags <==> RedLines(t.edges, n.id) == 1)
      && ("exposed-public" !in n.flags <==> RedLines(t.edges, n.id) == 0)
  {
    var t, c := Graph(node, nets, cs, sources), cs[k];
    assert t.nodes[1 + |nets| + k] == ContainerNodeOf(nets, c);
    BlocksRedLines(node, nets, cs, sources, k);
    HostEdgesKind(node, nets);
    NoRedLines(HostEdges(node, nets), ContainerId(c));
    JoinRedLines(Blocks(node, nets, cs, sources), HostEdges(node, nets), ContainerId(c));
  }

  // ---------- the whole ----------

  predicate EdgesJoin(t: Topology) { forall e :: e in t.edges ==> HasNode(t, e.source) && HasNode(t, e.target) }

  predicate UnusedIsRight(t: Topology) {
    forall n :: n in t.nodes && n.kind == NetworkNode ==>
      ("unused" in n.flags <==> !SystemName(n.title) && !Feeds(t, n.id))
  }

  predicate ExposedIsRight(t: Topology) {
    forall n :: n in t.nodes && n.kind == ContainerNode ==>
      RedLines(t.edges, n.id) == if "exposed-public" in n.flags then 1 else 0
  }

  predicate WellFormed(t: Topology) {
    UniqueIds(t.nodes) && EdgesJoin(t) && NoPairTwice(t.edges) && UnusedIsRight(t) && ExposedIsRight(t)
  }

  lemma {:induction false} IncludedAreDistinct(cs: seq<Container>, all: bool)
    requires DistinctContainers(cs)
    ensures DistinctContainers(Included(cs, all)) && forall c :: c in Included(cs, all) ==> c in cs
  {
    if cs != [] {
      var front, last := cs[..|cs| - 1], cs[|cs| - 1];
      assert cs == front + [last];
      IncludedAreDistinct(front, all);
      var l := Included(front, all);
      forall i | 0 <= i < |l|
        ensures l[i].id != last.id
      {
        assert l[i] in front;
      }
    }
  }

  /** Which part of the nodes a node is in. */
  lemma Places(node: string, nets: seq<Net>, cs: seq<Container>, sources: seq<seq<string>>, n: Node) returns (i: nat)
    requires |sources| == |cs| && n in Graph(node, nets, cs, sources).nodes
    ensures n.kind == NetworkNode ==> i < |nets| && Graph(node, nets, cs, sources).nodes[1 + i] == n
    ensures n.kind == ContainerNode ==> i < |cs| && Graph(node, nets, cs, sources).nodes[1 + |nets| + i] == n
  {
    var nodes := Graph(node, nets, cs, sources).nodes;
    var at :| 0 <= at < |nodes| && nodes[at] == n;
    i := if at == 0 then 0 else if at <= |nets| then at - 1 else at - 1 - |nets|;
  }

  lemma GraphUnusedIsRight(node: string, nets: seq<Net>, cs: seq<Container>, sources: seq<seq<string>>)
    requires AllOrders(sources, nets, cs)
    ensures UnusedIsRight(Graph(node, nets, cs, sources))
  {
    var t := Graph(node, nets, cs, sources);
    forall n | n in t.nodes && n.kind == NetworkNode
      ensures "unused" in n.flags <==> !SystemName(n.title) && !Feeds(t, n.id)
    {
      var i := Places(node, nets, cs, sources, n);
      UnusedMeansNoContainer(node, nets, cs, sources, i);
    }
  }

  lemma GraphExposedIsRight(node: string, nets: seq<Net>, cs: seq<Container>, sources: seq<seq<string>>)
    requires |sources| == |cs| && DistinctContainers(cs)
    ensures ExposedIsRight(Graph(node, nets, cs, sources))
  {
    var t := Graph(node, nets, cs, sources);
    forall n | n in t.nodes && n.kind == ContainerNode
      ensures RedLines(t.edges, n.id) == if "exposed-public" in n.flags then 1 else 0
    {
      var i := Places(node, nets, cs, sources, n);
      ExposedMeansOneRedLine(node, nets, cs, sources, i);
    }
  }

  lemma GraphIsWellFormed(node: string, nets: seq<Net>, cs: seq<Container>, sources: seq<seq<string>>)
    requires DistinctNets(nets) && DistinctContainers(cs) && AllOrders(sources, nets, cs)
    ensures WellFormed(Graph(node, nets, cs, sources))
  {
    var t := Graph(node, nets, cs, sources);
    NodeIdsAreUnique(node, nets, cs, sources);
    NoPairRepeats(node, nets, cs, sources);
    GraphUnusedIsRight(node, nets, cs, sources);
    GraphExposedIsRight(node, nets, cs, sources);
    forall e | e in t.edges
      ensures HasNode(t, e.source) && HasNode(t, e.target)
    {
      EdgesJoinNodes(node, nets, cs, sources, e);
    }
  }
}
