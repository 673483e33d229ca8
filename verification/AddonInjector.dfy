/** The wizard save and its reverse parser, editing YAML nodes in place. Each method is
    tied to the tree function of the same name in AddonSpec. */
module AddonInjector {
  import opened Wrappers
  import opened Text
  import opened YamlTree
  import opened YamlNode
  import opened AddonSpec
  import opened LabelLaws
  import opened DocumentLaws

  // ---------- one labels node ----------

  method HasAnyPrefix(s: string, prefixes: seq<string>) returns (found: bool)
    ensures found <==> Owned(s, prefixes)
  {
    for i := 0 to |prefixes|
      invariant forall j :: 0 <= j < i ==> !(prefixes[j] <= s)
    {
      if prefixes[i] <= s {
        assert prefixes[i] in prefixes;
        return true;
      }
    }
    return false;
  }

  lemma KeepEntriesSnoc(es: seq<Entry>, i: nat, prefixes: seq<string>)
    requires i < |es|
    ensures KeepEntries(es[..i + 1], prefixes)
         == if Owned(Value(es[i].key), prefixes) then KeepEntries(es[..i], prefixes)
            else KeepEntries(es[..i], prefixes) + [es[i]]
  {
    assert es[..i + 1] == es[..i] + [es[i]];
    KeepEntriesConcat(es[..i], [es[i]], prefixes);
  }

  lemma KeepItemsSnoc(ts: seq<Tree>, i: nat, prefixes: seq<string>)
    requires i < |ts|
    ensures KeepItems(ts[..i + 1], prefixes)
         == if Owned(SplitLabel(ts[i]).0, prefixes) then KeepItems(ts[..i], prefixes)
            else KeepItems(ts[..i], prefixes) + [ts[i]]
  {
    assert ts[..i + 1] == ts[..i] + [ts[i]];
    KeepItemsConcat(ts[..i], [ts[i]], prefixes);
  }

  /** `splitSeqLabel` */
  method SplitSeqLabel(item: Node) returns (key: string, value: string)
    requires item.Valid()
    ensures (key, value) == SplitLabel(item.View())
  {
    if item.kind != ScalarNode {
      return "", "";
    }
    var eq := IndexOf(item.value, '=');
    if eq < |item.value| {
      return item.value[..eq], item.value[eq + 1..];
    }
    return item.value, "";
  }

  /** `picked` selects `kept` from the first `bound` of `content`, in order. */
  ghost predicate Selects(picked: seq<int>, bound: nat, kept: seq<Node>, content: seq<Node>) {
    && bound <= |content| && |picked| == |kept|
    && (forall i :: 0 <= i < |picked| ==> 0 <= picked[i] < bound && kept[i] == content[picked[i]])
    && (forall i, j :: 0 <= i < j < |picked| ==> picked[i] < picked[j])
  }

  ghost function Select(picked: seq<int>, views: seq<Tree>): (r: seq<Tree>)
    requires forall i :: 0 <= i < |picked| ==> 0 <= picked[i] < |views|
    ensures |r| == |picked|
    ensures forall i :: 0 <= i < |r| ==> r[i] == views[picked[i]]
  {
    seq(|picked|, i requires 0 <= i < |picked| => views[picked[i]])
  }

  /** What the loop over a mapping has picked after pair `at`. */
  lemma PickPair(picked: seq<int>, at: nat, kept: seq<Node>, content: seq<Node>) returns (more: seq<int>)
    requires Selects(picked, 2 * at, kept, content) && 2 * at + 1 < |content|
    ensures Selects(picked, 2 * at + 2, kept, content)
    ensures more == picked + [2 * at, 2 * at + 1]
    ensures Selects(more, 2 * at + 2, kept + [content[2 * at], content[2 * at + 1]], content)
  {
    more := picked + [2 * at, 2 * at + 1];
  }

  lemma PickedPair(picked: seq<int>, more: seq<int>, at: nat, views: seq<Tree>, prefixes: seq<string>)
    requires 2 * at + 1 < |views| && |picked| % 2 == 0 && more == picked + [2 * at, 2 * at + 1]
    requires forall i :: 0 <= i < |picked| ==> 0 <= picked[i] < |views|
    requires Pairs(Select(picked, views)) == KeepEntries(Pairs(views)[..at], prefixes)
    ensures Owned(Value(Pairs(views)[at].key), prefixes) ==>
      Pairs(Select(picked, views)) == KeepEntries(Pairs(views)[..at + 1], prefixes)
    ensures !Owned(Value(Pairs(views)[at].key), prefixes) ==>
      Pairs(Select(more, views)) == KeepEntries(Pairs(views)[..at + 1], prefixes)
  {
    var es, kept := Pairs(views), Select(picked, views);
    KeepEntriesSnoc(es, at, prefixes);
    PairsAppend(kept, views[2 * at], views[2 * at + 1]);
    SelectMore(picked, more, at, views);
    assert es[at] == Entry(views[2 * at], views[2 * at + 1]);
  }

  lemma SelectMore(picked: seq<int>, more: seq<int>, at: nat, views: seq<Tree>)
    requires 2 * at + 1 < |views| && more == picked + [2 * at, 2 * at + 1]
    requires forall i :: 0 <= i < |picked| ==> 0 <= picked[i] < |views|
    ensures forall i :: 0 <= i < |more| ==> 0 <= more[i] < |views|
    ensures Select(more, views) == Select(picked, views) + [views[2 * at], views[2 * at + 1]]
  {
  }

  /** What the loop over a sequence has picked after item `i`. */
  lemma PickOne(picked: seq<int>, i: nat, kept: seq<Node>, content: seq<Node>, views: seq<Tree>, prefixes: seq<string>)
    requires Selects(picked, i, kept, content) && i < |content| == |views|
    requires Select(picked, views) == KeepItems(views[..i], prefixes)
    ensures if Owned(SplitLabel(views[i]).0, prefixes)
      then Selects(picked, i + 1, kept, content) && Select(picked, views) == KeepItems(views[..i + 1], prefixes)
      else
        && Selects(picked + [i], i + 1, kept + [content[i]], content)
        && Select(picked + [i], views) == KeepItems(views[..i + 1], prefixes)
  {
    KeepItemsSnoc(views, i, prefixes);
    assert Select(picked + [i], views) == Select(picked, views) + [views[i]];
  }

  /** The content of a node becomes a selection of itself. */
  method Keep(n: Node, kept: seq<Node>, ghost picked: seq<int>)
    requires n.Valid() && (n.kind == MappingNode || n.kind == SequenceNode)
    requires Selects(picked, |n.content|, kept, n.content) && (n.kind == MappingNode ==> |kept| % 2 == 0)
    modifies n`content, n`views
    ensures n.Valid() && n.views == Select(picked, old(n.views))
  {
    ghost var want := Select(picked, n.views);
    n.Retain(kept, picked);
    assert n.views == want;
  }

  /** `stripPrefixes` */
  method StripPrefixes(n: Node, prefixes: seq<string>)
    requires n.Valid()
    modifies n`content, n`views
    ensures n.Valid() && n.View() == Strip(old(n.View()), prefixes)
  {
    if n.kind == MappingNode {
      var kept, picked := KeptPairs(n, prefixes);
      Keep(n, kept, picked);
    } else if n.kind == SequenceNode {
      var kept, picked := KeptItems(n, prefixes);
      Keep(n, kept, picked);
    }
  }

  /** One turn of the loop over the pairs: the pair goes or stays. */
  method KeepPair(n: Node, prefixes: seq<string>, i: nat, kept: seq<Node>, ghost picked: seq<int>, ghost at: nat)
    returns (next: seq<Node>, ghost more: seq<int>)
    requires n.Valid() && n.kind == MappingNode && i == 2 * at && i + 1 < |n.content|
    requires Selects(picked, i, kept, n.content) && |picked| % 2 == 0
    requires Pairs(Select(picked, n.views)) == KeepEntries(Pairs(n.views)[..at], prefixes)
    ensures Selects(more, i + 2, next, n.content) && (|next| == |kept| || |next| == |kept| + 2)
    ensures Pairs(Select(more, n.views)) == KeepEntries(Pairs(n.views)[..at + 1], prefixes)
  {
    n.EntryAt(at);
    more := PickPair(picked, at, kept, n.content);
    PickedPair(picked, more, at, n.views, prefixes);
    var owned := HasAnyPrefix(n.content[i].value, prefixes);
    if owned {
      next, more := kept, picked;
    } else {
      next := kept + [n.content[i], n.content[i + 1]];
    }
  }

  method KeptPairs(n: Node, prefixes: seq<string>) returns (kept: seq<Node>, ghost picked: seq<int>)
    requires n.Valid() && n.kind == MappingNode
    ensures Selects(picked, |n.content|, kept, n.content) && |kept| % 2 == 0
    ensures Pairs(Select(picked, n.views)) == KeepEntries(Pairs(n.views), prefixes)
  {
    kept, picked := [], [];
    ghost var at, es, half := 0, Pairs(n.views), 0;
    assert |n.content| == 2 * |es|;
    var i := 0;
    while i < |n.content|
      invariant i == 2 * at && at <= |es|
      invariant Selects(picked, i, kept, n.content) && |kept| == 2 * half
      invariant Pairs(Select(picked, n.views)) == KeepEntries(es[..at], prefixes)
    {
      ghost var before := |kept|;
      kept, picked := KeepPair(n, prefixes, i, kept, picked, at);
      half := if |kept| == before then half else half + 1;
      i := i + 2;
      at := at + 1;
    }
    assert es[..at] == es;
  }

  method KeptItems(n: Node, prefixes: seq<string>) returns (kept: seq<Node>, ghost picked: seq<int>)
    requires n.Valid() && n.kind == SequenceNode
    ensures Selects(picked, |n.content|, kept, n.content)
    ensures Select(picked, n.views) == KeepItems(n.views, prefixes)
  {
    kept, picked := [], [];
    for i := 0 to |n.content|
      invariant Selects(picked, i, kept, n.content)
      invariant Select(picked, n.views) == KeepItems(n.views[..i], prefixes)
    {
      PickOne(picked, i, kept, n.content, n.views, prefixes);
      var key, value := SplitSeqLabel(n.content[i]);
      var owned := HasAnyPrefix(key, prefixes);
      if !owned {
        kept := kept + [n.content[i]];
        picked := picked + [i];
      }
    }
    assert n.views[..|n.content|] == n.views;
  }

  /** `writeLabels`: the sorted keys leave the map's iteration order without effect. */
  method WriteLabels(n: Node, pairs: Labels)
    requires n.Valid()
    modifies n
    ensures n.Valid() && n.kind == old(n.kind) && n.repr >= old(n.repr) && fresh(n.repr - old(n.repr))
    ensures n.View() == Write(old(n.View()), pairs)
  {
    var keys := SortedKeys(pairs.Keys);
    if n.kind == MappingNode {
      WriteToMapping(n, keys, pairs);
    } else if n.kind == SequenceNode {
      WriteToSequence(n, keys, pairs);
    }
  }

  method WriteToMapping(n: Node, keys: seq<string>, pairs: Labels)
    requires n.Valid() && n.kind == MappingNode && forall k :: k in keys ==> k in pairs
    modifies n
    ensures n.Valid() && n.kind == MappingNode && n.repr >= old(n.repr) && fresh(n.repr - old(n.repr))
    ensures n.View() == Mapping(Pairs(old(n.views)) + EntriesOf(keys, pairs))
  {
    for i := 0 to |keys|
      invariant n.Valid() && n.kind == MappingNode && n.repr >= old(n.repr) && fresh(n.repr - old(n.repr))
      invariant n.View() == Mapping(Pairs(old(n.views)) + EntriesOf(keys, pairs)[..i])
    {
      assert EntriesOf(keys, pairs)[..i + 1] == EntriesOf(keys, pairs)[..i] + [EntriesOf(keys, pairs)[i]];
      var v := new Node(ScalarNode, pairs[keys[i]]);
      var at := n.AddField(keys[i], v);
    }
    assert EntriesOf(keys, pairs)[..|keys|] == EntriesOf(keys, pairs);
  }

  method WriteToSequence(n: Node, keys: seq<string>, pairs: Labels)
    requires n.Valid() && n.kind == SequenceNode && forall k :: k in keys ==> k in pairs
    modifies n
    ensures n.Valid() && n.kind == SequenceNode && n.repr >= old(n.repr) && fresh(n.repr - old(n.repr))
    ensures n.View() == Sequence(old(n.views) + ItemsOf(keys, pairs))
  {
    for i := 0 to |keys|
      invariant n.Valid() && n.kind == SequenceNode && n.repr >= old(n.repr) && fresh(n.repr - old(n.repr))
      invariant n.View() == Sequence(old(n.views) + ItemsOf(keys, pairs)[..i])
    {
      assert ItemsOf(keys, pairs)[..i + 1] == ItemsOf(keys, pairs)[..i] + [ItemsOf(keys, pairs)[i]];
      var item := new Node(ScalarNode, keys[i] + "=" + pairs[keys[i]]);
      n.AddItem(item);
    }
    assert ItemsOf(keys, pairs)[..|keys|] == ItemsOf(keys, pairs);
  }

  lemma {:induction false} CollectEntriesSnoc(es: seq<Entry>, i: nat, into: Labels)
    requires i < |es|
    ensures CollectEntries(es[..i + 1], into) == CollectEntries(es[..i], into)[Value(es[i].key) := Value(es[i].val)]
  {
    assert es[..i + 1] == es[..i] + [es[i]];
    CollectEntriesConcat(es[..i], [es[i]], into);
    assert CollectEntries([es[i]], CollectEntries(es[..i], into))
        == CollectEntries([es[i]][1..], CollectEntries(es[..i], into)[Value(es[i].key) := Value(es[i].val)]);
  }

  lemma {:induction false} CollectItemsSnoc(ts: seq<Tree>, i: nat, into: Labels)
    requires i < |ts|
    ensures CollectItems(ts[..i + 1], into)
         == var (k, v) := SplitLabel(ts[i]);
            var m := CollectItems(ts[..i], into);
            if k != "" then m[k := v] else m
  {
    assert ts[..i + 1] == ts[..i] + [ts[i]];
    CollectItemsConcat(ts[..i], [ts[i]], into);
    assert [ts[i]][1..] == [];
  }

  /** `collectLabels` */
  method CollectLabels(n: Node, into: Labels) returns (out: Labels)
    requires n.Valid()
    ensures out == Collect(n.View(), into)
  {
    if n.kind == MappingNode {
      out := CollectMapping(n, into);
    } else if n.kind == SequenceNode {
      out := CollectSequence(n, into);
    } else {
      out := into;
    }
  }

  method CollectMapping(n: Node, into: Labels) returns (out: Labels)
    requires n.Valid() && n.kind == MappingNode
    ensures out == CollectEntries(Pairs(n.views), into)
  {
    out := into;
    ghost var es, at := Pairs(n.views), 0;
    assert |n.content| == 2 * |es|;
    var i := 0;
    while i < |n.content|
      invariant i == 2 * at && at <= |es|
      invariant out == CollectEntries(es[..at], into)
    {
      n.EntryAt(at);
      CollectEntriesSnoc(es, at, into);
      out := out[n.content[i].value := n.content[i + 1].value];
      i := i + 2;
      at := at + 1;
    }
    assert es[..at] == es;
  }

  method CollectSequence(n: Node, into: Labels) returns (out: Labels)
    requires n.Valid() && n.kind == SequenceNode
    ensures out == CollectItems(n.views, into)
  {
    out := into;
    for i := 0 to |n.content|
      invariant out == CollectItems(n.views[..i], into)
    {
      CollectItemsSnoc(n.views, i, into);
      var k, v := SplitSeqLabel(n.content[i]);
      if k != "" {
        out := out[k := v];
      }
    }
    assert n.views[..|n.content|] == n.views;
  }

  // ---------- one service ----------

  /** Purges the labels node right below `parent`. */
  method PurgeBelow(parent: Node, prefixes: seq<string>)
    requires parent.Valid()
    modifies parent.repr
    ensures parent.Valid() && parent.kind == old(parent.kind) && parent.repr == old(parent.repr)
    ensures parent.View() == StripIn(old(parent.View()), prefixes)
  {
    var labels, at := parent.Field("labels");
    if labels != null {
      parent.FieldView("labels", labels, at);
      StripField(parent, labels, prefixes, at);
    }
  }

  method StripField(parent: Node, labels: Node, prefixes: seq<string>, ghost at: nat)
    requires parent.Valid() && parent.Holds("labels", labels, at) && labels.Valid()
    requires labels.repr <= parent.repr && parent !in labels.repr
    modifies labels`content, labels`views, parent`views, parent`repr
    ensures parent.Valid() && parent.repr == old(parent.repr)
    ensures parent.View() == Put(old(parent.View()), "labels", Strip(old(labels.View()), prefixes))
  {
    StripPrefixes(labels, prefixes);
    parent.OnlyChildMoved(2 * at + 1);
    parent.SettleField("labels", labels, at);
  }

  /** `labelLocations` and the purge of each of them. */
  method PurgeService(svc: Node, prefixes: seq<string>)
    requires svc.Valid()
    modifies svc.repr
    ensures svc.Valid() && svc.kind == old(svc.kind) && svc.repr == old(svc.repr)
    ensures svc.View() == StripBoth(old(svc.View()), prefixes)
  {
    PurgeBelow(svc, prefixes);
    var deploy, at := svc.Field("deploy");
    if deploy != null {
      PurgeBelowField(svc, "deploy", deploy, at, prefixes);
    }
  }

  method PurgeBelowField(svc: Node, key: string, child: Node, ghost at: nat, prefixes: seq<string>)
    requires svc.Valid() && svc.Holds(key, child, at)
    modifies svc.repr
    ensures svc.Valid() && svc.kind == old(svc.kind) && svc.repr == old(svc.repr)
    ensures svc.View() == Put(old(svc.View()), key, StripIn(Get(old(svc.View()), key).value, prefixes))
  {
    svc.FieldView(key, child, at);
    PurgeBelow(child, prefixes);
    svc.OnlyChildMoved(2 * at + 1);
    svc.SettleField(key, child, at);
  }

  /** `ensureLabelsChild`: the labels node below `parent`, made if it is absent. */
  method EnsureLabels(parent: Node) returns (labels: Node, ghost at: nat)
    requires parent.Valid() && parent.kind == MappingNode
    modifies parent
    ensures parent.Valid() && parent.Holds("labels", labels, at)
    ensures parent.repr >= old(parent.repr) && fresh(parent.repr - old(parent.repr))
    ensures parent.View() == Put(old(parent.View()), "labels", OrEmpty(Get(old(parent.View()), "labels")))
  {
    var found, i := parent.Field("labels");
    if found != null {
      PutSame(parent.View(), "labels");
      return found, i;
    }
    labels := new Node(MappingNode, "");
    at := parent.AddNewField("labels", labels);
  }

  method WriteToField(parent: Node, key: string, labels: Node, ghost at: nat, pairs: Labels)
    requires parent.Valid() && parent.Holds(key, labels, at)
    modifies parent.repr
    ensures parent.Valid() && parent.kind == MappingNode
    ensures parent.repr >= old(parent.repr) && fresh(parent.repr - old(parent.repr))
    ensures parent.View() == Put(old(parent.View()), key, Write(Get(old(parent.View()), key).value, pairs))
  {
    parent.FieldView(key, labels, at);
    WriteLabels(labels, pairs);
    parent.OnlyChildMoved(2 * at + 1);
    parent.SettleField(key, labels, at);
  }

  /** `ensureLabelsChild`, then `writeLabels` to what it returned. */
  method WriteBelow(parent: Node, pairs: Labels)
    requires parent.Valid() && parent.kind == MappingNode
    modifies parent.repr
    ensures parent.Valid() && parent.kind == MappingNode
    ensures parent.repr >= old(parent.repr) && fresh(parent.repr - old(parent.repr))
    ensures parent.View() == WriteIn(old(parent.View()), pairs)
  {
    ghost var was := parent.View();
    var labels, at := EnsureLabels(parent);
    WriteToField(parent, "labels", labels, at, pairs);
    YamlTree.GetPut(was, "labels", OrEmpty(Get(was, "labels")));
    PutPut(was, "labels", OrEmpty(Get(was, "labels")), Write(OrEmpty(Get(was, "labels")), pairs));
  }

  /** Purge both places, resolve the mode's labels node, write to it. */
  method InjectServiceLabels(svc: Node, prefixes: seq<string>, pairs: Labels, mode: string)
    requires svc.Valid() && svc.kind == MappingNode
    modifies svc.repr
    ensures svc.Valid() && svc.kind == MappingNode
    ensures svc.repr >= old(svc.repr) && fresh(svc.repr - old(svc.repr))
    ensures svc.View() == InjectLabels(old(svc.View()), prefixes, pairs, mode)
  {
    PurgeService(svc, prefixes);
    if mode == "swarm" {
      WriteToDeploy(svc, pairs);
    } else {
      WriteBelow(svc, pairs);
    }
  }

  method WriteBelowField(svc: Node, key: string, child: Node, ghost at: nat, pairs: Labels)
    requires svc.Valid() && svc.Holds(key, child, at) && child.kind == MappingNode
    modifies svc.repr
    ensures svc.Valid() && svc.kind == MappingNode
    ensures svc.repr >= old(svc.repr) && fresh(svc.repr - old(svc.repr))
    ensures svc.View() == Put(old(svc.View()), key, WriteIn(Get(old(svc.View()), key).value, pairs))
  {
    svc.FieldView(key, child, at);
    WriteBelow(child, pairs);
    svc.OnlyChildMoved(2 * at + 1);
    svc.SettleField(key, child, at);
  }

  method WriteToDeploy(svc: Node, pairs: Labels)
    requires svc.Valid() && svc.kind == MappingNode
    modifies svc.repr
    ensures svc.Valid() && svc.kind == MappingNode
    ensures svc.repr >= old(svc.repr) && fresh(svc.repr - old(svc.repr))
    ensures svc.View() == Put(old(svc.View()), "deploy", WriteIn(AsMapping(Get(old(svc.View()), "deploy")), pairs))
  {
    ghost var was := svc.View();
    ghost var made := AsMapping(Get(was, "deploy"));
    var deploy, at := svc.EnsureMapping("deploy");
    WriteBelowField(svc, "deploy", deploy, at, pairs);
    YamlTree.GetPut(was, "deploy", made);
    PutPut(was, "deploy", made, WriteIn(made, pairs));
  }

  // ---------- resources ----------

  method SetBlock(resources: Node, key: string, block: Node, ghost at: nat, cpus: string, memory: string)
    requires resources.Valid() && resources.Holds(key, block, at)
    modifies resources.repr
    ensures resources.Valid() && resources.kind == MappingNode
    ensures resources.repr >= old(resources.repr) && fresh(resources.repr - old(resources.repr))
    ensures resources.View() == Put(old(resources.View()), key,
      SetOrRemove(SetOrRemove(Get(old(resources.View()), key).value, "cpus", cpus), "memory", memory))
  {
    resources.FieldView(key, block, at);
    SetBoth(block, cpus, memory);
    resources.OnlyChildMoved(2 * at + 1);
    resources.SettleField(key, block, at);
  }

  method SetBoth(block: Node, cpus: string, memory: string)
    requires block.Valid()
    modifies block.repr
    ensures block.Valid() && block.repr >= old(block.repr) && fresh(block.repr - old(block.repr))
    ensures block.View() == SetOrRemove(SetOrRemove(old(block.View()), "cpus", cpus), "memory", memory)
  {
    block.SetOrRemoveScalar("cpus", cpus);
    block.SetOrRemoveScalar("memory", memory);
  }

  /** One of `limits` and `reservations`. */
  method WriteBlock(resources: Node, key: string, cpus: string, memory: string)
    requires resources.Valid() && resources.kind == MappingNode
    modifies resources.repr
    ensures resources.Valid() && resources.kind == MappingNode
    ensures resources.repr >= old(resources.repr) && fresh(resources.repr - old(resources.repr))
    ensures resources.View() == WithBlock(old(resources.View()), key, cpus, memory)
  {
    ghost var was := resources.View();
    if cpus != "" || memory != "" {
      ghost var made := AsMapping(Get(was, key));
      var block, at := resources.EnsureMapping(key);
      SetBlock(resources, key, block, at, cpus, memory);
      YamlTree.GetPut(was, key, made);
      PutPut(was, key, made, SetOrRemove(SetOrRemove(made, "cpus", cpus), "memory", memory));
    } else {
      resources.RemoveField(key);
      DropIsMapping(was, key);
    }
  }

  lemma DropIsMapping(t: Tree, key: string)
    requires t.Mapping?
    ensures Drop(t, key).Mapping?
  {
  }

  method WriteBlocks(resources: Node, r: ResourcesCfg)
    requires resources.Valid() && resources.kind == MappingNode
    modifies resources.repr
    ensures resources.Valid() && resources.kind == MappingNode
    ensures resources.repr >= old(resources.repr) && fresh(resources.repr - old(resources.repr))
    ensures resources.View() == Blocks(old(resources.View()), r)
  {
    WriteBlock(resources, "limits", r.cpusLimit, r.memoryLimit);
    WriteBlock(resources, "reservations", r.cpusReservation, r.memoryReservation);
  }

  method WriteBlocksInField(deploy: Node, key: string, resources: Node, ghost at: nat, r: ResourcesCfg)
    requires deploy.Valid() && deploy.Holds(key, resources, at) && resources.kind == MappingNode
    modifies deploy.repr
    ensures deploy.Valid() && deploy.kind == MappingNode
    ensures deploy.repr >= old(deploy.repr) && fresh(deploy.repr - old(deploy.repr))
    ensures deploy.View() == Put(old(deploy.View()), key, Blocks(Get(old(deploy.View()), key).value, r))
  {
    deploy.FieldView(key, resources, at);
    WriteBlocks(resources, r);
    deploy.OnlyChildMoved(2 * at + 1);
    deploy.SettleField(key, resources, at);
  }

  function WithResources(deploy: Tree, r: ResourcesCfg): Tree {
    Put(deploy, "resources", Blocks(AsMapping(Get(deploy, "resources")), r))
  }

  method FillDeploy(deploy: Node, r: ResourcesCfg)
    requires deploy.Valid() && deploy.kind == MappingNode
    modifies deploy.repr
    ensures deploy.Valid() && deploy.kind == MappingNode
    ensures deploy.repr >= old(deploy.repr) && fresh(deploy.repr - old(deploy.repr))
    ensures deploy.View() == WithResources(old(deploy.View()), r)
  {
    ghost var was := deploy.View();
    ghost var made := AsMapping(Get(was, "resources"));
    var resources, at := deploy.EnsureMapping("resources");
    WriteBlocksInField(deploy, "resources", resources, at, r);
    YamlTree.GetPut(was, "resources", made);
    PutPut(was, "resources", made, Blocks(made, r));
  }

  method FillField(svc: Node, key: string, deploy: Node, ghost at: nat, r: ResourcesCfg)
    requires svc.Valid() && svc.Holds(key, deploy, at) && deploy.kind == MappingNode
    modifies svc.repr
    ensures svc.Valid() && svc.kind == MappingNode
    ensures svc.repr >= old(svc.repr) && fresh(svc.repr - old(svc.repr))
    ensures svc.View() == Put(old(svc.View()), key, WithResources(Get(old(svc.View()), key).value, r))
  {
    svc.FieldView(key, deploy, at);
    FillDeploy(deploy, r);
    svc.OnlyChildMoved(2 * at + 1);
    svc.SettleField(key, deploy, at);
  }

  /** Removes `deploy.resources`, reporting whether `deploy` has run empty. */
  method DropResources(svc: Node, deploy: Node, ghost at: nat) returns (empty: bool)
    requires svc.Valid() && svc.Holds("deploy", deploy, at)
    modifies svc.repr
    ensures svc.Valid() && svc.kind == MappingNode && svc.repr == old(svc.repr)
    ensures svc.View() == Put(old(svc.View()), "deploy", Drop(Get(old(svc.View()), "deploy").value, "resources"))
    ensures empty <==> Childless(Drop(Get(old(svc.View()), "deploy").value, "resources"))
  {
    svc.FieldView("deploy", deploy, at);
    deploy.RemoveField("resources");
    svc.OnlyChildMoved(2 * at + 1);
    svc.SettleField("deploy", deploy, at);
    empty := |deploy.content| == 0;
  }

  lemma DropPut(t: Tree, key: string, v: Tree)
    requires Get(t, key).Some?
    ensures Drop(Put(t, key, v), key) == Drop(t, key)
  {
    var i := FieldAt(t.entries, key);
    FieldAtIs(PutEntry(t.entries, key, v), key, i);
  }

  /** The all-empty branch of `applyDeployResources`. */
  method ClearDeployResources(svc: Node)
    requires svc.Valid() && svc.kind == MappingNode
    modifies svc.repr
    ensures svc.Valid() && svc.kind == MappingNode && svc.repr == old(svc.repr)
    ensures svc.View() == ClearResources(old(svc.View()))
  {
    ghost var was := svc.View();
    var deploy, at := svc.Field("deploy");
    if deploy != null {
      var empty := DropResources(svc, deploy, at);
      if empty {
        DropPut(was, "deploy", Drop(Get(was, "deploy").value, "resources"));
        svc.RemoveField("deploy");
        DropIsMapping(was, "deploy");
      }
    }
  }

  /** `applyDeployResources` */
  method ApplyDeployResources(svc: Node, r: ResourcesCfg)
    requires svc.Valid() && svc.kind == MappingNode
    modifies svc.repr
    ensures svc.Valid() && svc.kind == MappingNode
    ensures svc.repr >= old(svc.repr) && fresh(svc.repr - old(svc.repr))
    ensures svc.View() == DeployResources(old(svc.View()), r)
  {
    ghost var was := svc.View();
    if r.cpusLimit == "" && r.memoryLimit == "" && r.cpusReservation == "" && r.memoryReservation == "" {
      ClearDeployResources(svc);
    } else {
      ghost var made := AsMapping(Get(was, "deploy"));
      var deploy, at := svc.EnsureMapping("deploy");
      FillField(svc, "deploy", deploy, at, r);
      YamlTree.GetPut(was, "deploy", made);
      PutPut(was, "deploy", made, WithResources(made, r));
    }
  }

  /** The body of the loop in `applyResources`. */
  method ApplyServiceResources(svc: Node, r: ResourcesCfg)
    requires svc.Valid() && svc.kind == MappingNode
    modifies svc.repr
    ensures svc.Valid() && svc.kind == MappingNode
    ensures svc.repr >= old(svc.repr) && fresh(svc.repr - old(svc.repr))
    ensures svc.View() == ApplyResources(old(svc.View()), r)
  {
    RemoveLegacy(svc);
    ApplyDeployResources(svc, r);
  }

  method RemoveLegacy(svc: Node)
    requires svc.Valid() && svc.kind == MappingNode
    modifies svc
    ensures svc.Valid() && svc.kind == MappingNode && svc.repr == old(svc.repr)
    ensures svc.View() == DropAll(old(svc.View()), LEGACY_FIELDS)
  {
    RemoveFields(svc, LEGACY_FIELDS);
  }

  method RemoveFields(svc: Node, keys: seq<string>)
    requires svc.Valid() && svc.kind == MappingNode
    modifies svc
    ensures svc.Valid() && svc.kind == MappingNode && svc.repr == old(svc.repr)
    ensures svc.View() == DropAll(old(svc.View()), keys)
  {
    for i := 0 to |keys|
      invariant svc.Valid() && svc.kind == MappingNode && svc.repr == old(svc.repr)
      invariant svc.View() == DropAll(old(svc.View()), keys[..i])
    {
      assert keys[..i + 1][..i] == keys[..i];
      DropIsMapping(svc.View(), keys[i]);
      svc.RemoveField(keys[i]);
    }
    assert keys[..|keys|] == keys;
  }

  // ---------- the plan ----------

  /** The labels one addon builds for a service: the loop over its settings, then the switch. */
  method BuildLabels(a: Addon, c: AddonCfg) returns (out: Labels)
    ensures out == Built(a, c)
  {
    out := map[];
    var left := c.labels.Keys;
    while left != {}
      invariant left <= c.labels.Keys
      invariant out == map k | k in c.labels && k !in left && Prefix(a) <= k :: c.labels[k]
    {
      var k :| k in left;
      left := left - {k};
      if Prefix(a) <= k {
        out := out[k := c.labels[k]];
      }
    }
    assert out == map k | k in c.labels && Prefix(a) <= k :: c.labels[k];
    if c.enabled {
      out := out[EnableKey(a) := "true"];
    }
  }

  /** What is planned for a service once the given addons have been gone through. */
  ghost predicate Planned(cfg: AddonsConfig, svc: string, purge: Option<seq<string>>,
                          labels: Option<Labels>, addons: seq<Addon>)
  {
    if exists a :: a in addons && svc in cfg.For(a)
    then purge == Some(PurgeParts(cfg, svc, addons)) && labels == Some(LabelsParts(cfg, svc, addons))
    else purge == None && labels == None
  }

  ghost function PurgeParts(cfg: AddonsConfig, svc: string, addons: seq<Addon>): seq<string> {
    if addons == [] then []
    else PurgeParts(cfg, svc, addons[..|addons| - 1]) + PurgePart(cfg, svc, addons[|addons| - 1])
  }

  ghost function LabelsParts(cfg: AddonsConfig, svc: string, addons: seq<Addon>): Labels {
    if addons == [] then map[]
    else LabelsParts(cfg, svc, addons[..|addons| - 1]) + LabelsPart(cfg, svc, addons[|addons| - 1])
  }

  lemma {:induction false} NothingPlanned(cfg: AddonsConfig, svc: string, addons: seq<Addon>)
    requires forall a :: a in addons ==> svc !in cfg.For(a)
    ensures PurgeParts(cfg, svc, addons) == [] && LabelsParts(cfg, svc, addons) == map[]
  {
    if addons != [] {
      assert addons[|addons| - 1] in addons;
      NothingPlanned(cfg, svc, addons[..|addons| - 1]);
    }
  }

  /** Each service is planned for, with or without the addon at hand. */
  ghost predicate PlannedBut(cfg: AddonsConfig, a: Addon, addons: seq<Addon>, left: set<string>,
                             purge: map<string, seq<string>>, labels: map<string, Labels>)
  {
    forall svc :: Planned(cfg, svc, At(purge, svc), At(labels, svc),
                          if svc in cfg.For(a) && svc !in left then addons + [a] else addons)
  }

  /** One turn of the loop. */
  lemma PlanTurn(cfg: AddonsConfig, a: Addon, addons: seq<Addon>, left: set<string>,
                 purge: map<string, seq<string>>, labels: map<string, Labels>, svc: string)
    requires svc in left && svc in cfg.For(a) && PlannedBut(cfg, a, addons, left, purge, labels)
    ensures PlannedBut(cfg, a, addons, left - {svc},
      purge[svc := (if svc in purge then purge[svc] else []) + [Prefix(a)]],
      labels[svc := (if svc in labels then labels[svc] else map[]) + Built(a, cfg.For(a)[svc])])
  {
    assert Planned(cfg, svc, At(purge, svc), At(labels, svc), addons);
    PlanStep(cfg, svc, a, addons, At(purge, svc), At(labels, svc));
    var purge' := purge[svc := (if svc in purge then purge[svc] else []) + [Prefix(a)]];
    var labels' := labels[svc := (if svc in labels then labels[svc] else map[]) + Built(a, cfg.For(a)[svc])];
    forall x
      ensures Planned(cfg, x, At(purge', x), At(labels', x),
                      if x in cfg.For(a) && x !in left - {svc} then addons + [a] else addons)
    {
      if x != svc {
        assert At(purge', x) == At(purge, x) && At(labels', x) == At(labels, x);
        assert x in left - {svc} <==> x in left;
      }
    }
  }

  lemma PlanEnds(cfg: AddonsConfig, a: Addon, addons: seq<Addon>,
                 purge: map<string, seq<string>>, labels: map<string, Labels>, svc: string)
    requires PlannedBut(cfg, a, addons, {}, purge, labels)
    ensures Planned(cfg, svc, At(purge, svc), At(labels, svc), addons + [a])
  {
    if svc !in cfg.For(a) {
      PlanSkip(cfg, svc, a, addons, At(purge, svc), At(labels, svc));
    }
  }

  /** One of the four loops over the settings; services come in any order. */
  method PlanAddon(cfg: AddonsConfig, a: Addon, ghost addons: seq<Addon>,
                   purge0: map<string, seq<string>>, labels0: map<string, Labels>)
    returns (purge: map<string, seq<string>>, labels: map<string, Labels>)
    requires forall svc :: Planned(cfg, svc, At(purge0, svc), At(labels0, svc), addons)
    ensures forall svc :: Planned(cfg, svc, At(purge, svc), At(labels, svc), addons + [a])
  {
    purge, labels := purge0, labels0;
    var left := cfg.For(a).Keys;
    while left != {}
      invariant left <= cfg.For(a).Keys
      invariant PlannedBut(cfg, a, addons, left, purge, labels)
    {
      var svc :| svc in left;
      var built := BuildLabels(a, cfg.For(a)[svc]);
      PlanTurn(cfg, a, addons, left, purge, labels, svc);
      left := left - {svc};
      purge := purge[svc := (if svc in purge then purge[svc] else []) + [Prefix(a)]];
      labels := labels[svc := (if svc in labels then labels[svc] else map[]) + built];
    }
    forall svc
      ensures Planned(cfg, svc, At(purge, svc), At(labels, svc), addons + [a])
    {
      PlanEnds(cfg, a, addons, purge, labels, svc);
    }
  }

  lemma PlanStep(cfg: AddonsConfig, svc: string, a: Addon, addons: seq<Addon>,
                 purge: Option<seq<string>>, labels: Option<Labels>)
    requires svc in cfg.For(a) && Planned(cfg, svc, purge, labels, addons)
    ensures Planned(cfg, svc,
      Some((if purge.Some? then purge.value else []) + [Prefix(a)]),
      Some((if labels.Some? then labels.value else map[]) + Built(a, cfg.For(a)[svc])),
      addons + [a])
  {
    assert (addons + [a])[..|addons|] == addons;
    assert a in addons + [a];
    if purge == None { NothingPlanned(cfg, svc, addons); }
  }

  lemma PlanSkip(cfg: AddonsConfig, svc: string, a: Addon, addons: seq<Addon>,
                 purge: Option<seq<string>>, labels: Option<Labels>)
    requires svc !in cfg.For(a) && Planned(cfg, svc, purge, labels, addons)
    ensures Planned(cfg, svc, purge, labels, addons + [a])
  {
    assert (addons + [a])[..|addons|] == addons;
    assert forall b :: b in addons + [a] <==> b in addons || b == a;
    assert PurgeParts(cfg, svc, addons) + [] == PurgeParts(cfg, svc, addons);
    assert LabelsParts(cfg, svc, addons) + map[] == LabelsParts(cfg, svc, addons);
  }

  /** What to purge from and write to which service. */
  method Plan(cfg: AddonsConfig) returns (purge: map<string, seq<string>>, labels: map<string, Labels>)
    ensures forall svc :: svc in purge <==> cfg.TouchesLabels(svc)
    ensures purge.Keys == labels.Keys
    ensures forall svc :: svc in purge ==> purge[svc] == PurgeFor(cfg, svc) && labels[svc] == LabelsFor(cfg, svc)
  {
    purge, labels := PlanAddon(cfg, Traefik, [], map[], map[]);
    purge, labels := PlanAddon(cfg, Sablier, [] + [Traefik], purge, labels);
    purge, labels := PlanAddon(cfg, Watchtower, [] + [Traefik] + [Sablier], purge, labels);
    purge, labels := PlanAddon(cfg, Backup, [] + [Traefik] + [Sablier] + [Watchtower], purge, labels);
    forall svc
      ensures svc in purge <==> cfg.TouchesLabels(svc)
      ensures svc in purge <==> svc in labels
      ensures svc in purge ==> purge[svc] == PurgeFor(cfg, svc) && labels[svc] == LabelsFor(cfg, svc)
    {
      assert [] + [Traefik] + [Sablier] + [Watchtower] + [Backup] == ALL_ADDONS;
      AllPlanned(cfg, svc);
      assert Planned(cfg, svc, At(purge, svc), At(labels, svc), ALL_ADDONS);
    }
  }

  const ALL_ADDONS := [Traefik, Sablier, Watchtower, Backup]

  lemma AllPlanned(cfg: AddonsConfig, svc: string)
    ensures PurgeParts(cfg, svc, ALL_ADDONS) == PurgeFor(cfg, svc)
    ensures LabelsParts(cfg, svc, ALL_ADDONS) == LabelsFor(cfg, svc)
    ensures (exists a :: a in ALL_ADDONS && svc in cfg.For(a)) <==> cfg.TouchesLabels(svc)
  {
    PurgeAll(cfg, svc);
    LabelsAll(cfg, svc);
    assert Traefik in ALL_ADDONS && Sablier in ALL_ADDONS && Watchtower in ALL_ADDONS && Backup in ALL_ADDONS;
  }

  lemma PurgeAll(cfg: AddonsConfig, svc: string)
    ensures PurgeParts(cfg, svc, ALL_ADDONS) == PurgeFor(cfg, svc)
  {
    var t, s, w := [Traefik], [Traefik, Sablier], [Traefik, Sablier, Watchtower];
    assert ALL_ADDONS[..3] == w && w[..2] == s && s[..1] == t && t[..0] == [];
    assert PurgeParts(cfg, svc, t) == PurgePart(cfg, svc, Traefik);
    assert PurgeParts(cfg, svc, s) == PurgePart(cfg, svc, Traefik) + PurgePart(cfg, svc, Sablier);
    assert PurgeParts(cfg, svc, w) == PurgeParts(cfg, svc, s) + PurgePart(cfg, svc, Watchtower);
  }

  lemma LabelsAll(cfg: AddonsConfig, svc: string)
    ensures LabelsParts(cfg, svc, ALL_ADDONS) == LabelsFor(cfg, svc)
  {
    var t, s, w := [Traefik], [Traefik, Sablier], [Traefik, Sablier, Watchtower];
    assert ALL_ADDONS[..3] == w && w[..2] == s && s[..1] == t && t[..0] == [];
    assert LabelsParts(cfg, svc, t) == LabelsPart(cfg, svc, Traefik);
    assert LabelsParts(cfg, svc, s) == LabelsPart(cfg, svc, Traefik) + LabelsPart(cfg, svc, Sablier);
    assert LabelsParts(cfg, svc, w) == LabelsParts(cfg, svc, s) + LabelsPart(cfg, svc, Watchtower);
  }

  // ---------- the whole document ----------

  /** The services once the labels of `labelled` and the resources of `resourced` are in. */
  ghost function ServicesAfter(es: seq<Entry>, labelled: set<string>, resourced: set<string>,
                               cfg: AddonsConfig, mode: string): seq<Entry>
  {
    seq(|es|, i requires 0 <= i < |es| => EntryAfter(es, i, labelled, resourced, cfg, mode))
  }

  ghost function EntryAfter(es: seq<Entry>, i: nat, labelled: set<string>, resourced: set<string>,
                            cfg: AddonsConfig, mode: string): Entry
    requires i < |es|
  {
    var name := Value(es[i].key);
    if FieldAt(es, name) == i && es[i].val.Mapping? then
      var s :=
        if name in labelled then InjectLabels(es[i].val, PurgeFor(cfg, name), LabelsFor(cfg, name), mode)
        else es[i].val;
      Entry(es[i].key, if name in resourced && name in cfg.resources then ApplyResources(s, cfg.resources[name]) else s)
    else es[i]
  }

  lemma AfterMapping(es: seq<Entry>, i: nat, labelled: set<string>, resourced: set<string>, cfg: AddonsConfig,
                     mode: string)
    requires i < |es|
    ensures EntryAfter(es, i, labelled, resourced, cfg, mode).val.Mapping? <==> es[i].val.Mapping?
  {
    var name := Value(es[i].key);
    if FieldAt(es, name) == i && es[i].val.Mapping? {
      var ps, m := PurgeFor(cfg, name), LabelsFor(cfg, name);
      ServiceLaws.InjectLabelsFields(es[i].val, ps, m, mode, "");
      if name in cfg.resources {
        ApplyResourcesMapping(es[i].val, cfg.resources[name]);
        ApplyResourcesMapping(InjectLabels(es[i].val, ps, m, mode), cfg.resources[name]);
      }
    }
  }

  /** Only the entry of that name differs between two stages. */
  lemma OneEntryMoves(es: seq<Entry>, fs: seq<Entry>, gs: seq<Entry>, name: string)
    requires |fs| == |es| == |gs|
    requires forall i :: 0 <= i < |es| ==> es[i].key == fs[i].key
    requires forall i :: 0 <= i < |es| ==> es[i].key == gs[i].key
    requires forall i :: 0 <= i < |es| && i != FieldAt(es, name) ==> fs[i] == gs[i]
    ensures var i := FieldAt(es, name);
      && (i < |es| ==> Get(Mapping(fs), name) == Some(fs[i].val) && Mapping(gs) == Put(Mapping(fs), name, gs[i].val))
      && (i == |es| ==> Get(Mapping(fs), name) == None && fs == gs)
  {
    var i := FieldAt(es, name);
    SameKeys(es, fs, name);
    if i < |es| {
      assert Put(Mapping(fs), name, gs[i].val) == Mapping(fs[i := Entry(fs[i].key, gs[i].val)]);
      assert gs[i] == Entry(fs[i].key, gs[i].val);
      assert gs == fs[i := gs[i]];
    }
  }

  /** Labelling one more service is one update of the services mapping. */
  lemma AfterLabels(es: seq<Entry>, labelled: set<string>, cfg: AddonsConfig, mode: string, name: string)
    requires name !in labelled
    ensures var t, t' := Mapping(ServicesAfter(es, labelled, {}, cfg, mode)),
                         Mapping(ServicesAfter(es, labelled + {name}, {}, cfg, mode));
      t' == if Get(t, name).Some? && Get(t, name).value.Mapping?
            then Put(t, name, InjectLabels(Get(t, name).value, PurgeFor(cfg, name), LabelsFor(cfg, name), mode)) else t
  {
    var i, fs, gs := FieldAt(es, name), ServicesAfter(es, labelled, {}, cfg, mode),
                     ServicesAfter(es, labelled + {name}, {}, cfg, mode);
    OneEntryMoves(es, fs, gs, name);
    if i < |es| && !es[i].val.Mapping? { assert fs[i] == gs[i] && fs == gs; }
  }

  /** The same for its resources. */
  lemma AfterResources(es: seq<Entry>, labelled: set<string>, resourced: set<string>, cfg: AddonsConfig,
                       mode: string, name: string)
    requires name !in resourced && name in cfg.resources
    ensures var t, t' := Mapping(ServicesAfter(es, labelled, resourced, cfg, mode)),
                         Mapping(ServicesAfter(es, labelled, resourced + {name}, cfg, mode));
      t' == if Get(t, name).Some? && Get(t, name).value.Mapping?
            then Put(t, name, ApplyResources(Get(t, name).value, cfg.resources[name])) else t
  {
    var i, fs, gs := FieldAt(es, name), ServicesAfter(es, labelled, resourced, cfg, mode),
                     ServicesAfter(es, labelled, resourced + {name}, cfg, mode);
    OneEntryMoves(es, fs, gs, name);
    if i < |es| {
      AfterMapping(es, i, labelled, resourced, cfg, mode);
      if !es[i].val.Mapping? { assert fs == gs; }
    }
  }

  lemma AfterAll(es: seq<Entry>, labelled: set<string>, cfg: AddonsConfig, mode: string)
    requires forall name :: name in labelled <==> cfg.TouchesLabels(name)
    ensures ServicesAfter(es, labelled, cfg.resources.Keys, cfg, mode) == InjectServices(es, cfg, mode)
    ensures ServicesAfter(es, {}, {}, cfg, mode) == es
  {
  }

  method InjectLabelsField(services: Node, name: string, svc: Node, ghost at: nat,
                           prefixes: seq<string>, pairs: Labels, mode: string)
    requires services.Valid() && services.Holds(name, svc, at) && svc.kind == MappingNode
    modifies services.repr
    ensures services.Valid() && services.kind == MappingNode
    ensures services.repr >= old(services.repr) && fresh(services.repr - old(services.repr))
    ensures services.View()
         == Put(old(services.View()), name, InjectLabels(Get(old(services.View()), name).value, prefixes, pairs, mode))
  {
    services.FieldView(name, svc, at);
    InjectServiceLabels(svc, prefixes, pairs, mode);
    services.OnlyChildMoved(2 * at + 1);
    services.SettleField(name, svc, at);
  }

  method ApplyResourcesField(services: Node, name: string, svc: Node, ghost at: nat, r: ResourcesCfg)
    requires services.Valid() && services.Holds(name, svc, at) && svc.kind == MappingNode
    modifies services.repr
    ensures services.Valid() && services.kind == MappingNode
    ensures services.repr >= old(services.repr) && fresh(services.repr - old(services.repr))
    ensures services.View() == Put(old(services.View()), name, ApplyResources(Get(old(services.View()), name).value, r))
  {
    services.FieldView(name, svc, at);
    ApplyServiceResources(svc, r);
    services.OnlyChildMoved(2 * at + 1);
    services.SettleField(name, svc, at);
  }

  /** One round of the loop over the purge plan. */
  method LabelService(services: Node, name: string, prefixes: seq<string>, pairs: Labels, mode: string)
    requires services.Valid() && services.kind == MappingNode
    modifies services.repr
    ensures services.Valid() && services.kind == MappingNode
    ensures services.repr >= old(services.repr) && fresh(services.repr - old(services.repr))
    ensures var was := old(services.View());
      services.View() == if Get(was, name).Some? && Get(was, name).value.Mapping?
                         then Put(was, name, InjectLabels(Get(was, name).value, prefixes, pairs, mode)) else was
  {
    var svc, at := services.Field(name);
    if svc != null && svc.kind == MappingNode {
      InjectLabelsField(services, name, svc, at, prefixes, pairs, mode);
    }
  }

  /** The loop over the purge plan; services come in any order. */
  method LabelServices(services: Node, purge: map<string, seq<string>>, labels: map<string, Labels>,
                       ghost cfg: AddonsConfig, mode: string)
    requires services.Valid() && services.kind == MappingNode && purge.Keys == labels.Keys
    requires forall svc :: svc in purge ==> purge[svc] == PurgeFor(cfg, svc) && labels[svc] == LabelsFor(cfg, svc)
    modifies services.repr
    ensures services.Valid() && services.kind == MappingNode
    ensures services.repr >= old(services.repr) && fresh(services.repr - old(services.repr))
    ensures services.View() == Mapping(ServicesAfter(Pairs(old(services.views)), purge.Keys, {}, cfg, mode))
  {
    ghost var es := Pairs(services.views);
    var left := purge.Keys;
    assert ServicesAfter(es, purge.Keys - left, {}, cfg, mode) == es;
    while left != {}
      invariant left <= purge.Keys
      invariant services.Valid() && services.kind == MappingNode
      invariant services.repr >= old(services.repr) && fresh(services.repr - old(services.repr))
      invariant services.View() == Mapping(ServicesAfter(es, purge.Keys - left, {}, cfg, mode))
    {
      var name :| name in left;
      AfterLabels(es, purge.Keys - left, cfg, mode, name);
      assert purge.Keys - (left - {name}) == (purge.Keys - left) + {name};
      left := left - {name};
      LabelService(services, name, purge[name], labels[name], mode);
    }
    assert purge.Keys - left == purge.Keys;
  }

  /** One round of the loop in `applyResources`. */
  method ResourceService(services: Node, name: string, r: ResourcesCfg)
    requires services.Valid() && services.kind == MappingNode
    modifies services.repr
    ensures services.Valid() && services.kind == MappingNode
    ensures services.repr >= old(services.repr) && fresh(services.repr - old(services.repr))
    ensures var was := old(services.View());
      services.View() == if Get(was, name).Some? && Get(was, name).value.Mapping?
                         then Put(was, name, ApplyResources(Get(was, name).value, r)) else was
  {
    var svc, at := services.Field(name);
    if svc != null && svc.kind == MappingNode {
      ApplyResourcesField(services, name, svc, at, r);
    }
  }

  /** `applyResources`; services come in any order. */
  method ResourceServices(services: Node, ghost es: seq<Entry>, ghost labelled: set<string>, cfg: AddonsConfig,
                          ghost mode: string)
    requires services.Valid() && services.kind == MappingNode
    requires services.View() == Mapping(ServicesAfter(es, labelled, {}, cfg, mode))
    modifies services.repr
    ensures services.Valid() && services.kind == MappingNode
    ensures services.repr >= old(services.repr) && fresh(services.repr - old(services.repr))
    ensures services.View() == Mapping(ServicesAfter(es, labelled, cfg.resources.Keys, cfg, mode))
  {
    var all := cfg.resources.Keys;
    var left := all;
    assert all - left == {};
    while left != {}
      invariant left <= all
      invariant services.Valid() && services.kind == MappingNode
      invariant services.repr >= old(services.repr) && fresh(services.repr - old(services.repr))
      invariant services.View() == Mapping(ServicesAfter(es, labelled, all - left, cfg, mode))
    {
      var name :| name in left;
      AfterResources(es, labelled, all - left, cfg, mode, name);
      assert all - (left - {name}) == (all - left) + {name};
      left := left - {name};
      ResourceService(services, name, cfg.resources[name]);
    }
    assert all - left == all;
  }

  method InjectIntoServices(services: Node, cfg: AddonsConfig, mode: string)
    requires services.Valid()
    modifies services.repr
    ensures services.Valid() && services.repr >= old(services.repr) && fresh(services.repr - old(services.repr))
    ensures services.View() == match old(services.View())
      case Mapping(es) => Mapping(InjectServices(es, cfg, mode))
      case other => other
  {
    if services.kind != MappingNode {
      return;
    }
    ghost var es := Pairs(services.views);
    var purge, labels := Plan(cfg);
    LabelServices(services, purge, labels, cfg, mode);
    ResourceServices(services, es, purge.Keys, cfg, mode);
    AfterAll(es, purge.Keys, cfg, mode);
  }

  method InjectIntoDocument(doc: Node, cfg: AddonsConfig, mode: string)
    requires doc.Valid()
    modifies doc.repr
    ensures doc.Valid() && doc.repr >= old(doc.repr) && fresh(doc.repr - old(doc.repr))
    ensures doc.View() == Inject(old(doc.View()), cfg, mode)
  {
    ghost var was := doc.View();
    var services, at := doc.Field("services");
    if services != null {
      InjectIntoServices(services, cfg, mode);
      doc.OnlyChildMoved(2 * at + 1);
      doc.SettleField("services", services, at);
      if !Get(was, "services").value.Mapping? { PutSame(was, "services"); }
    }
  }

  datatype Outcome = Done | EmptyDocument

  /** `injectAddonLabels`, between parsing and serializing. */
  method InjectAddonLabels(root: Node, cfg: AddonsConfig, mode: string) returns (outcome: Outcome)
    requires root.Valid()
    modifies root.repr
    ensures root.Valid()
    ensures outcome == EmptyDocument <==> cfg.HasAny() && old(root.View()) == Document([])
    ensures root.View() == match old(root.View())
      case Document(ts) => if ts == [] then Document(ts) else Document(ts[0 := Inject(ts[0], cfg, mode)])
      case doc => Inject(doc, cfg, mode)
  {
    if !cfg.HasAny() {
      ghost var was := root.View();
      if was.Document? {
        if was.children != [] { InjectNothing(was.children[0], cfg, mode); }
      } else {
        InjectNothing(was, cfg, mode);
      }
      return Done;
    }
    if root.kind == DocumentNode {
      if |root.content| == 0 {
        return EmptyDocument;
      }
      InjectIntoDocument(root.content[0], cfg, mode);
      root.OnlyChildMoved(0);
      root.Settle(0);
    } else {
      InjectIntoDocument(root, cfg, mode);
    }
    return Done;
  }

  // ---------- the reverse parser ----------

  /** `traefikCfgFromLabels` and its three siblings; labels come in any order. */
  method CfgFromLabels(a: Addon, labels: Labels) returns (c: AddonCfg)
    ensures c == FromLabels(a, labels)
  {
    var enabled, out: Labels := false, map[];
    var left := labels.Keys;
    while left != {}
      invariant left <= labels.Keys
      invariant enabled <==> EnableKey(a) in labels && EnableKey(a) !in left && labels[EnableKey(a)] == "true"
      invariant out == map k |
        k in labels && k !in left && Prefix(a) <= k && !(k == EnableKey(a) && labels[k] == "true")
                       :: labels[k]
    {
      var k :| k in left;
      left := left - {k};
      assert Prefix(a) <= EnableKey(a);
      if Prefix(a) <= k {
        if k == EnableKey(a) && labels[k] == "true" {
          enabled := true;
        } else {
          out := out[k := labels[k]];
        }
      }
    }
    return AddonCfg(enabled, out);
  }

  /** The node of a field of `deploy`, if both are there. */
  method BelowDeploy(svc: Node, key: string) returns (child: Node?)
    requires svc.Valid()
    ensures child == null ==> DeployField(svc.View(), key) == None
    ensures child != null ==> child.Valid() && DeployField(svc.View(), key) == Some(child.View())
  {
    var deploy, i := svc.Field("deploy");
    if deploy == null {
      return null;
    }
    ghost var at;
    child, at := deploy.Field(key);
  }

  /** Every label of a service, from both places. */
  method CollectService(svc: Node) returns (labels: Labels)
    requires svc.Valid()
    ensures labels == LabelsOf(svc.View())
  {
    labels := map[];
    var top, at := svc.Field("labels");
    if top != null {
      labels := CollectLabels(top, labels);
    }
    var below := BelowDeploy(svc, "labels");
    if below != null {
      labels := CollectLabels(below, labels);
    }
  }

  /** The two scalars of a block of the resources. */
  method ReadBlock(resources: Node, block: string) returns (cpus: string, memory: string)
    requires resources.Valid()
    ensures cpus == BlockText(Some(resources.View()), block, "cpus")
    ensures memory == BlockText(Some(resources.View()), block, "memory")
  {
    cpus, memory := "", "";
    var b, at := resources.Field(block);
    if b != null {
      cpus, memory := ReadPair(b);
    }
  }

  method ReadPair(b: Node) returns (cpus: string, memory: string)
    requires b.Valid()
    ensures cpus == ScalarText(b.View(), "cpus") && memory == ScalarText(b.View(), "memory")
  {
    cpus := b.ScalarValue("cpus");
    memory := b.ScalarValue("memory");
  }

  /** What `deploy.resources` adds to the legacy fields. */
  method OverrideResources(resources: Node, legacy: ResourcesCfg) returns (r: ResourcesCfg)
    requires resources.Valid()
    ensures r == ResourcesFrom(Some(resources.View()), legacy)
  {
    r := legacy;
    var c, m := ReadBlock(resources, "limits");
    if c != "" { r := r.(cpusLimit := c); }
    if m != "" { r := r.(memoryLimit := m); }
    c, m := ReadBlock(resources, "reservations");
    if c != "" { r := r.(cpusReservation := c); }
    if m != "" { r := r.(memoryReservation := m); }
  }

  /** The fields that were there before `deploy.resources`. */
  method ReadLegacy(svc: Node) returns (r: ResourcesCfg)
    requires svc.Valid()
    ensures r == LegacyResources(svc.View())
  {
    var cpus := svc.ScalarValue("cpus");
    var memLimit := svc.ScalarValue("mem_limit");
    var memReservation := svc.ScalarValue("mem_reservation");
    r := ResourcesCfg(cpus, "", memLimit, memReservation);
  }

  /** `resourcesCfgFromService`: legacy fields first, overridden by `deploy.resources`. */
  method ResourcesFromService(svc: Node) returns (r: ResourcesCfg)
    requires svc.Valid()
    ensures r == ResourcesOf(svc.View())
  {
    r := ReadLegacy(svc);
    var resources := BelowDeploy(svc, "resources");
    if resources != null {
      r := OverrideResources(resources, r);
    }
  }

  function WithAddon(m: map<string, AddonCfg>, name: string, c: AddonCfg): map<string, AddonCfg> {
    if Present(c) then m[name := c] else m
  }

  /** What the services of a mapping add to the settings, one service at a time. */
  method ExtractService(name: string, svc: Node, cfg: AddonsConfig) returns (out: AddonsConfig)
    requires svc.Valid()
    ensures Extends(cfg, out, name, svc.View())
  {
    var labels := CollectService(svc);
    var t := CfgFromLabels(Traefik, labels);
    var s := CfgFromLabels(Sablier, labels);
    var w := CfgFromLabels(Watchtower, labels);
    var b := CfgFromLabels(Backup, labels);
    var r := ResourcesFromService(svc);
    out := AddonsConfig(
      WithAddon(cfg.traefik, name, t), WithAddon(cfg.sablier, name, s),
      WithAddon(cfg.watchtower, name, w), WithAddon(cfg.backup, name, b),
      if r != NO_RESOURCES then cfg.resources[name := r] else cfg.resources);
  }

  const NO_SETTINGS := AddonsConfig(map[], map[], map[], map[], map[])

  predicate Extends(before: AddonsConfig, after: AddonsConfig, name: string, svc: Tree) {
    var m := LabelsOf(svc);
    && after.traefik == WithAddon(before.traefik, name, FromLabels(Traefik, m))
    && after.sablier == WithAddon(before.sablier, name, FromLabels(Sablier, m))
    && after.watchtower == WithAddon(before.watchtower, name, FromLabels(Watchtower, m))
    && after.backup == WithAddon(before.backup, name, FromLabels(Backup, m))
    && after.resources == if ResourcesOf(svc) != NO_RESOURCES
                          then before.resources[name := ResourcesOf(svc)] else before.resources
  }

  predicate Next(before: AddonsConfig, e: Entry, after: AddonsConfig) {
    if e.val.Mapping? then Extends(before, after, Value(e.key), e.val) else after == before
  }

  /** One more entry of the services mapping. */
  lemma ExtractOneMore(es: seq<Entry>, at: nat, before: AddonsConfig, out: AddonsConfig)
    requires at < |es| && before == ExtractServices(es[..at]) && Next(before, es[at], out)
    ensures out == ExtractServices(es[..at + 1])
  {
    assert es[..at + 1][..at] == es[..at];
  }

  method ExtractEntry(key: Node, svc: Node, cfg: AddonsConfig, ghost e: Entry) returns (out: AddonsConfig)
    requires svc.Valid() && key.value == Value(e.key) && e.val == svc.View()
    ensures Next(cfg, e, out)
  {
    out := cfg;
    if svc.kind == MappingNode {
      out := ExtractService(key.value, svc, cfg);
    }
  }

  method ExtractAt(services: Node, i: nat, cfg: AddonsConfig, ghost at: nat, ghost es: seq<Entry>)
    returns (out: AddonsConfig)
    requires services.Valid() && services.kind == MappingNode && es == Pairs(services.views)
    requires i == 2 * at && at < |es|
    ensures Next(cfg, es[at], out)
  {
    services.EntryAt(at);
    out := ExtractEntry(services.content[i], services.content[i + 1], cfg, es[at]);
  }

  method ExtractFromServices(services: Node) returns (cfg: AddonsConfig)
    requires services.Valid() && services.kind == MappingNode
    ensures cfg == ExtractServices(Pairs(services.views))
  {
    cfg := NO_SETTINGS;
    ghost var es, at := Pairs(services.views), 0;
    assert |services.content| == 2 * |es|;
    var i := 0;
    while i < |services.content|
      invariant i == 2 * at && at <= |es|
      invariant cfg == ExtractServices(es[..at])
    {
      ghost var before := cfg;
      cfg := ExtractAt(services, i, cfg, at, es);
      ExtractOneMore(es, at, before, cfg);
      i := i + 2;
      at := at + 1;
    }
    assert es[..at] == es;
  }

  /** `extractAddonConfig`, after parsing. */
  method ExtractAddonConfig(root: Node) returns (cfg: AddonsConfig)
    requires root.Valid()
    ensures cfg == match root.View()
      case Document(ts) => if ts == [] then NO_SETTINGS else Extract(ts[0])
      case doc => Extract(doc)
  {
    var doc := root;
    if root.kind == DocumentNode {
      if |root.content| == 0 {
        return NO_SETTINGS;
      }
      doc := root.content[0];
    }
    var services, at := doc.Field("services");
    if services == null || services.kind != MappingNode {
      return NO_SETTINGS;
    }
    cfg := ExtractFromServices(services);
  }
}
