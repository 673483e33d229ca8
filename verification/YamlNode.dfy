/** YAML nodes as the source edits them: objects that are rewritten in place.
    `View()` is the value a node stands for, `repr` the nodes below and including it,
    `views` the values of its children. */
module YamlNode {
  import opened Wrappers
  import opened YamlTree

  datatype Kind = DocumentNode | MappingNode | SequenceNode | ScalarNode | AliasNode

  /** Key and value nodes alternate in the content of a mapping. */
  function Pairs(ts: seq<Tree>): (es: seq<Entry>)
    ensures |es| == |ts| / 2
    ensures forall i :: 0 <= i < |es| ==> es[i] == Entry(ts[2 * i], ts[2 * i + 1])
  {
    seq(|ts| / 2, i requires 0 <= i < |ts| / 2 => Entry(ts[2 * i], ts[2 * i + 1]))
  }

  lemma PairsUpdate(ts: seq<Tree>, at: nat, v: Tree)
    requires 2 * at + 1 < |ts|
    ensures Pairs(ts[2 * at + 1 := v]) == Pairs(ts)[at := Entry(Pairs(ts)[at].key, v)]
  {
  }

  /** Replacing the value of the first field called `key`. */
  lemma PairsPut(ts: seq<Tree>, key: string, at: nat, v: Tree)
    requires 2 * at + 1 < |ts| && at == FieldAt(Pairs(ts), key)
    ensures Mapping(Pairs(ts[2 * at + 1 := v])) == Put(Mapping(Pairs(ts)), key, v)
    ensures FieldAt(Pairs(ts[2 * at + 1 := v]), key) == at
  {
    PairsUpdate(ts, at, v);
    FieldAtIs(Pairs(ts)[at := Entry(Pairs(ts)[at].key, v)], key, at);
  }

  lemma PairsAppend(ts: seq<Tree>, k: Tree, v: Tree)
    requires |ts| % 2 == 0
    ensures Pairs(ts + [k, v]) == Pairs(ts) + [Entry(k, v)]
  {
  }

  lemma PairsRemove(ts: seq<Tree>, at: nat)
    requires 2 * at + 1 < |ts|
    ensures Pairs(ts[..2 * at] + ts[2 * at + 2..]) == Pairs(ts)[..at] + Pairs(ts)[at + 1..]
  {
  }

  function Build(kind: Kind, value: string, ts: seq<Tree>): Tree {
    match kind
    case DocumentNode => Document(ts)
    case MappingNode => Mapping(Pairs(ts))
    case SequenceNode => Sequence(ts)
    case ScalarNode => Scalar(value)
    case AliasNode => Alias(value)
  }

  class Node {
    var kind: Kind
    var value: string
    var comment: string
    var content: seq<Node>
    ghost var views: seq<Tree>
    ghost var repr: set<Node>

    ghost function View(): Tree
      reads this
    {
      Build(kind, value, views)
    }

    /** Containers carry no value, leaves no content, and mappings come in pairs. */
    ghost predicate Shape()
      reads this
    {
      && |views| == |content|
      && (kind == MappingNode ==> |content| % 2 == 0)
      && (if kind == ScalarNode || kind == AliasNode then content == [] else value == "")
    }

    ghost predicate Valid()
      reads this, repr
      decreases repr
    {
      && this in repr && Shape()
      && (forall i :: 0 <= i < |content| ==>
        && content[i] in repr && content[i].repr <= repr && this !in content[i].repr
        && content[i].Valid() && views[i] == content[i].View())
      && (forall i, j :: 0 <= i < j < |content| ==> content[i].repr !! content[j].repr)
    }

    constructor (kind: Kind, value: string)
      requires kind == MappingNode ==> value == ""
      requires kind == MappingNode || kind == ScalarNode
      ensures Valid() && fresh(repr)
      ensures View() == Build(kind, value, [])
    {
      this.kind := kind;
      this.value := value;
      comment, content := "", [];
      views := [];
      repr := {this};
    }

    /** Everything `Valid` asks, except that child `at` may have moved on from `views`
        and grown beyond `repr`. */
    ghost predicate ValidBut(at: nat)
      reads this, repr, content, set c, n | c in content && n in c.repr :: n
    {
      && this in repr && Shape() && at < |content|
      && (forall i :: 0 <= i < |content| ==> this !in content[i].repr && content[i].Valid())
      && (forall i :: 0 <= i < |content| && i != at ==>
        content[i] in repr && content[i].repr <= repr && views[i] == content[i].View())
      && (forall i, j :: 0 <= i < j < |content| ==> content[i].repr !! content[j].repr)
    }

    /** An edit confined to child `at` and to new nodes leaves only that child unsettled. */
    twostate lemma OnlyChildMoved(at: nat)
      requires old(Valid()) && unchanged(this) && at < |content|
      requires forall n :: n in old(repr) && n !in old(content[at].repr) ==> unchanged(n)
      requires content[at].Valid() && fresh(content[at].repr - old(content[at].repr))
      ensures ValidBut(at)
    {
      forall i | 0 <= i < |content| && i != at
        ensures content[i].Valid() && content[i].repr == old(content[i].repr)
        ensures content[i].View() == old(content[i].View())
      {
        assert old(content[i].Valid());
      }
      assert forall n :: n in content[at].repr ==> n in old(content[at].repr) || fresh(n);
    }

    /** Records what became of child `at`. */
    ghost method Settle(at: nat)
      requires ValidBut(at)
      modifies this`views, this`repr
      ensures Valid() && repr == old(repr) + content[at].repr
      ensures views == old(views)[at := content[at].View()]
    {
      views := views[at := content[at].View()];
      repr := repr + content[at].repr;
    }

    lemma EntryAt(at: nat)
      requires Valid() && kind == MappingNode && at < |Pairs(views)|
      ensures 2 * at + 1 < |content|
      ensures Pairs(views)[at] == Entry(content[2 * at].View(), content[2 * at + 1].View())
      ensures content[2 * at].value == Value(views[2 * at]) == Value(Pairs(views)[at].key)
      ensures content[2 * at + 1].Valid()
    {
      assert content[2 * at].Valid() && content[2 * at + 1].Valid();
    }

    /** `n` is the value node of the first field called `key`. */
    ghost predicate Holds(key: string, n: Node, at: nat)
      reads this
    {
      && kind == MappingNode && at == FieldAt(Pairs(views), key)
      && 2 * at + 1 < |content| && n == content[2 * at + 1]
    }

    lemma FieldView(key: string, child: Node, at: nat)
      requires Valid() && Holds(key, child, at)
      ensures child.Valid() && child.repr <= repr && this !in child.repr
      ensures Get(View(), key) == Some(child.View())
    {
      EntryAt(at);
    }

    /** `mappingFieldNode`: the node of the first field called `key`. */
    method Field(key: string) returns (n: Node?, ghost at: nat)
      requires Valid()
      ensures n == null <==> Get(View(), key) == None
      ensures n != null ==> Holds(key, n, at) && n.Valid() && Get(View(), key) == Some(n.View())
    {
      n, at := null, 0;
      if kind != MappingNode {
        return;
      }
      ghost var es := Pairs(views);
      assert |content| == 2 * |es|;
      var i := 0;
      while i < |content|
        invariant i == 2 * at && at <= |es|
        invariant forall j :: 0 <= j < at ==> Value(es[j].key) != key
      {
        EntryAt(at);
        if content[i].value == key {
          FieldAtIs(es, key, at);
          return content[i + 1], at;
        }
        i := i + 2;
        at := at + 1;
      }
      FieldAtIs(es, key, at);
      return null, 0;
    }

    /** The comment above the value of the first field called `key`, if there is one. */
    ghost function FieldComment(key: string): string
      requires Valid()
      reads this, repr
    {
      var at := FieldAt(Pairs(views), key);
      if kind == MappingNode && 2 * at + 1 < |content| then content[2 * at + 1].comment else ""
    }

    /** The same below the value of entry `k`. */
    ghost function CommentBelow(k: nat, key: string): string
      requires Valid() && 2 * k + 1 < |content|
      reads this, repr
    {
      content[2 * k + 1].FieldComment(key)
    }

    /** An edit confined to child `at` leaves the comments below the other entries alone. */
    twostate lemma OtherComments(at: nat, new key: string)
      requires old(Valid()) && content == old(content) && at < |content|
      requires forall n :: n in old(repr) && n != this && n !in old(content[at].repr) ==> unchanged(n)
      ensures Valid() ==> forall k :: 0 <= k && 2 * k + 1 < |content| && 2 * k + 1 != at ==>
        CommentBelow(k, key) == old(CommentBelow(k, key))
    {
      forall k | Valid() && 0 <= k && 2 * k + 1 < |content| && 2 * k + 1 != at
        ensures CommentBelow(k, key) == old(CommentBelow(k, key))
      {
        var child := content[2 * k + 1];
        assert old(child.Valid());
        assert forall n :: n in old(child.repr) ==> unchanged(n);
      }
    }

    /** `append(parent.Content, k, v)` with a new key node. */
    method AddField(key: string, v: Node) returns (ghost at: nat)
      requires Valid() && kind == MappingNode && v.Valid() && v.repr !! repr
      modifies this
      ensures Valid() && kind == MappingNode && |content| == |old(content)| + 2
      ensures at == |Pairs(old(views))| && content[2 * at + 1] == v && content[..2 * at] == old(content)
      ensures repr >= old(repr) && fresh(repr - old(repr) - v.repr)
      ensures View() == Mapping(Pairs(old(views)) + [Entry(Scalar(key), v.View())])
    {
      var k := new Node(ScalarNode, key);
      at := |Pairs(views)|;
      PairsAppend(views, k.View(), v.View());
      AddPair(k, v);
    }

    method AddPair(k: Node, v: Node)
      requires Valid() && kind == MappingNode && k.Valid() && v.Valid()
      requires k.repr !! repr && v.repr !! repr && k.repr !! v.repr
      modifies this`content, this`views, this`repr
      ensures Valid() && content == old(content) + [k, v] && views == old(views) + [k.View(), v.View()]
      ensures repr == old(repr) + k.repr + v.repr
    {
      ghost var n := |content|;
      content := content + [k, v];
      views := views + [k.View(), v.View()];
      repr := repr + k.repr + v.repr;
      forall i | 0 <= i < |content|
        ensures content[i] in repr && content[i].repr <= repr && this !in content[i].repr
        ensures content[i].Valid() && views[i] == content[i].View()
      {
        if i < n { assert content[i] == old(content)[i] && old(content[i].Valid()); }
      }
    }

    /** The same for a field that is not there yet. */
    method AddNewField(key: string, v: Node) returns (ghost at: nat)
      requires Valid() && kind == MappingNode && v.Valid() && v.repr !! repr
      requires Get(View(), key) == None
      modifies this
      ensures Valid() && Holds(key, v, at)
      ensures repr >= old(repr) && fresh(repr - old(repr) - v.repr)
      ensures View() == Put(old(View()), key, v.View())
    {
      at := AddField(key, v);
      FieldAtIs(Pairs(views), key, at);
    }

    /** Turns whatever the node was into an empty mapping. */
    method BecomeMapping()
      requires Valid()
      modifies this
      ensures Valid() && repr == old(repr) && kind == MappingNode && View() == Mapping([])
    {
      kind, value, content := MappingNode, "", [];
      views := [];
    }

    /** After an edit inside the value of field `key`, the field has that node's value. */
    ghost method SettleField(key: string, child: Node, at: nat)
      requires ValidBut(2 * at + 1) && Holds(key, child, at)
      modifies this`views, this`repr
      ensures Valid() && Holds(key, child, at) && repr == old(repr) + child.repr
      ensures View() == Put(old(View()), key, child.View())
    {
      PairsPut(views, key, at, child.View());
      Settle(2 * at + 1);
    }

    /** Field `key` becomes an empty mapping. */
    method ResetField(key: string, child: Node, ghost at: nat)
      requires Valid() && Holds(key, child, at)
      modifies child, this`views, this`repr
      ensures Valid() && Holds(key, child, at) && child.kind == MappingNode
      ensures repr == old(repr) && View() == Put(old(View()), key, Mapping([]))
    {
      child.BecomeMapping();
      OnlyChildMoved(2 * at + 1);
      SettleField(key, child, at);
    }

    /** A new field with an empty mapping. */
    method AddMapping(key: string) returns (child: Node, ghost at: nat)
      requires Valid() && kind == MappingNode && Get(View(), key) == None
      modifies this
      ensures Valid() && kind == MappingNode && repr >= old(repr) && fresh(repr - old(repr))
      ensures Holds(key, child, at) && child.kind == MappingNode
      ensures View() == Put(old(View()), key, Mapping([]))
    {
      child := new Node(MappingNode, "");
      at := AddNewField(key, child);
    }

    /** A new field with a scalar. */
    method AddText(key: string, text: string)
      requires Valid() && kind == MappingNode && Get(View(), key) == None
      modifies this
      ensures Valid() && kind == MappingNode && repr >= old(repr) && fresh(repr - old(repr))
      ensures View() == Put(old(View()), key, Scalar(text))
    {
      var child := new Node(ScalarNode, text);
      var at := AddNewField(key, child);
    }

    /** The field that is there becomes a mapping, unless it is one. */
    method MakeMapping(key: string, child: Node, ghost at: nat)
      requires Valid() && Holds(key, child, at) && child.Valid() && Get(View(), key) == Some(child.View())
      modifies child, this`views, this`repr
      ensures Valid() && Holds(key, child, at) && child.kind == MappingNode && repr == old(repr)
      ensures View() == Put(old(View()), key, AsMapping(Some(old(child.View()))))
    {
      if child.kind == MappingNode {
        PutSame(View(), key);
      } else {
        ResetField(key, child, at);
      }
    }

    /** `ensureMappingChild`: the mapping below `key`, made if it is absent and emptied
        if something else is there. */
    method EnsureMapping(key: string) returns (child: Node?, ghost at: nat)
      requires Valid()
      modifies repr
      ensures Valid() && kind == old(kind) && repr >= old(repr) && fresh(repr - old(repr))
      ensures View() == Put(old(View()), key, AsMapping(Get(old(View()), key)))
      ensures child != null <==> kind == MappingNode
      ensures child != null ==> Holds(key, child, at) && child.kind == MappingNode
    {
      if kind != MappingNode {
        return null, 0;
      }
      child, at := Field(key);
      if child == null {
        child, at := AddMapping(key);
        return;
      }
      FieldView(key, child, at);
      MakeMapping(key, child, at);
    }

    /** Cuts the key and value nodes of field `at` out of the content. */
    method CutField(i: nat, ghost at: nat)
      requires Valid() && kind == MappingNode && i == 2 * at && i + 1 < |content|
      modifies this`content, this`views
      ensures Valid() && View() == Mapping(Pairs(old(views))[..at] + Pairs(old(views))[at + 1..])
    {
      PairsRemove(views, at);
      ghost var trees := views;
      ghost var picked := seq(|content| - 2, j => if j < i then j else j + 2);
      Retain(content[..i] + content[i + 2..], picked);
      assert views == trees[..i] + trees[i + 2..];
    }

    /** Where the first field called `key` starts in the content. */
    method FindField(key: string) returns (i: nat, ghost at: nat)
      requires Valid() && kind == MappingNode
      ensures i == 2 * at && at == FieldAt(Pairs(views), key)
    {
      ghost var es := Pairs(views);
      assert |content| == 2 * |es|;
      i, at := 0, 0;
      while i < |content|
        invariant i == 2 * at && at <= |es|
        invariant forall j :: 0 <= j < at ==> Value(es[j].key) != key
      {
        EntryAt(at);
        if content[i].value == key {
          break;
        }
        i := i + 2;
        at := at + 1;
      }
      if at < |es| { EntryAt(at); }
      FieldAtIs(es, key, at);
    }

    /** `removeMappingChild`: drops the first field called `key`. */
    method RemoveField(key: string)
      requires Valid()
      modifies this`content, this`views
      ensures Valid() && View() == Drop(old(View()), key)
    {
      if kind != MappingNode {
        return;
      }
      var i, at := FindField(key);
      assert |content| == 2 * |Pairs(views)|;
      if i < |content| {
        CutField(i, at);
      }
    }

    /** `node.Value = text` and `node.HeadComment = note` on a scalar. */
    method WriteScalar(text: string, note: string)
      requires Valid() && kind == ScalarNode
      modifies this`value, this`comment
      ensures Valid() && View() == Scalar(text) && comment == note
    {
      value, comment := text, note;
    }

    lemma CommentIs(key: string, child: Node, at: nat)
      requires Valid() && Holds(key, child, at)
      ensures FieldComment(key) == child.comment
    {
    }

    /** Turns whatever the node was into a scalar. */
    method BecomeScalar(text: string)
      requires Valid()
      modifies this
      ensures Valid() && repr == old(repr) && View() == Scalar(text)
    {
      kind, value, content := ScalarNode, text, [];
      views := [];
    }

    /** Field `key` becomes a scalar. */
    method SetText(key: string, child: Node, ghost at: nat, text: string)
      requires Valid() && Holds(key, child, at)
      modifies child, this`views, this`repr
      ensures Valid() && kind == old(kind)
      ensures repr == old(repr) && View() == Put(old(View()), key, Scalar(text))
    {
      child.BecomeScalar(text);
      OnlyChildMoved(2 * at + 1);
      SettleField(key, child, at);
    }

    /** `setOrRemoveScalar`: writes the text, or removes the field when there is none. */
    method SetOrRemoveScalar(key: string, text: string)
      requires Valid()
      modifies repr
      ensures Valid() && kind == old(kind) && repr >= old(repr) && fresh(repr - old(repr))
      ensures View() == if text == "" then Drop(old(View()), key) else Put(old(View()), key, Scalar(text))
    {
      if kind != MappingNode {
        return;
      }
      if text == "" {
        RemoveField(key);
        return;
      }
      var child, at := Field(key);
      if child == null {
        AddText(key, text);
      } else {
        SetText(key, child, at, text);
      }
    }

    /** `scalarValue`: the text of a scalar field, or nothing. */
    method ScalarValue(key: string) returns (text: string)
      requires Valid()
      ensures text == match Get(View(), key) case Some(Scalar(s)) => s case _ => ""
    {
      var n, at := Field(key);
      text := if n != null && n.kind == ScalarNode then n.value else "";
    }

    /** `append(node.Content, item)` on a sequence. */
    method AddItem(item: Node)
      requires Valid() && kind == SequenceNode && item.Valid() && item.repr !! repr
      modifies this
      ensures Valid() && kind == SequenceNode && View() == Sequence(old(views) + [item.View()])
      ensures repr == old(repr) + item.repr
    {
      content := content + [item];
      views := views + [item.View()];
      repr := repr + item.repr;
      forall i | 0 <= i < |content|
        ensures content[i] in repr && content[i].repr <= repr && this !in content[i].repr
        ensures content[i].Valid() && views[i] == content[i].View()
      {
        if i < |old(content)| { assert content[i] == old(content)[i] && old(content[i].Valid()); }
      }
    }

    /** `node.Content = kept`, where `kept` is what `picked` selects of the old content. */
    method Retain(kept: seq<Node>, ghost picked: seq<int>)
      requires Valid() && (kind == MappingNode || kind == SequenceNode)
      requires kind == MappingNode ==> |kept| % 2 == 0
      requires |picked| == |kept|
      requires forall i :: 0 <= i < |picked| ==> 0 <= picked[i] < |content| && kept[i] == content[picked[i]]
      requires forall i, j :: 0 <= i < j < |picked| ==> picked[i] < picked[j]
      modifies this`content, this`views
      ensures Valid() && |views| == |kept|
      ensures forall i :: 0 <= i < |kept| ==> views[i] == old(views)[picked[i]]
    {
      ghost var was := views;
      content := kept;
      views := seq(|kept|, i requires 0 <= i < |kept| => was[picked[i]]);
      forall i | 0 <= i < |content|
        ensures content[i] in repr && content[i].repr <= repr && this !in content[i].repr
        ensures content[i].Valid() && views[i] == content[i].View()
      {
        assert old(content[picked[i]].Valid());
      }
    }
  }
}
