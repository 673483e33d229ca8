/** The value a YAML node stands for, and field access on mappings. Tags, comments
    and scalar styles are left to the text encoder. */
module YamlTree {
  import opened Wrappers

  datatype Tree =
    | Document(children: seq<Tree>)
    | Mapping(entries: seq<Entry>)
    | Sequence(items: seq<Tree>)
    | Scalar(text: string)
    | Alias(anchor: string)

  datatype Entry = Entry(key: Tree, val: Tree)

  /** What `node.Value` holds: text for scalars and aliases, nothing for containers. */
  function Value(t: Tree): string {
    match t
    case Scalar(s) => s
    case Alias(s) => s
    case _ => ""
  }

  /** The position of the first entry called `key`, or `|es|`. */
  function FieldAt(es: seq<Entry>, key: string): (i: nat)
    ensures i <= |es|
    ensures forall j :: 0 <= j < i ==> Value(es[j].key) != key
    ensures i < |es| ==> Value(es[i].key) == key
  {
    if es == [] then 0
    else if Value(es[0].key) == key then 0
    else 1 + FieldAt(es[1..], key)
  }

  lemma FieldAtIs(es: seq<Entry>, key: string, i: nat)
    requires i <= |es|
    requires forall j :: 0 <= j < i ==> Value(es[j].key) != key
    requires i < |es| ==> Value(es[i].key) == key
    ensures FieldAt(es, key) == i
  {
  }

  function Get(t: Tree, key: string): Option<Tree> {
    if t.Mapping? && FieldAt(t.entries, key) < |t.entries|
    then Some(t.entries[FieldAt(t.entries, key)].val)
    else None
  }

  function PutEntry(es: seq<Entry>, key: string, v: Tree): seq<Entry> {
    var i := FieldAt(es, key);
    if i < |es| then es[i := Entry(es[i].key, v)] else es + [Entry(Scalar(key), v)]
  }

  /** Replaces the first field called `key`, or appends one. */
  function Put(t: Tree, key: string, v: Tree): Tree {
    if t.Mapping? then Mapping(PutEntry(t.entries, key, v)) else t
  }

  /** Removes the first field called `key`. */
  function Drop(t: Tree, key: string): Tree {
    if Get(t, key).Some?
    then var i := FieldAt(t.entries, key); Mapping(t.entries[..i] + t.entries[i + 1..])
    else t
  }

  /** What `ensureMappingChild` makes of a field: a mapping stays, anything else is emptied. */
  function AsMapping(t: Option<Tree>): Tree {
    if t.Some? && t.value.Mapping? then t.value else Mapping([])
  }

  ghost predicate UniqueFields(t: Tree) {
    t.Mapping? ==>
      forall i, j :: 0 <= i < j < |t.entries| ==> Value(t.entries[i].key) != Value(t.entries[j].key)
  }

  lemma GetPut(t: Tree, key: string, v: Tree)
    requires t.Mapping?
    ensures Get(Put(t, key, v), key) == Some(v)
  {
    FieldAtIs(Put(t, key, v).entries, key, FieldAt(t.entries, key));
  }

  lemma GetPutOther(t: Tree, key: string, v: Tree, other: string)
    requires key != other
    ensures Get(Put(t, key, v), other) == Get(t, other)
  {
    if t.Mapping? {
      var es, es' := t.entries, Put(t, key, v).entries;
      var i := FieldAt(es, other);
      if i < |es| {
        FieldAtIs(es', other, i);
      } else {
        FieldAtIs(es', other, |es'|);
      }
    }
  }

  /** A write keeps the order of the fields: it changes the one that is there, or adds one at the end. */
  lemma PutInPlace(t: Tree, key: string, v: Tree, i: nat)
    requires t.Mapping? && i < |t.entries|
    ensures var es, es' := t.entries, Put(t, key, v).entries;
      && |es'| == |es| + (if Get(t, key).Some? then 0 else 1)
      && es'[i].key == es[i].key && (Value(es[i].key) != key ==> es'[i] == es[i])
  {
  }

  /** A removal takes out one field and closes the gap. */
  lemma DropInPlace(t: Tree, key: string) returns (at: nat)
    requires t.Mapping? && Get(t, key).Some?
    ensures at < |t.entries| && Value(t.entries[at].key) == key
    ensures forall i :: 0 <= i < at ==> Value(t.entries[i].key) != key
    ensures Drop(t, key) == Mapping(t.entries[..at] + t.entries[at + 1..])
  {
    at := FieldAt(t.entries, key);
  }

  lemma PutPut(t: Tree, key: string, v: Tree, w: Tree)
    ensures Put(Put(t, key, v), key, w) == Put(t, key, w)
  {
    if t.Mapping? {
      var i, es, es' := FieldAt(t.entries, key), t.entries, PutEntry(t.entries, key, v);
      FieldAtIs(es', key, i);
      assert PutEntry(es', key, w) == PutEntry(es, key, w) by {
        if i < |es| { assert es'[i].key == es[i].key; }
      }
    }
  }

  lemma PutSame(t: Tree, key: string)
    requires Get(t, key).Some?
    ensures Put(t, key, Get(t, key).value) == t
  {
    var i := FieldAt(t.entries, key);
    assert t.entries[i] == Entry(t.entries[i].key, t.entries[i].val);
  }

  lemma PutSwap(t: Tree, key: string, v: Tree, other: string, w: Tree)
    requires key != other && Get(t, other).Some?
    ensures Put(Put(t, key, v), other, w) == Put(Put(t, other, w), key, v)
  {
    var es, i, j := t.entries, FieldAt(t.entries, key), FieldAt(t.entries, other);
    var esk, eso := PutEntry(es, key, v), PutEntry(es, other, w);
    FieldAtIs(esk, other, j);
    FieldAtIs(eso, key, i);
    assert |esk[j := Entry(esk[j].key, w)]| == |PutEntry(eso, key, v)|;
    assert esk[j := Entry(esk[j].key, w)] == PutEntry(eso, key, v);
  }

  lemma GetDropOther(t: Tree, key: string, other: string)
    requires key != other
    ensures Get(Drop(t, key), other) == Get(t, other)
  {
    if Get(t, key).Some? {
      var es, es' := t.entries, Drop(t, key).entries;
      var k, i := FieldAt(es, key), FieldAt(es, other);
      FieldAtIs(es', other, if i > k then i - 1 else i);
    }
  }

  lemma GetDrop(t: Tree, key: string)
    requires UniqueFields(t)
    ensures Get(Drop(t, key), key) == None
  {
    if Get(t, key).Some? {
      FieldAtIs(Drop(t, key).entries, key, |t.entries| - 1);
    }
  }

  lemma DropUnique(t: Tree, key: string)
    requires UniqueFields(t)
    ensures UniqueFields(Drop(t, key))
  {
  }

  lemma PutUnique(t: Tree, key: string, v: Tree)
    requires UniqueFields(t)
    ensures UniqueFields(Put(t, key, v))
  {
  }
}
