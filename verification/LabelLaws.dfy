/** Laws of a single labels node: what purging, writing and reading do to each other,
    in both shapes. */
module LabelLaws {
  import opened Wrappers
  import opened Text
  import opened YamlTree
  import opened AddonSpec

  function At<V>(m: map<string, V>, k: string): Option<V> {
    if k in m then Some(m[k]) else None
  }

  /** Only prefixes the addons claim. */
  ghost predicate AddonPrefixes(ps: seq<string>) {
    forall p :: p in ps ==> exists a: Addon :: p == Prefix(a)
  }

  ghost predicate AllOwned(m: Labels, ps: seq<string>) {
    forall k :: k in m ==> Owned(k, ps)
  }

  lemma PrefixFacts(a: Addon)
    ensures |Prefix(a)| >= 7 && '=' !in Prefix(a)
  {
  }

  lemma PrefixBeforeEquals(k: string, ps: seq<string>)
    requires AddonPrefixes(ps)
    ensures Owned(k[..IndexOf(k, '=')], ps) <==> Owned(k, ps)
    ensures Owned(k, ps) ==> k != ""
  {
    var i := IndexOf(k, '=');
    forall p | p in ps
      ensures p <= k[..i] <==> p <= k
      ensures p != ""
    {
      var a :| p == Prefix(a);
      PrefixFacts(a);
      assert forall j :: 0 <= j < |p| ==> p[j] in p;
    }
  }

  /** The key of the item `writeLabels` emits is the key up to its first "=". */
  lemma SplitWritten(k: string, v: string)
    ensures SplitLabel(Scalar(k + "=" + v)).0 == k[..IndexOf(k, '=')]
    ensures '=' !in k ==> SplitLabel(Scalar(k + "=" + v)) == (k, v)
    ensures '=' !in SplitLabel(Scalar(k + "=" + v)).0
  {
    var i := IndexOf(k, '=');
    var rest := if i < |k| then k[i + 1..] + "=" + v else v;
    CutAtEquals(k, v, rest);
    IndexOfAfter(k[..i], '=', rest);
    if '=' !in k {
      assert i == |k| && k[..i] == k;
    }
  }

  lemma CutAtEquals(k: string, v: string, rest: string)
    requires rest == if IndexOf(k, '=') < |k| then k[IndexOf(k, '=') + 1..] + "=" + v else v
    ensures k + "=" + v == k[..IndexOf(k, '=')] + ['='] + rest
  {
    var i := IndexOf(k, '=');
    if i < |k| {
      CutAt(k, i, "=", v);
    } else {
      assert k == k[..i];
    }
  }

  lemma CutAt<T>(s: seq<T>, i: nat, mid: seq<T>, end: seq<T>)
    requires i < |s|
    ensures s + mid + end == s[..i] + [s[i]] + (s[i + 1..] + mid + end)
  {
    assert s == s[..i] + [s[i]] + s[i + 1..];
  }

  // ---------- purging ----------

  lemma {:induction false} KeepEntriesConcat(a: seq<Entry>, b: seq<Entry>, ps: seq<string>)
    ensures KeepEntries(a + b, ps) == KeepEntries(a, ps) + KeepEntries(b, ps)
  {
    if a == [] {
      assert a + b == b;
    } else {
      assert (a + b)[0] == a[0] && (a + b)[1..] == a[1..] + b;
      KeepEntriesConcat(a[1..], b, ps);
    }
  }

  lemma {:induction false} KeepItemsConcat(a: seq<Tree>, b: seq<Tree>, ps: seq<string>)
    ensures KeepItems(a + b, ps) == KeepItems(a, ps) + KeepItems(b, ps)
  {
    if a == [] {
      assert a + b == b;
    } else {
      assert (a + b)[0] == a[0] && (a + b)[1..] == a[1..] + b;
      KeepItemsConcat(a[1..], b, ps);
    }
  }

  lemma {:induction false} NoEntriesKept(es: seq<Entry>, ps: seq<string>)
    requires forall e :: e in es ==> Owned(Value(e.key), ps)
    ensures KeepEntries(es, ps) == []
  {
    if es != [] {
      assert es[0] in es;
      NoEntriesKept(es[1..], ps);
    }
  }

  lemma {:induction false} NoItemsKept(ts: seq<Tree>, ps: seq<string>)
    requires forall t :: t in ts ==> Owned(SplitLabel(t).0, ps)
    ensures KeepItems(ts, ps) == []
  {
    if ts != [] {
      assert ts[0] in ts;
      NoItemsKept(ts[1..], ps);
    }
  }

  /** A purge undoes a write to the purged namespaces. */
  lemma StripWrite(t: Tree, ps: seq<string>, m: Labels)
    requires AddonPrefixes(ps) && AllOwned(m, ps)
    ensures Strip(Write(t, m), ps) == Strip(t, ps)
  {
    var keys := SortedKeys(m.Keys);
    match t
    case Mapping(es) =>
      KeepEntriesConcat(es, EntriesOf(keys, m), ps);
      NoEntriesKept(EntriesOf(keys, m), ps);
    case Sequence(ts) =>
      KeepItemsConcat(ts, ItemsOf(keys, m), ps);
      forall i | 0 <= i < |keys|
        ensures Owned(SplitLabel(ItemsOf(keys, m)[i]).0, ps)
      {
        SplitWritten(keys[i], m[keys[i]]);
        PrefixBeforeEquals(keys[i], ps);
      }
      NoItemsKept(ItemsOf(keys, m), ps);
    case _ =>
  }

  ghost predicate Within(ps: seq<string>, qs: seq<string>) {
    forall p :: p in ps ==> p in qs
  }

  /** A wider purge absorbs a narrower one; in particular purging twice is purging once. */
  lemma StripStrip(t: Tree, ps: seq<string>, qs: seq<string>)
    requires Within(ps, qs)
    ensures Strip(Strip(t, ps), qs) == Strip(t, qs)
  {
    match t
    case Mapping(es) => KeepEntriesTwice(es, ps, qs);
    case Sequence(ts) => KeepItemsTwice(ts, ps, qs);
    case _ =>
  }

  lemma OwnedWithin(key: string, ps: seq<string>, qs: seq<string>)
    requires Within(ps, qs) && Owned(key, ps)
    ensures Owned(key, qs)
  {
  }

  lemma {:induction false} KeepEntriesTwice(es: seq<Entry>, ps: seq<string>, qs: seq<string>)
    requires Within(ps, qs)
    ensures KeepEntries(KeepEntries(es, ps), qs) == KeepEntries(es, qs)
  {
    if es != [] {
      KeepEntriesTwice(es[1..], ps, qs);
      if Owned(Value(es[0].key), ps) {
        OwnedWithin(Value(es[0].key), ps, qs);
      } else {
        assert KeepEntries(es, ps)[1..] == KeepEntries(es[1..], ps);
      }
    }
  }

  lemma {:induction false} KeepItemsTwice(ts: seq<Tree>, ps: seq<string>, qs: seq<string>)
    requires Within(ps, qs)
    ensures KeepItems(KeepItems(ts, ps), qs) == KeepItems(ts, qs)
  {
    if ts != [] {
      KeepItemsTwice(ts[1..], ps, qs);
      if Owned(SplitLabel(ts[0]).0, ps) {
        OwnedWithin(SplitLabel(ts[0]).0, ps, qs);
      } else {
        assert KeepItems(ts, ps)[1..] == KeepItems(ts[1..], ps);
      }
    }
  }

  // ---------- reading ----------

  /** Reading after a purge: owned keys come from elsewhere, the others are as before. */
  lemma CollectStrip(t: Tree, ps: seq<string>, m: Labels, n: Labels, k: string)
    requires Owned(k, ps) || At(m, k) == At(n, k)
    ensures At(Collect(Strip(t, ps), m), k) == if Owned(k, ps) then At(m, k) else At(Collect(t, n), k)
  {
    match t
    case Mapping(es) => CollectKeptEntries(es, ps, m, n, k);
    case Sequence(ts) => CollectKeptItems(ts, ps, m, n, k);
    case _ =>
  }

  lemma {:induction false} CollectKeptEntries(es: seq<Entry>, ps: seq<string>, m: Labels, n: Labels, k: string)
    requires Owned(k, ps) || At(m, k) == At(n, k)
    ensures At(CollectEntries(KeepEntries(es, ps), m), k)
         == if Owned(k, ps) then At(m, k) else At(CollectEntries(es, n), k)
  {
    if es != [] {
      var key, val := Value(es[0].key), Value(es[0].val);
      if Owned(key, ps) {
        CollectKeptEntries(es[1..], ps, m, n[key := val], k);
      } else {
        assert KeepEntries(es, ps)[1..] == KeepEntries(es[1..], ps);
        CollectKeptEntries(es[1..], ps, m[key := val], n[key := val], k);
      }
    }
  }

  lemma {:induction false} CollectKeptItems(ts: seq<Tree>, ps: seq<string>, m: Labels, n: Labels, k: string)
    requires Owned(k, ps) || At(m, k) == At(n, k)
    ensures At(CollectItems(KeepItems(ts, ps), m), k)
         == if Owned(k, ps) then At(m, k) else At(CollectItems(ts, n), k)
  {
    if ts != [] {
      var (key, val) := SplitLabel(ts[0]);
      var n' := if key != "" then n[key := val] else n;
      if Owned(key, ps) {
        CollectKeptItems(ts[1..], ps, m, n', k);
      } else {
        assert KeepItems(ts, ps)[1..] == KeepItems(ts[1..], ps);
        CollectKeptItems(ts[1..], ps, if key != "" then m[key := val] else m, n', k);
      }
    }
  }

  lemma {:induction false} CollectEntriesConcat(a: seq<Entry>, b: seq<Entry>, into: Labels)
    ensures CollectEntries(a + b, into) == CollectEntries(b, CollectEntries(a, into))
  {
    if a == [] {
      assert a + b == b;
    } else {
      assert (a + b)[0] == a[0] && (a + b)[1..] == a[1..] + b;
      CollectEntriesConcat(a[1..], b, into[Value(a[0].key) := Value(a[0].val)]);
    }
  }

  lemma {:induction false} CollectItemsConcat(a: seq<Tree>, b: seq<Tree>, into: Labels)
    ensures CollectItems(a + b, into) == CollectItems(b, CollectItems(a, into))
  {
    if a == [] {
      assert a + b == b;
    } else {
      assert (a + b)[0] == a[0] && (a + b)[1..] == a[1..] + b;
      var (k, v) := SplitLabel(a[0]);
      CollectItemsConcat(a[1..], b, if k != "" then into[k := v] else into);
    }
  }

  lemma {:induction false} CollectNewEntries(keys: seq<string>, m: Labels, into: Labels, k: string)
    requires forall j :: j in keys ==> j in m
    ensures At(CollectEntries(EntriesOf(keys, m), into), k) == if k in keys then Some(m[k]) else At(into, k)
  {
    if keys != [] {
      assert EntriesOf(keys, m)[1..] == EntriesOf(keys[1..], m);
      CollectNewEntries(keys[1..], m, into[keys[0] := m[keys[0]]], k);
    }
  }

  lemma {:induction false} CollectNewItems(keys: seq<string>, m: Labels, into: Labels, k: string)
    requires forall j :: j in keys ==> j in m && j != "" && '=' !in j
    ensures At(CollectItems(ItemsOf(keys, m), into), k) == if k in keys then Some(m[k]) else At(into, k)
  {
    if keys != [] {
      assert ItemsOf(keys, m)[1..] == ItemsOf(keys[1..], m);
      SplitWritten(keys[0], m[keys[0]]);
      CollectNewItems(keys[1..], m, into[keys[0] := m[keys[0]]], k);
    }
  }

  /** The labels node can carry `m` and give it back. */
  predicate Carries(t: Tree, m: Labels) {
    match t
    case Mapping(_) => true
    case Sequence(_) => forall k :: k in m ==> '=' !in k
    case _ => m == map[]
  }

  /** What was written is read back, over whatever the node held. */
  lemma CollectWrite(t: Tree, m: Labels, into: Labels, k: string)
    requires Carries(t, m) && "" !in m
    ensures At(Collect(Write(t, m), into), k) == if k in m then Some(m[k]) else At(Collect(t, into), k)
  {
    var keys := SortedKeys(m.Keys);
    assert k in keys <==> k in m;
    match t
    case Mapping(es) =>
      CollectEntriesConcat(es, EntriesOf(keys, m), into);
      CollectNewEntries(keys, m, CollectEntries(es, into), k);
    case Sequence(ts) =>
      CollectItemsConcat(ts, ItemsOf(keys, m), into);
      CollectNewItems(keys, m, CollectItems(ts, into), k);
    case _ =>
  }

  /** A sequence never yields a key with "=" in it. */
  lemma {:induction false} CollectItemsKeys(ts: seq<Tree>, into: Labels, k: string)
    requires '=' in k
    ensures At(CollectItems(ts, into), k) == At(into, k)
  {
    if ts != [] {
      var (key, v) := SplitLabel(ts[0]);
      assert key != k by {
        if ts[0].Scalar? { assert key == ts[0].text[..IndexOf(ts[0].text, '=')]; }
      }
      CollectItemsKeys(ts[1..], if key != "" then into[key := v] else into, k);
    }
  }
}
