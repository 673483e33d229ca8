/** The stored versions refine the edits of a stack. */
module StackHistoryLaws {
  import opened Wrappers
  import opened StackHistorySpec

  // ---------- lists ----------

  predicate Falling(l: seq<Version>) {
    forall i, j :: 0 <= i < j < |l| ==> l[i].revision >= l[j].revision
  }

  /** Different places, different ids. */
  predicate DistinctIds(table: seq<Version>) {
    forall i, j :: 0 <= i < j < |table| ==> table[i].id != table[j].id
  }

  lemma {:induction false} InsertKeepsAll(v: Version, l: seq<Version>)
    ensures forall w :: w in Insert(v, l) <==> w == v || w in l
  {
    if l != [] && v.revision <= l[0].revision {
      InsertKeepsAll(v, l[1..]);
      assert l == [l[0]] + l[1..];
    }
  }

  /** A list holds the versions of its stack and nothing else. */
  lemma {:induction false} ListHolds(table: seq<Version>, stackId: string)
    ensures forall v :: v in List(table, stackId) <==> v in table && v.stackId == stackId
  {
    if table != [] {
      var front, v := table[..|table| - 1], table[|table| - 1];
      ListHolds(front, stackId);
      InsertKeepsAll(v, List(front, stackId));
      assert table == front + [v];
    }
  }

  lemma ListOneMore(table: seq<Version>, v: Version, stackId: string)
    ensures List(table + [v], stackId) ==
      if v.stackId == stackId then Insert(v, List(table, stackId)) else List(table, stackId)
  {
    assert (table + [v])[..|table|] == table;
  }

  lemma WithoutCons(v: Version, l: seq<Version>, ids: set<string>)
    ensures Without([v] + l, ids) == if v.id in ids then Without(l, ids) else [v] + Without(l, ids)
  {
    if l == [] {
      assert ([v] + l)[..0] == [];
    } else {
      var front, last := l[..|l| - 1], l[|l| - 1];
      WithoutCons(v, front, ids);
      assert ([v] + l)[..|l|] == [v] + front;
    }
  }

  lemma {:induction false} WithoutKeeps(table: seq<Version>, ids: set<string>)
    ensures forall v :: v in Without(table, ids) <==> v in table && v.id !in ids
    ensures DistinctIds(table) ==> DistinctIds(Without(table, ids))
  {
    if table != [] {
      var front, v := table[..|table| - 1], table[|table| - 1];
      WithoutKeeps(front, ids);
      assert table == front + [v];
    }
  }

  lemma {:induction false} WithoutNone(l: seq<Version>, ids: set<string>)
    requires forall v :: v in l ==> v.id !in ids
    ensures Without(l, ids) == l
  {
    if l != [] {
      WithoutNone(l[..|l| - 1], ids);
    }
  }

  lemma {:induction false} WithoutAll(l: seq<Version>, ids: set<string>)
    requires forall v :: v in l ==> v.id in ids
    ensures Without(l, ids) == []
  {
    if l != [] {
      WithoutAll(l[..|l| - 1], ids);
    }
  }

  lemma {:induction false} WithoutJoin(a: seq<Version>, b: seq<Version>, ids: set<string>)
    ensures Without(a + b, ids) == Without(a, ids) + Without(b, ids)
  {
    if b == [] {
      assert a + b == a;
    } else {
      WithoutJoin(a, b[..|b| - 1], ids);
      assert (a + b)[..|a + b| - 1] == a + b[..|b| - 1];
    }
  }

  lemma {:induction false} WithoutTwice(l: seq<Version>, a: set<string>, b: set<string>)
    ensures Without(Without(l, a), b) == Without(l, a + b)
  {
    if l != [] {
      var front, v := l[..|l| - 1], l[|l| - 1];
      WithoutTwice(front, a, b);
      assert (Without(front, a) + [v])[..|Without(front, a)|] == Without(front, a);
    }
  }

  lemma WithoutNothing(l: seq<Version>)
    ensures Without(l, {}) == l
  {
    WithoutNone(l, {});
  }

  /** Where a version goes depends only on the revisions around it. */
  lemma {:induction false} WithoutInsert(v: Version, l: seq<Version>, ids: set<string>)
    requires Falling(l)
    ensures Without(Insert(v, l), ids) == if v.id in ids then Without(l, ids) else Insert(v, Without(l, ids))
  {
    if l == [] {
      WithoutCons(v, l, ids);
    } else if v.revision > l[0].revision {
      WithoutCons(v, l, ids);
      WithoutKeeps(l, ids);
      assert Without(l, ids) != [] ==> Without(l, ids)[0] in l;
    } else {
      WithoutInsert(v, l[1..], ids);
      WithoutCons(l[0], Insert(v, l[1..]), ids);
      WithoutCons(l[0], l[1..], ids);
      assert l == [l[0]] + l[1..];
      var rest := Without(l[1..], ids);
      assert ([l[0]] + rest)[1..] == rest;
    }
  }

  /** Removing versions from the table removes them from the lists. */
  lemma {:induction false} ListWithout(table: seq<Version>, stackId: string, ids: set<string>)
    ensures List(Without(table, ids), stackId) == Without(List(table, stackId), ids)
  {
    if table != [] {
      var front, v := table[..|table| - 1], table[|table| - 1];
      ListWithout(front, stackId, ids);
      ListFalls(front, stackId);
      if v.stackId == stackId { WithoutInsert(v, List(front, stackId), ids); }
      if v.id !in ids { ListOneMore(Without(front, ids), v, stackId); }
    }
  }

  lemma {:induction false} InsertFalls(v: Version, l: seq<Version>)
    requires Falling(l)
    ensures Falling(Insert(v, l))
  {
    if l != [] && v.revision <= l[0].revision {
      InsertFalls(v, l[1..]);
      InsertKeepsAll(v, l[1..]);
      var r := Insert(v, l[1..]);
      forall j | 0 <= j < |r|
        ensures l[0].revision >= r[j].revision
      {
        assert r[j] in r && (r[j] == v || r[j] in l[1..]);
      }
      assert Insert(v, l) == [l[0]] + r;
      assert Falling([l[0]] + r);
    }
  }

  /** Lists go from newest to oldest, whatever is in the table. */
  lemma {:induction false} ListFalls(table: seq<Version>, stackId: string)
    ensures Falling(List(table, stackId))
  {
    if table != [] {
      var front, v := table[..|table| - 1], table[|table| - 1];
      ListFalls(front, stackId);
      if v.stackId == stackId { InsertFalls(v, List(front, stackId)); }
    }
  }

  lemma {:induction false} ListDistinct(table: seq<Version>, stackId: string)
    requires DistinctIds(table)
    ensures DistinctIds(List(table, stackId))
  {
    if table != [] {
      var front, v := table[..|table| - 1], table[|table| - 1];
      ListDistinct(front, stackId);
      ListHolds(front, stackId);
      if v.stackId == stackId { InsertDistinct(v, List(front, stackId)); }
    }
  }

  lemma {:induction false} InsertDistinct(v: Version, l: seq<Version>)
    requires DistinctIds(l) && forall w :: w in l ==> w.id != v.id
    ensures DistinctIds(Insert(v, l))
  {
    if l != [] && v.revision <= l[0].revision {
      InsertDistinct(v, l[1..]);
      InsertKeepsAll(v, l[1..]);
      var r := Insert(v, l[1..]);
      forall j | 0 <= j < |r|
        ensures l[0].id != r[j].id
      {
        assert r[j] in r;
      }
    }
  }

  /** `ComposeStackVersionPrune` keeps the newest versions of its stack and does not touch others;
      with no number to keep it prunes nothing. */
  lemma PruneKeepsNewest(table: seq<Version>, stackId: string, keep: nat, other: string)
    requires DistinctIds(table)
    ensures DistinctIds(Prune(table, stackId, keep))
    ensures forall v :: v in Prune(table, stackId, keep) ==> v in table
    ensures var l := List(table, stackId);
      List(Prune(table, stackId, keep), stackId) == if keep == 0 || |l| <= keep then l else l[..keep]
    ensures other != stackId ==> List(Prune(table, stackId, keep), other) == List(table, other)
  {
    var l := List(table, stackId);
    if 0 < keep < |l| {
      var front, back := l[..keep], l[keep..];
      ListDistinct(table, stackId);
      ListHolds(table, stackId);
      WithoutKeeps(table, Ids(back));
      ListWithout(table, stackId, Ids(back));
      SplitKeepsFront(l, front, back);
      if other != stackId { OthersStay(table, back, other); }
    }
  }

  lemma SplitKeepsFront(l: seq<Version>, front: seq<Version>, back: seq<Version>)
    requires DistinctIds(l) && l == front + back
    ensures Without(l, Ids(back)) == front
  {
    WithoutJoin(front, back, Ids(back));
    forall v | v in front
      ensures v.id !in Ids(back)
    {
      var i :| 0 <= i < |front| && front[i] == v;
      forall w | w in back
        ensures w.id != v.id
      {
        var j :| 0 <= j < |back| && back[j] == w;
        assert l[i] == v && l[|front| + j] == w;
      }
    }
    WithoutNone(front, Ids(back));
    WithoutAll(back, Ids(back));
  }

  lemma OthersStay(table: seq<Version>, gone: seq<Version>, other: string)
    requires DistinctIds(table) && forall v :: v in gone ==> v in table && v.stackId != other
    ensures List(Without(table, Ids(gone)), other) == List(table, other)
  {
    ListWithout(table, other, Ids(gone));
    ListHolds(table, other);
    forall v | v in List(table, other)
      ensures v.id !in Ids(gone)
    {
      SameIdSameVersion(table, v, gone);
    }
    WithoutNone(List(table, other), Ids(gone));
  }

  lemma SameIdSameVersion(table: seq<Version>, v: Version, l: seq<Version>)
    requires DistinctIds(table) && v in table && forall w :: w in l ==> w in table && w.stackId != v.stackId
    ensures v.id !in Ids(l)
  {
  }

  // ---------- refinement ----------

  /** The stored versions of a stack whose edits are `t`: the last of them, numbered by their place. */
  predicate Shows(l: seq<Version>, id: string, t: seq<Text>) {
    && |l| == (if |t| < RETENTION then |t| else RETENTION)
    && forall i :: 0 <= i < |l| ==>
      l[i].stackId == id && l[i].revision == |t| - i && l[i].text == t[|t| - 1 - i]
  }

  /** Each edit replaced something else than what it wrote. */
  predicate Chain(t: seq<Text>, now: Text) {
    && (forall i :: 0 <= i < |t| - 1 ==> t[i] != t[i + 1])
    && (t != [] ==> t[|t| - 1] != now)
  }

  ghost predicate Refines(s: Store) {
    && s.edits.Keys == s.stacks.Keys && DistinctIds(s.versions)
    && (forall v :: v in s.versions ==> v.stackId in s.stacks)
    && forall id :: id in s.stacks ==>
      Shows(List(s.versions, id), id, s.edits[id]) && Chain(s.edits[id], TextOf(s.stacks[id]))
  }

  lemma ShowsNext(l: seq<Version>, id: string, t: seq<Text>, v: Version)
    requires Shows(l, id, t) && v.stackId == id && v.revision == NextRevision(l)
    ensures Insert(v, l) == [v] + l
    ensures Shows(if |l| + 1 <= RETENTION then [v] + l else ([v] + l)[..RETENTION], id, t + [v.text])
  {
    assert v.revision == |t| + 1;
  }

  lemma SnapshotShows(s: Store, id: string, next: Text, reason: string, versionId: string)
    requires Refines(s) && id in s.stacks && TextOf(s.stacks[id]) != next && versionId !in Ids(s.versions)
    ensures var s' := Snapshot(s, id, next, reason, versionId);
      && s' == s.(versions := s'.versions) && DistinctIds(s'.versions)
      && (forall v :: v in s'.versions ==> v.stackId in s.stacks)
      && Shows(List(s'.versions, id), id, s.edits[id] + [TextOf(s.stacks[id])])
      && forall other :: other in s.stacks && other != id ==> List(s'.versions, other) == List(s.versions, other)
  {
    var l, t := List(s.versions, id), s.edits[id];
    var v := Version(versionId, id, NextRevision(l), TextOf(s.stacks[id]), reason);
    var table := s.versions + [v];
    assert DistinctIds(table);
    assert forall w :: w in table ==> w == v || w in s.versions;
    ListOneMore(s.versions, v, id);
    ShowsNext(l, id, t, v);
    PruneKeepsNewest(table, id, RETENTION, id);
    forall other | other in s.stacks && other != id
      ensures List(Prune(table, id, RETENTION), other) == List(s.versions, other)
    {
      ListOneMore(s.versions, v, other);
      PruneKeepsNewest(table, id, RETENTION, other);
    }
  }

  /** A snapshot becomes the newest version, under its id, number and tag. */
  lemma SnapshotIsNewest(s: Store, id: string, next: Text, reason: string, versionId: string)
    requires Refines(s) && id in s.stacks && TextOf(s.stacks[id]) != next && versionId !in Ids(s.versions)
    ensures var l := List(Snapshot(s, id, next, reason, versionId).versions, id);
      l != [] && l[0] == Version(versionId, id, |s.edits[id]| + 1, TextOf(s.stacks[id]), reason)
  {
    var l := List(s.versions, id);
    var v := Version(versionId, id, NextRevision(l), TextOf(s.stacks[id]), reason);
    var table := s.versions + [v];
    assert forall w :: w in table ==> w == v || w in s.versions;
    ListOneMore(s.versions, v, id);
    PruneKeepsNewest(table, id, RETENTION, id);
    assert Insert(v, l) == [v] + l;
  }

  lemma ChainNext(t: seq<Text>, now: Text, next: Text)
    requires Chain(t, now) && now != next
    ensures Chain(t + [now], next)
  {
  }

  /** A save that changes the text, once its snapshot is in. */
  lemma ChangeRefines(s: Store, id: string, stack: Stack, table: seq<Version>)
    requires Refines(s) && id in s.stacks && TextOf(s.stacks[id]) != TextOf(stack)
    requires DistinctIds(table) && forall v :: v in table ==> v.stackId in s.stacks
    requires Shows(List(table, id), id, s.edits[id] + [TextOf(s.stacks[id])])
    requires forall other :: other in s.stacks && other != id ==> List(table, other) == List(s.versions, other)
    ensures Refines(Update(s.(versions := table), id, stack))
  {
    ChainNext(s.edits[id], TextOf(s.stacks[id]), TextOf(stack));
  }

  lemma SaveRefines(s: Store, id: string, stack: Stack, reason: string, versionId: string)
    requires Refines(s) && versionId !in Ids(s.versions)
    ensures Refines(Save(s, id, stack, reason, versionId))
  {
    if id in s.stacks && TextOf(s.stacks[id]) != TextOf(stack) {
      SnapshotShows(s, id, TextOf(stack), reason, versionId);
      ChangeRefines(s, id, stack, Snapshot(s, id, TextOf(stack), reason, versionId).versions);
    }
  }

  lemma {:induction false} NothingListed(table: seq<Version>, stackId: string)
    requires forall v :: v in table ==> v.stackId != stackId
    ensures List(table, stackId) == []
  {
    if table != [] {
      NothingListed(table[..|table| - 1], stackId);
    }
  }

  lemma CreateRefines(s: Store, id: string, stack: Stack)
    requires Refines(s) && id !in s.stacks
    ensures Refines(Create(s, id, stack))
  {
    NothingListed(s.versions, id);
  }

  lemma RemoveRefines(s: Store, id: string)
    requires Refines(s)
    ensures Refines(Remove(s, id))
    ensures forall v :: v in Remove(s, id).versions ==> v.stackId != id
  {
    var l := List(s.versions, id);
    ListHolds(s.versions, id);
    WithoutKeeps(s.versions, Ids(l));
    forall other | other in s.stacks && other != id
      ensures List(Remove(s, id).versions, other) == List(s.versions, other)
    {
      OthersStay(s.versions, l, other);
    }
  }

  lemma ApplyRefines(s: Store, op: Op)
    requires Refines(s) && FreshIds(s, op)
    ensures Refines(Apply(s, op))
  {
    match op
    case CreateOp(id, stack) => CreateRefines(s, id, stack);
    case SaveOp(id, stack, reason, versionId) => SaveRefines(s, id, stack, reason, versionId);
    case RestoreOp(id, version, versionId, reason) =>
      if Restored(s, id, version).Some? {
        SaveRefines(s, id, Restored(s, id, version).value, reason, versionId);
      }
    case RemoveOp(id) => RemoveRefines(s, id);
    case _ =>
  }

  /** After any run, the stored versions of every stack are its last edits, newest first, with
      the numbers of all edits so far, and neighbours differ. */
  lemma {:induction false} HistoryRefinesEdits(s: Store, ops: seq<Op>)
    requires Refines(s) && FreshRun(s, ops)
    ensures Refines(Run(s, ops))
    decreases |ops|
  {
    if ops != [] {
      ApplyRefines(s, ops[0]);
      HistoryRefinesEdits(Apply(s, ops[0]), ops[1..]);
    }
  }

  /** The same in plain words, from an empty store on. */
  lemma StoredVersionsAreLastEdits(ops: seq<Op>, id: string)
    requires FreshRun(EMPTY, ops) && id in Run(EMPTY, ops).stacks
    ensures var s := Run(EMPTY, ops); var l := List(s.versions, id);
      id in s.edits &&
      var n := |s.edits[id]|;
      && |l| == (if n < 20 then n else 20)
      && (forall i :: 0 <= i < |l| ==> l[i].revision == n - i && l[i].text == s.edits[id][n - 1 - i])
      && (forall i :: 0 <= i < |l| - 1 ==> l[i].text != l[i + 1].text)
      && (l != [] ==> l[0].text != TextOf(s.stacks[id]))
  {
    HistoryRefinesEdits(EMPTY, ops);
  }

  // ---------- undoing a restore ----------

  lemma {:induction false} FindFinds(table: seq<Version>, v: Version)
    requires DistinctIds(table) && v in table
    ensures Find(table, v.id) == Some(v)
  {
    var front := table[..|table| - 1];
    if table[|table| - 1] != v {
      assert table == front + [table[|table| - 1]];
      FindFinds(front, v);
    }
  }

  /** A save that changes the text leaves the old text as the newest version. */
  lemma SaveKeepsOldText(s: Store, id: string, stack: Stack, reason: string, versionId: string)
    requires Refines(s) && id in s.stacks && TextOf(s.stacks[id]) != TextOf(stack) && versionId !in Ids(s.versions)
    ensures var l := List(Save(s, id, stack, reason, versionId).versions, id);
      && l != [] && l[0].text == TextOf(s.stacks[id])
      && Find(Save(s, id, stack, reason, versionId).versions, l[0].id) == Some(l[0]) && l[0].stackId == id
  {
    var table := Snapshot(s, id, TextOf(stack), reason, versionId).versions;
    SnapshotShows(s, id, TextOf(stack), reason, versionId);
    ListHolds(table, id);
    FindFinds(table, List(table, id)[0]);
  }

  /** A restore that changes something can be taken back: restoring the newest version brings
      the stack back exactly as it was. Only the text ever moves. */
  lemma RestoreUndoesRestore(
    s: Store, id: string, version: string, newId: string, reason: string, newId': string, reason': string)
    requires Refines(s) && newId !in Ids(s.versions) && id in s.stacks
    requires Restored(s, id, version).Some? && Restored(s, id, version).value != s.stacks[id]
    ensures var s1 := Restore(s, id, version, newId, reason); var l := List(s1.versions, id);
      && s1.stacks == s.stacks[id := Restored(s, id, version).value]
      && TextOf(s1.stacks[id]) == Find(s.versions, version).value.text
      && l != [] && l[0].text == TextOf(s.stacks[id])
      && Restore(s1, id, l[0].id, newId', reason').stacks == s.stacks
  {
    var stack := Restored(s, id, version).value;
    var s1 := Restore(s, id, version, newId, reason);
    SaveKeepsOldText(s, id, stack, reason, newId);
    assert s1.stacks == s.stacks[id := stack];
    var l := List(s1.versions, id);
    assert Restored(s1, id, l[0].id) == Some(s.stacks[id]);
  }

  // ---------- what is stored ----------

  function TextIn(s: Store, id: string): Option<Text> {
    if id in s.stacks then Some(Text(s.stacks[id].content, s.stacks[id].envFile)) else None
  }

  /** What an operation asks for a stack is what is stored now. */
  ghost predicate AsAsked(before: Store, op: Op, now: Store, id: string) {
    match op
    case CreateOp(x, stack) => x == id ==> TextIn(now, id) == Some(Text(stack.content, stack.envFile))
    case SaveOp(x, stack, _, _) =>
      x == id && id in before.stacks ==> TextIn(now, id) == Some(Text(stack.content, stack.envFile))
    case RestoreOp(x, version, _, _) =>
      x == id && id in before.stacks ==>
        forall v :: v in before.versions && v.id == version && v.stackId == id ==> TextIn(now, id) == Some(v.text)
    case RemoveOp(x) => x == id ==> TextIn(now, id) == None
    case _ => true
  }

  predicate Rewrites(op: Op, id: string) {
    match op
    case CreateOp(x, _) => x == id
    case SaveOp(x, _, _, _) => x == id
    case RestoreOp(x, _, _, _) => x == id
    case RemoveOp(x) => x == id
    case _ => false
  }

  lemma OpIsAsAsked(s: Store, op: Op, id: string)
    requires Refines(s)
    ensures AsAsked(s, op, Apply(s, op), id)
    ensures !Rewrites(op, id) ==> TextIn(Apply(s, op), id) == TextIn(s, id)
  {
    if op.RestoreOp? {
      forall v | v in s.versions && v.id == op.version && v.stackId == id
        ensures Find(s.versions, op.version) == Some(v)
      {
        FindFinds(s.versions, v);
      }
    }
  }

  lemma {:induction false} OthersKeepText(s: Store, ops: seq<Op>, id: string)
    requires Refines(s) && FreshRun(s, ops) && forall op :: op in ops ==> !Rewrites(op, id)
    ensures TextIn(Run(s, ops), id) == TextIn(s, id)
    decreases |ops|
  {
    if ops != [] {
      assert ops[0] in ops;
      OpIsAsAsked(s, ops[0], id);
      ApplyRefines(s, ops[0]);
      OthersKeepText(Apply(s, ops[0]), ops[1..], id);
    }
  }

  lemma {:induction false} RunJoins(s: Store, a: seq<Op>, b: seq<Op>)
    ensures Run(s, a + b) == Run(Run(s, a), b)
    ensures FreshRun(s, a + b) <==> FreshRun(s, a) && FreshRun(Run(s, a), b)
    decreases |a|
  {
    if a == [] {
      assert a + b == b;
    } else {
      assert (a + b)[0] == a[0] && (a + b)[1..] == a[1..] + b;
      RunJoins(Apply(s, a[0]), a[1..], b);
    }
  }

  /** In every run the stored text of a stack is what was last created, saved or restored for it; a
      removed stack has none. */
  lemma LastWriteStands(s: Store, before: seq<Op>, op: Op, after: seq<Op>, id: string)
    requires Refines(s) && FreshRun(s, before + ([op] + after))
    requires forall later :: later in after ==> !Rewrites(later, id)
    ensures AsAsked(Run(s, before), op, Run(s, before + ([op] + after)), id)
  {
    RunJoins(s, before, [op] + after);
    var mid := Run(s, before);
    HistoryRefinesEdits(s, before);
    assert ([op] + after)[1..] == after;
    OpIsAsAsked(mid, op, id);
    ApplyRefines(mid, op);
    OthersKeepText(Apply(mid, op), after, id);
  }
}
