/** The version history as the source keeps it: two tables, written in place. */
module StackHistory {
  import opened Wrappers
  import opened StackHistorySpec
  import opened StackHistoryLaws

  datatype Outcome = Done(id: string) | MissingName | NotFound | Unchanged | Rejected | NotInjected

  /** What label injection comes to: nothing to inject, a mode or a document it fails on, a new content. */
  datatype Injection = NoAddons | Failed | Injected(content: string)

  predicate Injects(i: Injection, stack: Stack) { i.Injected? && i.content != stack.content }

  /** The version is there, and it is one of this stack. */
  ghost predicate HasVersion(versions: seq<Version>, versionId: string, id: string) {
    exists v :: v in versions && v.id == versionId && v.stackId == id
  }

  /** A record has got the text of that version and is otherwise as it was. */
  ghost predicate IsRestored(versions: seq<Version>, versionId: string, id: string, was: Stack, now: Stack) {
    exists v :: v in versions && v.id == versionId && v.stackId == id
      && now == was.(content := v.text.content, envFile := v.text.envFile)
  }

  /** The newest version of a stack. */
  ghost predicate Newest(versions: seq<Version>, id: string, v: Version) {
    List(versions, id) != [] && List(versions, id)[0] == v
  }

  /** What is left of a table without the versions of one stack. */
  lemma OthersAreListed(table: seq<Version>, id: string)
    requires DistinctIds(table)
    ensures forall v :: v in Without(table, Ids(List(table, id))) <==> v in table && v.stackId != id
  {
    var l := List(table, id);
    ListHolds(table, id);
    WithoutKeeps(table, Ids(l));
    forall v | v in table && v.stackId != id
      ensures v.id !in Ids(l)
    {
      SameIdSameVersion(table, v, l);
    }
  }

  class ComposeStackBiz {
    var stacks: map<string, Stack>
    var versions: seq<Version>
    ghost var edits: map<string, seq<Text>>

    ghost function View(): Store
      reads this
    {
      Store(stacks, versions, edits)
    }

    ghost predicate Valid()
      reads this
    {
      Refines(View())
    }

    constructor ()
      ensures Valid() && View() == EMPTY
    {
      stacks, versions, edits := map[], [], map[];
    }

    // ---------- storage ----------

    /** Walks the table, newest version first. */
    method VersionList(stackId: string, limit: nat) returns (items: seq<Version>)
      ensures var l := List(versions, stackId);
        items == if limit > 0 && |l| > limit then l[..limit] else l
    {
      items := [];
      for i := 0 to |versions|
        invariant items == List(versions[..i], stackId)
      {
        ListOneMore(versions[..i], versions[i], stackId);
        assert versions[..i + 1] == versions[..i] + [versions[i]];
        if versions[i].stackId == stackId {
          items := Insert(versions[i], items);
        }
      }
      assert versions[..|versions|] == versions;
      if limit > 0 && |items| > limit {
        items := items[..limit];
      }
    }

    method VersionDelete(id: string)
      modifies `versions
      ensures versions == Without(old(versions), {id})
    {
      var kept := [];
      for i := 0 to |versions|
        invariant kept == Without(versions[..i], {id})
      {
        assert versions[..i + 1][..i] == versions[..i];
        if versions[i].id != id {
          kept := kept + [versions[i]];
        }
      }
      assert versions[..|versions|] == versions;
      versions := kept;
    }

    method DeleteAll(items: seq<Version>)
      modifies `versions
      ensures versions == Without(old(versions), Ids(items))
    {
      WithoutNothing(versions);
      assert Ids(items[..0]) == {};
      for i := 0 to |items|
        invariant versions == Without(old(versions), Ids(items[..i]))
      {
        WithoutTwice(old(versions), Ids(items[..i]), {items[i].id});
        assert items[..i + 1] == items[..i] + [items[i]];
        assert Ids(items[..i + 1]) == Ids(items[..i]) + {items[i].id};
        VersionDelete(items[i].id);
      }
      assert items[..|items|] == items;
    }

    method VersionPrune(stackId: string, keep: nat)
      modifies `versions
      ensures versions == Prune(old(versions), stackId, keep)
    {
      if keep == 0 {
        return;
      }
      var items := VersionList(stackId, 0);
      if |items| <= keep {
        return;
      }
      DeleteAll(items[keep..]);
    }

    method VersionGet(id: string) returns (v: Option<Version>)
      ensures v == Find(versions, id)
      ensures v.Some? ==> v.value in versions && v.value.id == id
      ensures v.None? ==> forall w :: w in versions ==> w.id != id
    {
      v := None;
      for i := 0 to |versions|
        invariant v == Find(versions[..i], id)
        invariant v.Some? ==> v.value in versions && v.value.id == id
        invariant v.None? ==> forall w :: w in versions[..i] ==> w.id != id
      {
        assert versions[..i + 1][..i] == versions[..i];
        if versions[i].id == id {
          v := Some(versions[i]);
        }
      }
      assert versions[..|versions|] == versions;
    }

    method StackUpdate(id: string, next: Stack) returns (ok: bool)
      requires edits.Keys == stacks.Keys
      modifies `stacks, `edits
      ensures ok <==> id in old(stacks)
      ensures stacks == if !ok then old(stacks) else
        old(stacks)[id := next.(status := if next.status == "" then old(stacks)[id].status else next.status)]
      ensures View() == Update(old(View()), id, next)
    {
      if id !in stacks {
        return false;
      }
      var prev := stacks[id];
      if TextOf(prev) != TextOf(next) {
        edits := edits[id := edits[id] + [TextOf(prev)]];
      }
      stacks := stacks[id := if next.status == "" then next.(status := prev.status) else next];
      return true;
    }

    // ---------- the operations ----------

    method SnapshotIfChanged(id: string, next: Text, reason: string, versionId: string)
      modifies `versions
      ensures View() == Snapshot(old(View()), id, next, reason, versionId)
    {
      if id !in stacks {
        return;
      }
      var prev := stacks[id];
      if TextOf(prev) == next {
        return;
      }
      var revision := 1;
      var existing := VersionList(id, 1);
      if |existing| > 0 {
        revision := existing[0].revision + 1;
      }
      versions := versions + [Version(versionId, id, revision, TextOf(prev), reason)];
      VersionPrune(id, RETENTION);
    }

    /** `saveWithReason`; `id` is empty for a new stack, `newId` and `versionId` come from `createId`. */
    method SaveWithReason(id: string, stack: Stack, reason: string, newId: string, versionId: string)
      returns (outcome: Outcome)
      requires Valid() && newId !in stacks && versionId !in Ids(versions)
      modifies this
      ensures Valid()
      ensures !Named(stack) ==> outcome == MissingName && View() == old(View())
      ensures Named(stack) && id == "" ==> outcome == Done(newId) && View() == Create(old(View()), newId, stack)
      ensures Named(stack) && id != "" ==>
        && View() == Save(old(View()), id, stack, reason, versionId)
        && outcome == if id in old(stacks) then Done(id) else NotFound
      ensures outcome.Done? ==> outcome.id == (if id == "" then newId else id)
      ensures outcome.Done? ==> stacks == old(stacks)[outcome.id := stack.(status :=
        if stack.status != "" then stack.status else if id == "" then "inactive" else old(stacks)[id].status)]
      ensures outcome.Done? && id != "" && TextOf(old(stacks)[id]) != TextOf(stack) ==>
        Newest(versions, id, Version(versionId, id, |old(edits)[id]| + 1, TextOf(old(stacks)[id]), reason))
      ensures !outcome.Done? ==> View() == old(View())
    {
      if stack.hostId == "" || stack.name == "" {
        return MissingName;
      }
      if id == "" {
        CreateRefines(View(), newId, stack);
        stacks := stacks[newId := if stack.status == "" then stack.(status := "inactive") else stack];
        edits := edits[newId := []];
        return Done(newId);
      }
      SaveRefines(View(), id, stack, reason, versionId);
      if id in stacks && TextOf(stacks[id]) != TextOf(stack) {
        SnapshotIsNewest(View(), id, TextOf(stack), reason, versionId);
      }
      SnapshotIfChanged(id, TextOf(stack), reason, versionId);
      var ok := StackUpdate(id, stack);
      return if ok then Done(id) else NotFound;
    }

    /** `SaveWithAddons`, given what the label injection made of the content. */
    method SaveWithAddons(id: string, stack: Stack, injection: Injection, newId: string, versionId: string)
      returns (outcome: Outcome)
      requires Valid() && newId !in stacks && versionId !in Ids(versions)
      modifies this
      ensures Valid()
      ensures outcome == if injection.Failed? then NotInjected
        else if !Named(stack) then MissingName
        else if id == "" then Done(newId)
        else if id in old(stacks) then Done(id) else NotFound
      ensures !outcome.Done? ==> View() == old(View())
      ensures outcome.Done? ==> stacks == old(stacks)[outcome.id := stack.(
        content := if injection.Injected? then injection.content else stack.content,
        status := if stack.status != "" then stack.status else if id == "" then "inactive" else old(stacks)[id].status)]
      ensures !injection.Failed? && Named(stack) ==>
        var changed := Injects(injection, stack);
        var next := if changed then stack.(content := injection.content) else stack;
        View() == if id == "" then Create(old(View()), newId, next)
          else Save(old(View()), id, next, if changed then "addon-inject" else "save", versionId)
    {
      if injection.Failed? {
        return NotInjected;
      }
      var next, reason := stack, "save";
      if injection.Injected? && injection.content != stack.content {
        next, reason := stack.(content := injection.content), "addon-inject";
      }
      outcome := SaveWithReason(id, next, reason, newId, versionId);
    }

    /** The part of a restore that writes: a snapshot, then the record. */
    method Overwrite(id: string, next: Stack, reason: string, versionId: string)
      requires Valid() && id in stacks && TextOf(stacks[id]) != TextOf(next) && versionId !in Ids(versions)
      requires next.status == stacks[id].status
      modifies this
      ensures Valid() && View() == Save(old(View()), id, next, reason, versionId)
      ensures stacks == old(stacks)[id := next]
      ensures Newest(versions, id, Version(versionId, id, |old(edits)[id]| + 1, TextOf(old(stacks)[id]), reason))
    {
      SaveRefines(View(), id, next, reason, versionId);
      SnapshotIsNewest(View(), id, TextOf(next), reason, versionId);
      SnapshotIfChanged(id, TextOf(next), reason, versionId);
      var _ := StackUpdate(id, next);
    }

    /** `RestoreVersion`; `reason` is the tag of the snapshot it takes. */
    method RestoreVersion(id: string, versionId: string, reason: string, newId: string) returns (outcome: Outcome)
      requires Valid() && newId !in Ids(versions)
      modifies this
      ensures Valid() && View() == Restore(old(View()), id, versionId, newId, reason)
      ensures outcome == NotFound <==> id !in old(stacks) || !HasVersion(old(versions), versionId, id)
      ensures outcome.Done? ==> outcome.id == id && id in stacks && stacks == old(stacks)[id := stacks[id]]
      ensures outcome.Done? ==> IsRestored(old(versions), versionId, id, old(stacks)[id], stacks[id])
      ensures outcome.Done? ==>
        Newest(versions, id, Version(newId, id, |old(edits)[id]| + 1, TextOf(old(stacks)[id]), reason))
      ensures !outcome.Done? ==> View() == old(View())
      ensures outcome == match Restored(old(View()), id, versionId)
        case None => NotFound
        case Some(stack) => if stack == old(stacks)[id] then Unchanged else Done(id)
    {
      var version := VersionGet(versionId);
      if version.None? || version.value.stackId != id || id !in stacks {
        return NotFound;
      }
      var current, text := stacks[id], version.value.text;
      ghost var restored := version.value;
      if TextOf(current) == text {
        return Unchanged;
      }
      var next := current.(content := text.content, envFile := text.envFile);
      Overwrite(id, next, reason, newId);
      assert restored in old(versions);
      return Done(id);
    }

    /** The record part of `Migrate`. */
    method MigrateRecord(id: string, host: string) returns (outcome: Outcome)
      requires Valid()
      modifies `stacks, `edits
      ensures Valid() && View() == Migrate(old(View()), id, host)
      ensures outcome == if id !in old(stacks) then NotFound
        else if old(stacks)[id].status != "inactive" || old(stacks)[id].hostId == host then Rejected
        else Done(id)
      ensures stacks == if !outcome.Done? then old(stacks)
        else old(stacks)[id := old(stacks)[id].(hostId := host, status := "inactive", errorMessage := "")]
    {
      if id !in stacks {
        return NotFound;
      }
      if stacks[id].status != "inactive" || stacks[id].hostId == host {
        return Rejected;
      }
      var _ := StackUpdate(id, stacks[id].(hostId := host, status := "inactive", errorMessage := ""));
      return Done(id);
    }

    /** The record part of removing a stack: its versions go with it. */
    method RemoveRecord(id: string)
      requires Valid()
      modifies this
      ensures Valid() && View() == Remove(old(View()), id)
      ensures stacks == old(stacks) - {id}
      ensures forall v :: v in versions <==> v in old(versions) && v.stackId != id
    {
      RemoveRefines(View(), id);
      OthersAreListed(versions, id);
      var items := VersionList(id, 0);
      DeleteAll(items);
      stacks, edits := stacks - {id}, edits - {id};
    }
  }
}
