/** The compose stacks, their stored versions, and the edits that led to them. */
module StackHistorySpec {
  import opened Wrappers

  datatype Stack = Stack(
    hostId: string, name: string, content: string, envFile: string, status: string, errorMessage: string)

  /** What a version keeps of a stack. */
  datatype Text = Text(content: string, envFile: string)

  function TextOf(s: Stack): Text { Text(s.content, s.envFile) }

  datatype Version = Version(id: string, stackId: string, revision: nat, text: Text, reason: string)

  /** `edits` records, per stack, what every change of its text replaced, oldest first. */
  datatype Store = Store(stacks: map<string, Stack>, versions: seq<Version>, edits: map<string, seq<Text>>)

  const EMPTY := Store(map[], [], map[])

  const RETENTION: nat := 20

  // ---------- the version table ----------

  /** Puts a version in its place in a list that goes from newest to oldest. */
  function Insert(v: Version, l: seq<Version>): seq<Version> {
    if l == [] || v.revision > l[0].revision then [v] + l else [l[0]] + Insert(v, l[1..])
  }

  /** `ComposeStackVersionList`: the versions of a stack, newest first. */
  function List(table: seq<Version>, stackId: string): seq<Version> {
    if table == [] then []
    else
      var l, v := List(table[..|table| - 1], stackId), table[|table| - 1];
      if v.stackId == stackId then Insert(v, l) else l
  }

  function Without(table: seq<Version>, ids: set<string>): seq<Version> {
    if table == [] then []
    else
      var rest, v := Without(table[..|table| - 1], ids), table[|table| - 1];
      if v.id in ids then rest else rest + [v]
  }

  function Ids(vs: seq<Version>): set<string> { set v | v in vs :: v.id }

  /** `ComposeStackVersionPrune` */
  function Prune(table: seq<Version>, stackId: string, keep: nat): seq<Version> {
    var l := List(table, stackId);
    if keep == 0 || |l| <= keep then table else Without(table, Ids(l[keep..]))
  }

  /** `ComposeStackVersionGet` */
  function Find(table: seq<Version>, id: string): Option<Version> {
    if table == [] then None
    else if table[|table| - 1].id == id then Some(table[|table| - 1])
    else Find(table[..|table| - 1], id)
  }

  // ---------- writing stacks ----------

  /** `ComposeStackUpdate`: a missing record is an error, an empty status keeps the old one. */
  function Update(s: Store, id: string, next: Stack): Store {
    if id !in s.stacks || id !in s.edits then s
    else
      var prev := s.stacks[id];
      s.(stacks := s.stacks[id := if next.status == "" then next.(status := prev.status) else next],
         edits := if TextOf(prev) == TextOf(next) then s.edits else s.edits[id := s.edits[id] + [TextOf(prev)]])
  }

  function NextRevision(l: seq<Version>): nat {
    if l == [] then 1 else l[0].revision + 1
  }

  /** `snapshotIfChanged` */
  function Snapshot(s: Store, id: string, next: Text, reason: string, versionId: string): Store {
    if id !in s.stacks || TextOf(s.stacks[id]) == next then s
    else
      var v := Version(versionId, id, NextRevision(List(s.versions, id)), TextOf(s.stacks[id]), reason);
      s.(versions := Prune(s.versions + [v], id, RETENTION))
  }

  /** `saveWithReason` on a new stack. */
  function Create(s: Store, id: string, stack: Stack): Store {
    var made := if stack.status == "" then stack.(status := "inactive") else stack;
    s.(stacks := s.stacks[id := made], edits := s.edits[id := []])
  }

  /** `saveWithReason` on a stack that has an id. */
  function Save(s: Store, id: string, stack: Stack, reason: string, versionId: string): Store {
    Update(Snapshot(s, id, TextOf(stack), reason, versionId), id, stack)
  }

  predicate Named(stack: Stack) { stack.hostId != "" && stack.name != "" }

  /** The texts a restore writes, or nothing when the version or the stack is not there. */
  function Restored(s: Store, id: string, versionId: string): Option<Stack> {
    match Find(s.versions, versionId)
    case Some(v) =>
      if v.stackId == id && id in s.stacks
      then Some(s.stacks[id].(content := v.text.content, envFile := v.text.envFile)) else None
    case None => None
  }

  function Restore(s: Store, id: string, versionId: string, newId: string, reason: string): Store {
    match Restored(s, id, versionId)
    case Some(stack) => if stack == s.stacks[id] then s else Save(s, id, stack, reason, newId)
    case None => s
  }

  /** The record part of `Migrate`: stopped stacks only, to another host. */
  function Migrate(s: Store, id: string, host: string): Store {
    if id !in s.stacks || s.stacks[id].status != "inactive" || s.stacks[id].hostId == host then s
    else Update(s, id, s.stacks[id].(hostId := host, status := "inactive", errorMessage := ""))
  }

  /** `ComposeStackUpdateStatus` and `ComposeStackUpdateError`, as a deploy uses them. */
  function Mark(s: Store, id: string, status: string, message: string): Store {
    if id !in s.stacks then s
    else s.(stacks := s.stacks[id := s.stacks[id].(status := status, errorMessage := message)])
  }

  /** The record part of removing a stack. */
  function Remove(s: Store, id: string): Store {
    s.(stacks := s.stacks - {id}, edits := s.edits - {id}, versions := Without(s.versions, Ids(List(s.versions, id))))
  }

  // ---------- runs ----------

  datatype Op =
    | CreateOp(id: string, stack: Stack)
    | SaveOp(id: string, stack: Stack, reason: string, versionId: string)
    | RestoreOp(id: string, version: string, versionId: string, reason: string)
    | MigrateOp(id: string, host: string)
    | MarkOp(id: string, status: string, message: string)
    | RemoveOp(id: string)

  function Apply(s: Store, op: Op): Store {
    match op
    case CreateOp(id, stack) => Create(s, id, stack)
    case SaveOp(id, stack, reason, versionId) => Save(s, id, stack, reason, versionId)
    case RestoreOp(id, version, versionId, reason) => Restore(s, id, version, versionId, reason)
    case MigrateOp(id, host) => Migrate(s, id, host)
    case MarkOp(id, status, message) => Mark(s, id, status, message)
    case RemoveOp(id) => Remove(s, id)
  }

  /** `createId` gives ids that are not in use. */
  predicate FreshIds(s: Store, op: Op) {
    match op
    case CreateOp(id, _) => id !in s.stacks
    case SaveOp(_, _, _, versionId) => versionId !in Ids(s.versions)
    case RestoreOp(_, _, versionId, _) => versionId !in Ids(s.versions)
    case _ => true
  }

  function Run(s: Store, ops: seq<Op>): Store
    decreases |ops|
  {
    if ops == [] then s else Run(Apply(s, ops[0]), ops[1..])
  }

  predicate FreshRun(s: Store, ops: seq<Op>)
    decreases |ops|
  {
    ops == [] || (FreshIds(s, ops[0]) && FreshRun(Apply(s, ops[0]), ops[1..]))
  }
}
