/** What injecting and extracting addon settings mean, on tree values. */
module AddonSpec {
  import opened Wrappers
  import opened Text
  import opened YamlTree

  // ---------- settings ----------

  datatype Addon = Traefik | Sablier | Watchtower | Backup

  function Prefix(a: Addon): string {
    match a
    case Traefik => "traefik."
    case Sablier => "sablier."
    case Watchtower => "com.centurylinklabs.watchtower."
    case Backup => "backup."
  }

  function EnableKey(a: Addon): string { Prefix(a) + "enable" }

  type Labels = map<string, string>

  datatype AddonCfg = AddonCfg(enabled: bool, labels: Labels)

  datatype ResourcesCfg = ResourcesCfg(
    cpusLimit: string, cpusReservation: string, memoryLimit: string, memoryReservation: string)

  datatype AddonsConfig = AddonsConfig(
    traefik: map<string, AddonCfg>,
    sablier: map<string, AddonCfg>,
    watchtower: map<string, AddonCfg>,
    backup: map<string, AddonCfg>,
    resources: map<string, ResourcesCfg>)
  {
    function For(a: Addon): map<string, AddonCfg> {
      match a
      case Traefik => traefik
      case Sablier => sablier
      case Watchtower => watchtower
      case Backup => backup
    }

    predicate HasAny() {
      traefik != map[] || sablier != map[] || watchtower != map[] || backup != map[] || resources != map[]
    }

    predicate TouchesLabels(svc: string) {
      svc in traefik || svc in sablier || svc in watchtower || svc in backup
    }
  }

  /** The labels one addon writes for a service: its own namespace, plus the switch. */
  function Built(a: Addon, c: AddonCfg): Labels {
    (map k | k in c.labels && Prefix(a) <= k :: c.labels[k])
    + (if c.enabled then map[EnableKey(a) := "true"] else map[])
  }

  /** The settings a set of labels stands for. */
  function FromLabels(a: Addon, m: Labels): AddonCfg {
    AddonCfg(
      EnableKey(a) in m && m[EnableKey(a)] == "true",
      map k | k in m && Prefix(a) <= k && !(k == EnableKey(a) && m[k] == "true") :: m[k])
  }

  predicate Present(c: AddonCfg) { c.enabled || c.labels != map[] }

  function PurgePart(cfg: AddonsConfig, svc: string, a: Addon): seq<string> {
    if svc in cfg.For(a) then [Prefix(a)] else []
  }

  /** The prefixes a save purges from a service, addon by addon. */
  function PurgeFor(cfg: AddonsConfig, svc: string): seq<string> {
    PurgePart(cfg, svc, Traefik) + PurgePart(cfg, svc, Sablier)
    + PurgePart(cfg, svc, Watchtower) + PurgePart(cfg, svc, Backup)
  }

  function LabelsPart(cfg: AddonsConfig, svc: string, a: Addon): Labels {
    if svc in cfg.For(a) then Built(a, cfg.For(a)[svc]) else map[]
  }

  /** The labels a save writes to a service. */
  function LabelsFor(cfg: AddonsConfig, svc: string): Labels {
    LabelsPart(cfg, svc, Traefik) + LabelsPart(cfg, svc, Sablier)
    + LabelsPart(cfg, svc, Watchtower) + LabelsPart(cfg, svc, Backup)
  }

  predicate Owned(key: string, prefixes: seq<string>) {
    exists p :: p in prefixes && p <= key
  }

  // ---------- one labels node ----------

  /** The `key` and `value` of a `- "key=value"` item. */
  function SplitLabel(item: Tree): (string, string) {
    if !item.Scalar? then ("", "")
    else
      var eq := IndexOf(item.text, '=');
      if eq < |item.text| then (item.text[..eq], item.text[eq + 1..]) else (item.text, "")
  }

  function KeepEntries(es: seq<Entry>, prefixes: seq<string>): seq<Entry> {
    if es == [] then []
    else if Owned(Value(es[0].key), prefixes) then KeepEntries(es[1..], prefixes)
    else [es[0]] + KeepEntries(es[1..], prefixes)
  }

  function KeepItems(ts: seq<Tree>, prefixes: seq<string>): seq<Tree> {
    if ts == [] then []
    else if Owned(SplitLabel(ts[0]).0, prefixes) then KeepItems(ts[1..], prefixes)
    else [ts[0]] + KeepItems(ts[1..], prefixes)
  }

  /** `stripPrefixes`. */
  function Strip(t: Tree, prefixes: seq<string>): Tree {
    match t
    case Mapping(es) => Mapping(KeepEntries(es, prefixes))
    case Sequence(ts) => Sequence(KeepItems(ts, prefixes))
    case _ => t
  }

  function EntriesOf(keys: seq<string>, m: Labels): seq<Entry>
    requires forall k :: k in keys ==> k in m
  {
    seq(|keys|, i requires 0 <= i < |keys| => Entry(Scalar(keys[i]), Scalar(m[keys[i]])))
  }

  function ItemsOf(keys: seq<string>, m: Labels): seq<Tree>
    requires forall k :: k in keys ==> k in m
  {
    seq(|keys|, i requires 0 <= i < |keys| => Scalar(keys[i] + "=" + m[keys[i]]))
  }

  /** `writeLabels`: the new labels go last, in ascending key order. */
  function Write(t: Tree, m: Labels): Tree {
    match t
    case Mapping(es) => Mapping(es + EntriesOf(SortedKeys(m.Keys), m))
    case Sequence(ts) => Sequence(ts + ItemsOf(SortedKeys(m.Keys), m))
    case _ => t
  }

  function CollectEntries(es: seq<Entry>, into: Labels): Labels {
    if es == [] then into
    else CollectEntries(es[1..], into[Value(es[0].key) := Value(es[0].val)])
  }

  function CollectItems(ts: seq<Tree>, into: Labels): Labels {
    if ts == [] then into
    else
      var (k, v) := SplitLabel(ts[0]);
      CollectItems(ts[1..], if k != "" then into[k := v] else into)
  }

  /** `collectLabels`. */
  function Collect(t: Tree, into: Labels): Labels {
    match t
    case Mapping(es) => CollectEntries(es, into)
    case Sequence(ts) => CollectItems(ts, into)
    case _ => into
  }

  // ---------- one service ----------

  /** Purges the labels node right below `t`, if there is one. */
  function StripIn(t: Tree, prefixes: seq<string>): Tree {
    match Get(t, "labels")
    case Some(l) => Put(t, "labels", Strip(l, prefixes))
    case None => t
  }

  function StripBoth(svc: Tree, prefixes: seq<string>): Tree {
    var s := StripIn(svc, prefixes);
    match Get(s, "deploy")
    case Some(d) => Put(s, "deploy", StripIn(d, prefixes))
    case None => s
  }

  function OrEmpty(t: Option<Tree>): Tree {
    if t.Some? then t.value else Mapping([])
  }

  /** Writes to the labels node below `t`, which is made if it is absent. */
  function WriteIn(t: Tree, m: Labels): Tree {
    Put(t, "labels", Write(OrEmpty(Get(t, "labels")), m))
  }

  /** Purge both places, then write to the one the mode asks for. */
  function InjectLabels(svc: Tree, prefixes: seq<string>, m: Labels, mode: string): Tree {
    var s := StripBoth(svc, prefixes);
    if mode == "swarm" then Put(s, "deploy", WriteIn(AsMapping(Get(s, "deploy")), m)) else WriteIn(s, m)
  }

  function SetOrRemove(t: Tree, key: string, text: string): Tree {
    if text == "" then Drop(t, key) else Put(t, key, Scalar(text))
  }

  /** A `limits` or `reservations` block. */
  function WithBlock(resources: Tree, key: string, cpus: string, memory: string): Tree {
    if cpus == "" && memory == "" then Drop(resources, key)
    else
      var block := AsMapping(Get(resources, key));
      Put(resources, key, SetOrRemove(SetOrRemove(block, "cpus", cpus), "memory", memory))
  }

  /** Both blocks of `deploy.resources`. */
  function Blocks(resources: Tree, r: ResourcesCfg): Tree {
    var limited := WithBlock(resources, "limits", r.cpusLimit, r.memoryLimit);
    WithBlock(limited, "reservations", r.cpusReservation, r.memoryReservation)
  }

  /** The top-level fields that `deploy.resources` replaces, in purge order. */
  const LEGACY_FIELDS := ["cpus", "mem_limit", "mem_reservation", "cpu_shares", "cpu_quota", "cpuset", "memswap_limit"]

  function DropAll(t: Tree, keys: seq<string>): Tree
    decreases |keys|
  {
    if keys == [] then t else Drop(DropAll(t, keys[..|keys| - 1]), keys[|keys| - 1])
  }

  function ClearResources(svc: Tree): Tree {
    match Get(svc, "deploy")
    case None => svc
    case Some(d) =>
      var d' := Drop(d, "resources");
      if Childless(d') then Drop(svc, "deploy") else Put(svc, "deploy", d')
  }

  /** `len(node.Content) == 0` */
  predicate Childless(t: Tree) {
    match t
    case Document(ts) => ts == []
    case Mapping(es) => es == []
    case Sequence(ts) => ts == []
    case _ => true
  }

  /** `applyDeployResources`. */
  function DeployResources(svc: Tree, r: ResourcesCfg): Tree {
    if r == ResourcesCfg("", "", "", "") then ClearResources(svc)
    else
      var deploy := AsMapping(Get(svc, "deploy"));
      Put(svc, "deploy", Put(deploy, "resources", Blocks(AsMapping(Get(deploy, "resources")), r)))
  }

  function ApplyResources(svc: Tree, r: ResourcesCfg): Tree {
    DeployResources(DropAll(svc, LEGACY_FIELDS), r)
  }

  // ---------- reading a service back ----------

  function LabelsOf(svc: Tree): Labels {
    var top := match Get(svc, "labels") case Some(l) => Collect(l, map[]) case None => map[];
    match DeployLabels(svc)
    case Some(l) => Collect(l, top)
    case None => top
  }

  function DeployField(svc: Tree, key: string): Option<Tree> {
    match Get(svc, "deploy")
    case Some(d) => Get(d, key)
    case None => None
  }

  function DeployLabels(svc: Tree): Option<Tree> { DeployField(svc, "labels") }

  /** `scalarValue`: the text of a scalar field, or nothing. */
  function ScalarText(t: Tree, key: string): string {
    match Get(t, key)
    case Some(Scalar(s)) => s
    case _ => ""
  }

  function Either(first: string, fallback: string): string {
    if first != "" then first else fallback
  }

  /** A scalar of `deploy.resources.<block>`. */
  function BlockText(resources: Option<Tree>, block: string, key: string): string {
    if resources.None? || Get(resources.value, block).None? then ""
    else ScalarText(Get(resources.value, block).value, key)
  }

  /** `deploy.resources` where it speaks, the legacy fields elsewhere. */
  function ResourcesFrom(resources: Option<Tree>, legacy: ResourcesCfg): ResourcesCfg {
    ResourcesCfg(
      Either(BlockText(resources, "limits", "cpus"), legacy.cpusLimit),
      Either(BlockText(resources, "reservations", "cpus"), legacy.cpusReservation),
      Either(BlockText(resources, "limits", "memory"), legacy.memoryLimit),
      Either(BlockText(resources, "reservations", "memory"), legacy.memoryReservation))
  }

  function LegacyResources(svc: Tree): ResourcesCfg {
    ResourcesCfg(ScalarText(svc, "cpus"), "", ScalarText(svc, "mem_limit"), ScalarText(svc, "mem_reservation"))
  }

  /** `resourcesCfgFromService` */
  function ResourcesOf(svc: Tree): ResourcesCfg {
    ResourcesFrom(DeployField(svc, "resources"), LegacyResources(svc))
  }

  const NO_RESOURCES := ResourcesCfg("", "", "", "")

  // ---------- the whole document ----------

  /** What a save makes of one service. */
  function InjectService(svc: Tree, name: string, cfg: AddonsConfig, mode: string): Tree {
    var labelled :=
      if cfg.TouchesLabels(name) then InjectLabels(svc, PurgeFor(cfg, name), LabelsFor(cfg, name), mode) else svc;
    if name in cfg.resources then ApplyResources(labelled, cfg.resources[name]) else labelled
  }

  /** Saves reach the first service of each name, when it is a mapping. */
  function InjectServices(es: seq<Entry>, cfg: AddonsConfig, mode: string): seq<Entry> {
    seq(|es|, i requires 0 <= i < |es| =>
      var name := Value(es[i].key);
      Entry(es[i].key,
        if FieldAt(es, name) == i && es[i].val.Mapping? then InjectService(es[i].val, name, cfg, mode)
        else es[i].val))
  }

  function Inject(doc: Tree, cfg: AddonsConfig, mode: string): Tree {
    match Get(doc, "services")
    case Some(Mapping(es)) => Put(doc, "services", Mapping(InjectServices(es, cfg, mode)))
    case _ => doc
  }

  function ServicesOf(doc: Tree): seq<Entry> {
    match Get(doc, "services")
    case Some(Mapping(es)) => es
    case _ => []
  }

  function ExtractAddon(a: Addon, es: seq<Entry>): map<string, AddonCfg> {
    if es == [] then map[]
    else
      var rest, e := ExtractAddon(a, es[..|es| - 1]), es[|es| - 1];
      var c := FromLabels(a, LabelsOf(e.val));
      if e.val.Mapping? && Present(c) then rest[Value(e.key) := c] else rest
  }

  function ExtractResources(es: seq<Entry>): map<string, ResourcesCfg> {
    if es == [] then map[]
    else
      var rest, e := ExtractResources(es[..|es| - 1]), es[|es| - 1];
      if e.val.Mapping? && ResourcesOf(e.val) != NO_RESOURCES then rest[Value(e.key) := ResourcesOf(e.val)] else rest
  }

  function ExtractServices(es: seq<Entry>): AddonsConfig {
    AddonsConfig(
      ExtractAddon(Traefik, es), ExtractAddon(Sablier, es),
      ExtractAddon(Watchtower, es), ExtractAddon(Backup, es), ExtractResources(es))
  }

  function Extract(doc: Tree): AddonsConfig { ExtractServices(ServicesOf(doc)) }
}
