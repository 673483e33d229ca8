/** What a wizard save promises to the reader of the document: every field and label of a service,
    with the names written out as the compose file has them. */
module AddonPromises {
  import opened Wrappers
  import opened Text
  import opened YamlTree
  import opened AddonSpec
  import opened LabelLaws
  import opened ServiceLaws
  import opened ResourceLaws
  import opened AddonLaws
  import opened DocumentLaws

  // ---------- reading a document ----------

  /** What is found by going down from field to field. */
  function Path(t: Tree, keys: seq<string>): Option<Tree> {
    if keys == [] then Some(t)
    else
      match Get(t, keys[0])
      case Some(u) => Path(u, keys[1..])
      case None => None
  }

  function TextAt(t: Tree, keys: seq<string>): string {
    match Path(t, keys)
    case Some(Scalar(s)) => s
    case _ => ""
  }

  lemma PathStep(t: Tree, key: string, rest: seq<string>)
    ensures Path(t, [key] + rest) == match Get(t, key) case Some(u) => Path(u, rest) case None => None
  {
    assert ([key] + rest)[1..] == rest;
  }

  lemma PathTwo(t: Tree, a: string, b: string)
    ensures Path(t, [a, b]) == match Get(t, a) case Some(u) => Get(u, b) case None => None
  {
    PathStep(t, a, [b]);
    if Get(t, a).Some? { PathStep(Get(t, a).value, b, []); }
  }

  lemma PathFour(t: Tree, a: string, b: string, c: string, d: string)
    ensures Path(t, [a, b, c, d]) == match Path(t, [a, b])
      case Some(u) => Path(u, [c, d])
      case None => None
  {
    PathTwo(t, a, b);
    PathStep(t, a, [b, c, d]);
    if Get(t, a).Some? { PathStep(Get(t, a).value, b, [c, d]); }
  }

  // ---------- the fields of a service ----------

  /** The fields that `deploy.resources` replaces. */
  predicate Legacy(key: string) {
    key in {"cpus", "mem_limit", "mem_reservation", "cpu_shares", "cpu_quota", "cpuset", "memswap_limit"}
  }

  lemma LegacyIsListed(key: string)
    ensures key in LEGACY_FIELDS <==> Legacy(key)
  {
    var f := LEGACY_FIELDS;
    assert |f| == 7 && f[0] == "cpus" && f[1] == "mem_limit" && f[2] == "mem_reservation" && f[3] == "cpu_shares";
    assert f[4] == "cpu_quota" && f[5] == "cpuset" && f[6] == "memswap_limit";
    assert forall i :: 0 <= i < 7 ==> Legacy(f[i]);
  }

  /** Every field of a service after a save: the legacy fields go if resources are saved for it,
      `labels` and `deploy` are for the save to change, and all others are as before. */
  lemma FieldsAfterSave(doc: Tree, cfg: AddonsConfig, mode: string, name: string, key: string)
    requires Service(doc, name).Some? && ServiceKeyed(doc, cfg, name)
    ensures Service(Inject(doc, cfg, mode), name).Some?
    ensures var was, now := Service(doc, name).value, Service(Inject(doc, cfg, mode), name).value;
      && (!Legacy(key) && key != "labels" && key != "deploy" ==> Get(now, key) == Get(was, key))
      && (Legacy(key) ==> Get(now, key) == if name in cfg.resources then None else Get(was, key))
  {
    ServiceOfInject(doc, cfg, mode, name);
    LegacyIsListed(key);
    var svc := Service(doc, name).value;
    var labelled := Labelled(svc, name, cfg, mode);
    LabelledFacts(svc, name, cfg, mode);
    InjectLabelsFields(svc, PurgeFor(cfg, name), LabelsFor(cfg, name), mode, key);
    if name in cfg.resources {
      ApplyResourcesFields(labelled, cfg.resources[name], key);
    }
  }

  /** Below `deploy` everything but `labels` and `resources` is as before. */
  lemma DeployAfterSave(doc: Tree, cfg: AddonsConfig, mode: string, name: string, key: string)
    requires Service(doc, name).Some? && ServiceKeyed(doc, cfg, name) && key != "labels" && key != "resources"
    ensures var was, now := Service(doc, name).value, Service(Inject(doc, cfg, mode), name);
      now.Some? && Path(now.value, ["deploy", key]) == Path(was, ["deploy", key])
  {
    ServiceOfInject(doc, cfg, mode, name);
    var svc := Service(doc, name).value;
    var ps, m := PurgeFor(cfg, name), LabelsFor(cfg, name);
    var labelled := Labelled(svc, name, cfg, mode);
    LabelledFacts(svc, name, cfg, mode);
    InjectLabelsFields(svc, ps, m, mode, key);
    DeployAfterFields(Get(svc, "deploy"), ps, m, mode, key);
    assert DeployField(labelled, key) == DeployField(svc, key);
    if name in cfg.resources {
      ApplyResourcesFields(labelled, cfg.resources[name], key);
    }
    PathTwo(svc, "deploy", key);
    PathTwo(InjectService(svc, name, cfg, mode), "deploy", key);
  }

  // ---------- resources ----------

  function Asked(text: string): Option<Tree> { if text == "" then None else Some(Scalar(text)) }

  /** Where a save puts each of the four resource settings: they are there, and a setting that is empty
      leaves no field; four empty ones leave no `resources`, and no `deploy` that would be empty. */
  lemma ResourcesAfterSave(doc: Tree, cfg: AddonsConfig, mode: string, name: string)
    requires Service(doc, name).Some? && ServiceKeyed(doc, cfg, name) && name in cfg.resources
    ensures Service(Inject(doc, cfg, mode), name).Some?
    ensures var now, r := Service(Inject(doc, cfg, mode), name).value, cfg.resources[name];
      && Path(now, ["deploy", "resources", "limits", "cpus"]) == Asked(r.cpusLimit)
      && Path(now, ["deploy", "resources", "limits", "memory"]) == Asked(r.memoryLimit)
      && Path(now, ["deploy", "resources", "reservations", "cpus"]) == Asked(r.cpusReservation)
      && Path(now, ["deploy", "resources", "reservations", "memory"]) == Asked(r.memoryReservation)
      && (r == ResourcesCfg("", "", "", "") ==>
           Path(now, ["deploy", "resources"]) == None && Path(now, ["deploy"]) != Some(Mapping([])))
  {
    ServiceOfInject(doc, cfg, mode, name);
    var svc, r := Service(doc, name).value, cfg.resources[name];
    LabelledFacts(svc, name, cfg, mode);
    ApplyResourcesFields(Labelled(svc, name, cfg, mode), r, "");
    var now := InjectService(svc, name, cfg, mode);
    PathTwo(now, "deploy", "resources");
    PathStep(now, "deploy", []);
    BlockAfterSave(now, "limits", r.cpusLimit, r.memoryLimit);
    BlockAfterSave(now, "reservations", r.cpusReservation, r.memoryReservation);
  }

  lemma BlockAfterSave(now: Tree, block: string, cpus: string, memory: string)
    requires var u := DeployField(now, "resources");
      if u.Some? then BlockIs(Get(u.value, block), cpus, memory) else cpus == "" == memory
    ensures Path(now, ["deploy", "resources", block, "cpus"]) == Asked(cpus)
    ensures Path(now, ["deploy", "resources", block, "memory"]) == Asked(memory)
  {
    PathTwo(now, "deploy", "resources");
    PathFour(now, "deploy", "resources", block, "cpus");
    PathFour(now, "deploy", "resources", block, "memory");
    if DeployField(now, "resources").Some? {
      PathTwo(DeployField(now, "resources").value, block, "cpus");
      PathTwo(DeployField(now, "resources").value, block, "memory");
    }
  }

  /** Settings that are not all empty leave the rest of `deploy.resources` alone. */
  lemma OtherResourcesStay(doc: Tree, cfg: AddonsConfig, mode: string, name: string, block: string, key: string)
    requires Service(doc, name).Some? && ServiceKeyed(doc, cfg, name) && name in cfg.resources
    requires cfg.resources[name] != ResourcesCfg("", "", "", "")
    ensures var was, now := Service(doc, name).value, Service(Inject(doc, cfg, mode), name);
      && now.Some?
      && (block != "limits" && block != "reservations" ==>
           Path(now.value, ["deploy", "resources", block]) == Path(was, ["deploy", "resources", block]))
      && (key != "cpus" && key != "memory" && Path(now.value, ["deploy", "resources", block]).Some? ==>
           Path(now.value, ["deploy", "resources", block, key]) == Path(was, ["deploy", "resources", block, key]))
  {
    ServiceOfInject(doc, cfg, mode, name);
    var svc, r := Service(doc, name).value, cfg.resources[name];
    var labelled, now := Labelled(svc, name, cfg, mode), InjectService(svc, name, cfg, mode);
    LabelledFacts(svc, name, cfg, mode);
    ResourcesBelow(svc, name, cfg, mode);
    OtherBlocks(labelled, r, block, key);
    PathThree(svc, block);
    PathThree(now, block);
    PathFourth(svc, block, key);
    PathFourth(now, block, key);
  }

  lemma PathThree(t: Tree, block: string)
    ensures Path(t, ["deploy", "resources", block]) ==
      match DeployField(t, "resources") case Some(u) => Get(u, block) case None => None
  {
    PathStep(t, "deploy", ["resources", block]);
    if Get(t, "deploy").Some? { PathTwo(Get(t, "deploy").value, "resources", block); }
  }

  lemma PathFourth(t: Tree, block: string, key: string)
    ensures Path(t, ["deploy", "resources", block, key]) ==
      match Path(t, ["deploy", "resources", block]) case Some(u) => Get(u, key) case None => None
  {
    PathThree(t, block);
    PathTwo(t, "deploy", "resources");
    PathFour(t, "deploy", "resources", block, key);
    if DeployField(t, "resources").Some? { PathTwo(DeployField(t, "resources").value, block, key); }
  }

  /** Labels of a save do not reach `deploy.resources`. */
  lemma ResourcesBelow(svc: Tree, name: string, cfg: AddonsConfig, mode: string)
    requires svc.Mapping?
    ensures DeployField(Labelled(svc, name, cfg, mode), "resources") == DeployField(svc, "resources")
  {
    InjectLabelsFields(svc, PurgeFor(cfg, name), LabelsFor(cfg, name), mode, "");
    DeployAfterFields(Get(svc, "deploy"), PurgeFor(cfg, name), LabelsFor(cfg, name), mode, "resources");
  }

  lemma OtherBlocks(svc: Tree, r: ResourcesCfg, block: string, key: string)
    requires svc.Mapping? && WellKeyed(svc) && r != ResourcesCfg("", "", "", "")
    ensures var was, now := DeployField(svc, "resources"), DeployField(ApplyResources(svc, r), "resources");
      && now.Some?
      && (block != "limits" && block != "reservations" ==>
           Get(now.value, block) == if was.Some? then Get(was.value, block) else None)
      && (key != "cpus" && key != "memory" && Get(now.value, block).Some? ==>
           Get(Get(now.value, block).value, key)
           == if was.Some? && Get(was.value, block).Some? then Get(Get(was.value, block).value, key) else None)
  {
    var t := DropAll(svc, LEGACY_FIELDS);
    LegacyDropped(svc, "");
    var deploy := AsMapping(Get(t, "deploy"));
    var resources := AsMapping(Get(deploy, "resources"));
    BlocksBelow(resources, r, block, key);
    YamlTree.GetPut(deploy, "resources", Blocks(resources, r));
    YamlTree.GetPut(t, "deploy", Put(deploy, "resources", Blocks(resources, r)));
  }

  lemma BlocksBelow(resources: Tree, r: ResourcesCfg, block: string, key: string)
    requires resources.Mapping? && WellKeyedResources(Some(resources))
    ensures var now := Blocks(resources, r);
      && (block != "limits" && block != "reservations" ==> Get(now, block) == Get(resources, block))
      && (key != "cpus" && key != "memory" && Get(now, block).Some? ==>
           Get(Get(now, block).value, key)
           == if Get(resources, block).Some? then Get(Get(resources, block).value, key) else None)
  {
    var limited := WithBlock(resources, "limits", r.cpusLimit, r.memoryLimit);
    assert Get(resources, "limits").Some? ==> UniqueFields(Get(resources, "limits").value);
    assert Get(resources, "reservations").Some? ==> UniqueFields(Get(resources, "reservations").value);
    WithBlockFields(resources, "limits", r.cpusLimit, r.memoryLimit, block);
    WithBlockFields(resources, "limits", r.cpusLimit, r.memoryLimit, "reservations");
    WithBlockFields(limited, "reservations", r.cpusReservation, r.memoryReservation, block);
    if key != "cpus" && key != "memory" {
      InsideBlock(resources, "limits", r.cpusLimit, r.memoryLimit, key);
      InsideBlock(limited, "reservations", r.cpusReservation, r.memoryReservation, key);
    }
  }

  lemma InsideBlock(resources: Tree, block: string, cpus: string, memory: string, key: string)
    requires resources.Mapping? && UniqueFields(resources) && key != "cpus" && key != "memory"
    requires Get(resources, block).Some? ==> UniqueFields(Get(resources, block).value)
    ensures var u := Get(WithBlock(resources, block, cpus, memory), block);
      u.Some? ==>
        Get(u.value, key) == if Get(resources, block).Some? then Get(Get(resources, block).value, key) else None
  {
    if cpus == "" && memory == "" {
      GetDrop(resources, block);
    } else {
      var b := AsMapping(Get(resources, block));
      var c := SetOrRemove(b, "cpus", cpus);
      SetOrRemoveFields(b, "cpus", cpus, key);
      SetOrRemoveFields(c, "memory", memory, key);
      YamlTree.GetPut(resources, block, SetOrRemove(c, "memory", memory));
    }
  }

  /** The first text that is not empty. */
  function First(a: string, b: string): string { if a == "" then b else a }

  /** The four settings of a service, by the places they can stand in. */
  function SettingsIn(svc: Tree): ResourcesCfg {
    ResourcesCfg(
      First(TextAt(svc, ["deploy", "resources", "limits", "cpus"]), TextAt(svc, ["cpus"])),
      TextAt(svc, ["deploy", "resources", "reservations", "cpus"]),
      First(TextAt(svc, ["deploy", "resources", "limits", "memory"]), TextAt(svc, ["mem_limit"])),
      First(TextAt(svc, ["deploy", "resources", "reservations", "memory"]), TextAt(svc, ["mem_reservation"])))
  }

  /** The wizard shows them, unless all four are empty. */
  lemma ResourcesAreRead(doc: Tree, name: string)
    requires DistinctServices(doc)
    ensures At(Extract(doc).resources, name) == match Service(doc, name)
      case None => None
      case Some(svc) => if SettingsIn(svc) == ResourcesCfg("", "", "", "") then None else Some(SettingsIn(svc))
  {
    ExtractAt(doc, name, Traefik);
    if Service(doc, name).Some? { SettingsAreRead(Service(doc, name).value); }
  }

  lemma SettingsAreRead(svc: Tree)
    ensures ResourcesOf(svc) == SettingsIn(svc)
  {
    TextBelow(svc, "limits", "cpus");
    TextBelow(svc, "limits", "memory");
    TextBelow(svc, "reservations", "cpus");
    TextBelow(svc, "reservations", "memory");
    TextOnTop(svc, "cpus");
    TextOnTop(svc, "mem_limit");
    TextOnTop(svc, "mem_reservation");
  }

  lemma TextOnTop(svc: Tree, key: string)
    ensures TextAt(svc, [key]) == ScalarText(svc, key)
  {
    PathStep(svc, key, []);
    assert [key] + [] == [key];
  }

  lemma TextBelow(svc: Tree, block: string, key: string)
    ensures BlockText(DeployField(svc, "resources"), block, key) == TextAt(svc, ["deploy", "resources", block, key])
  {
    PathThree(svc, block);
    PathFourth(svc, block, key);
  }

  // ---------- labels, as they are read ----------

  /** The namespace of each addon. */
  function Namespace(a: Addon): string {
    match a
    case Traefik => "traefik."
    case Sablier => "sablier."
    case Watchtower => "com.centurylinklabs.watchtower."
    case Backup => "backup."
  }

  function Switch(a: Addon): string { Namespace(a) + "enable" }

  function FieldOf(cfg: AddonsConfig, a: Addon): map<string, AddonCfg> {
    match a
    case Traefik => cfg.traefik
    case Sablier => cfg.sablier
    case Watchtower => cfg.watchtower
    case Backup => cfg.backup
  }

  /** What a list item says about a key: `key=value`, or the bare key. */
  function ItemSays(item: Tree, k: string): Option<string> {
    if !item.Scalar? || k == "" || '=' in k then None
    else if item.text == k then Some("")
    else if k + "=" <= item.text then Some(item.text[|k| + 1..])
    else None
  }

  /** What a labels node says about a key; of several entries the last one counts. */
  function LastSaid(t: Tree, k: string): Option<string>
    decreases if t.Mapping? then |t.entries| else if t.Sequence? then |t.items| else 0
  {
    match t
    case Mapping(es) =>
      if es == [] then None
      else if Value(es[|es| - 1].key) == k then Some(Value(es[|es| - 1].val))
      else LastSaid(Mapping(es[..|es| - 1]), k)
    case Sequence(ts) =>
      if ts == [] then None
      else if ItemSays(ts[|ts| - 1], k).Some? then ItemSays(ts[|ts| - 1], k)
      else LastSaid(Sequence(ts[..|ts| - 1]), k)
    case _ => None
  }

  function SaidBy(t: Option<Tree>, k: string): Option<string> {
    if t.Some? then LastSaid(t.value, k) else None
  }

  /** The label of a service: what `deploy.labels` says, or else what `labels` says. */
  function Effective(svc: Tree, k: string): Option<string> {
    var deploy := SaidBy(Path(svc, ["deploy", "labels"]), k);
    if deploy.Some? then deploy else SaidBy(Path(svc, ["labels"]), k)
  }

  lemma ItemIsSplit(item: Tree, k: string)
    requires k != ""
    ensures ItemSays(item, k) == if SplitLabel(item).0 == k then Some(SplitLabel(item).1) else None
  {
    if item.Scalar? {
      var text, eq := item.text, IndexOf(item.text, '=');
      if eq < |text| {
        assert text == text[..eq] + ['='] + text[eq + 1..];
        if '=' !in k && k + "=" <= text {
          assert text == k + ['='] + text[|k| + 1..];
          IndexOfAfter(k, '=', text[|k| + 1..]);
        }
        if text[..eq] == k { assert k + "=" <= text; }
      } else {
        assert text[..eq] == text;
        assert (k + "=")[|k|] == '=';
      }
    }
  }

  lemma {:induction false} CollectIsLast(t: Tree, into: Labels, k: string)
    ensures At(Collect(t, into), k) == if LastSaid(t, k).Some? then LastSaid(t, k) else At(into, k)
    decreases if t.Mapping? then |t.entries| else if t.Sequence? then |t.items| else 0
  {
    match t
    case Mapping(es) =>
      if es != [] {
        var front, last := es[..|es| - 1], es[|es| - 1];
        assert es == front + [last] && [last][1..] == [];
        CollectEntriesConcat(front, [last], into);
        CollectIsLast(Mapping(front), into, k);
      }
    case Sequence(ts) =>
      if ts != [] {
        var front, last := ts[..|ts| - 1], ts[|ts| - 1];
        assert ts == front + [last] && [last][1..] == [];
        CollectItemsConcat(front, [last], into);
        CollectIsLast(Sequence(front), into, k);
        if k != "" { ItemIsSplit(last, k); }
      }
    case _ =>
  }

  lemma LabelsAreEffective(svc: Tree, k: string)
    ensures At(LabelsOf(svc), k) == Effective(svc, k)
  {
    PathTwo(svc, "deploy", "labels");
    PathStep(svc, "labels", []);
    assert ["labels"] + [] == ["labels"];
    var top := match Get(svc, "labels") case Some(l) => Collect(l, map[]) case None => map[];
    if Get(svc, "labels").Some? { CollectIsLast(Get(svc, "labels").value, map[], k); }
    if DeployLabels(svc).Some? { CollectIsLast(DeployLabels(svc).value, top, k); }
  }

  /** What the wizard shows for an addon is what the labels of its namespace say, with
      `enable=true` shown as the switch; it shows nothing when there are none. */
  lemma SettingsAreLabels(doc: Tree, name: string, a: Addon)
    requires DistinctServices(doc)
    ensures var shown := At(FieldOf(Extract(doc), a), name);
      && (Service(doc, name).None? ==> shown.None?)
      && (Service(doc, name).Some? ==>
           var svc := Service(doc, name).value; var on := Effective(svc, Switch(a)) == Some("true");
           && (shown.None? <==> forall k :: Namespace(a) <= k ==> Effective(svc, k) == None)
           && (shown.Some? ==> shown.value.enabled == on)
           && (shown.Some? ==> forall k ::
                At(shown.value.labels, k)
                == if Namespace(a) <= k && !(on && k == Switch(a)) then Effective(svc, k) else None))
  {
    ExtractAt(doc, name, a);
    if Service(doc, name).Some? {
      var svc := Service(doc, name).value;
      forall k
        ensures At(LabelsOf(svc), k) == Effective(svc, k)
      {
        LabelsAreEffective(svc, k);
      }
      ShownLabels(a, LabelsOf(svc));
    }
  }

  lemma ShownLabels(a: Addon, m: Labels)
    ensures var c, on := FromLabels(a, m), At(m, Switch(a)) == Some("true");
      && c.enabled == on
      && (forall k :: At(c.labels, k) == if Namespace(a) <= k && !(on && k == Switch(a)) then At(m, k) else None)
      && (!Present(c) <==> forall k :: Namespace(a) <= k ==> At(m, k) == None)
  {
    var c, on := FromLabels(a, m), At(m, Switch(a)) == Some("true");
    assert Prefix(a) == Namespace(a) && EnableKey(a) == Switch(a);
    if !Present(c) {
      forall k | Namespace(a) <= k
        ensures At(m, k) == None
      {
        assert k !in c.labels;
      }
    } else if on {
      assert Namespace(a) <= Switch(a) && At(m, Switch(a)) != None;
    } else {
      var k :| k in c.labels;
      assert Namespace(a) <= k && At(m, k) != None;
    }
  }

  // ---------- labels, as they are written ----------

  /** What a save says about a key of an addon's namespace. */
  function SaidInSave(c: AddonCfg, a: Addon, k: string): Option<string> {
    if c.enabled && k == Switch(a) then Some("true") else At(c.labels, k)
  }

  /** A key belongs to an addon that the save names for the service. */
  predicate Taken(cfg: AddonsConfig, name: string, key: string) {
    exists a: Addon :: name in FieldOf(cfg, a) && Namespace(a) <= key
  }

  lemma TakenIsOwned(cfg: AddonsConfig, name: string, key: string)
    ensures Taken(cfg, name, key) <==> Owned(key, PurgeFor(cfg, name))
  {
    if Taken(cfg, name, key) {
      var a: Addon :| name in FieldOf(cfg, a) && Namespace(a) <= key;
      OwnedFor(cfg, name, a, key);
    }
    if Owned(key, PurgeFor(cfg, name)) {
      var p :| p in PurgeFor(cfg, name) && p <= key;
      var a := PurgedBy(cfg, name, p);
      assert Namespace(a) <= key && name in FieldOf(cfg, a);
    }
  }

  lemma LabelsOfServiceAfterSave(svc: Tree, cfg: AddonsConfig, mode: string, name: string, k: string)
    requires svc.Mapping? && Keyed(svc, name, cfg) && Fits(svc, name, cfg, mode)
    ensures At(LabelsOf(InjectService(svc, name, cfg, mode)), k)
         == if Owned(k, PurgeFor(cfg, name)) then At(LabelsFor(cfg, name), k) else At(LabelsOf(svc), k)
  {
    var now := InjectService(svc, name, cfg, mode);
    InjectServiceSlots(svc, name, cfg, mode);
    LabelledFacts(svc, name, cfg, mode);
    LabelsOfSlots(now);
    LabelsOfSlots(svc);
    PurgeForAddons(cfg, name);
    LabelsForOwned(cfg, name);
    if cfg.TouchesLabels(name) {
      ReadBack(SlotsOf(svc), PurgeFor(cfg, name), LabelsFor(cfg, name), mode, k);
    }
  }

  lemma SaveSays(cfg: AddonsConfig, name: string, a: Addon, k: string)
    requires Namespace(a) <= k && name in FieldOf(cfg, a)
    ensures At(LabelsFor(cfg, name), k) == SaidInSave(FieldOf(cfg, a)[name], a, k)
  {
    assert Prefix(a) == Namespace(a) && cfg.For(a) == FieldOf(cfg, a);
    LabelsForAt(cfg, name, a, k);
  }

  /** The labels of a service after a save that fits: in the namespaces of the addons it names, what
      it says, and everything else as before. */
  lemma LabelsAfterSave(doc: Tree, cfg: AddonsConfig, mode: string, name: string, k: string)
    requires Service(doc, name).Some? && ServiceKeyed(doc, cfg, name) && ServiceFits(doc, cfg, mode, name)
    ensures Service(Inject(doc, cfg, mode), name).Some?
    ensures var was, now := Service(doc, name).value, Service(Inject(doc, cfg, mode), name).value;
      && (forall a: Addon :: Namespace(a) <= k && name in FieldOf(cfg, a) ==>
           Effective(now, k) == SaidInSave(FieldOf(cfg, a)[name], a, k))
      && (!Taken(cfg, name, k) ==> Effective(now, k) == Effective(was, k))
  {
    ServiceOfInject(doc, cfg, mode, name);
    var svc := Service(doc, name).value;
    var now := InjectService(svc, name, cfg, mode);
    LabelsOfServiceAfterSave(svc, cfg, mode, name, k);
    LabelsAreEffective(now, k);
    LabelsAreEffective(svc, k);
    TakenIsOwned(cfg, name, k);
    forall a: Addon | Namespace(a) <= k && name in FieldOf(cfg, a)
      ensures Effective(now, k) == SaidInSave(FieldOf(cfg, a)[name], a, k)
    {
      SaveSays(cfg, name, a, k);
    }
  }

  /** The labels of a node that a save of that service does not own, in their order. */
  function Others(t: Tree, cfg: AddonsConfig, name: string): seq<Entry>
    decreases if t.Mapping? then |t.entries| else if t.Sequence? then |t.items| else 0
  {
    match t
    case Mapping(es) =>
      if es == [] then []
      else
        var n := |es| - 1;
        Others(Mapping(es[..n]), cfg, name) + if Taken(cfg, name, Value(es[n].key)) then [] else [es[n]]
    case Sequence(ts) =>
      if ts == [] then []
      else
        var n := |ts| - 1;
        Others(Sequence(ts[..n]), cfg, name)
        + if ts[n].Scalar? && Taken(cfg, name, ts[n].text) then [] else [Entry(Scalar(""), ts[n])]
    case _ => []
  }

  /** The items of a list, each as an entry without a name. */
  function Listed(ts: seq<Tree>): seq<Entry> {
    seq(|ts|, i requires 0 <= i < |ts| => Entry(Scalar(""), ts[i]))
  }

  function EntriesIn(t: Tree): seq<Entry> {
    match t
    case Mapping(es) => es
    case Sequence(ts) => Listed(ts)
    case _ => []
  }

  lemma ItemIsOwned(item: Tree, cfg: AddonsConfig, name: string)
    ensures Owned(SplitLabel(item).0, PurgeFor(cfg, name)) <==> item.Scalar? && Taken(cfg, name, item.text)
  {
    PurgeForAddons(cfg, name);
    if item.Scalar? {
      var eq := IndexOf(item.text, '=');
      PrefixBeforeEquals(item.text, PurgeFor(cfg, name));
      TakenIsOwned(cfg, name, item.text);
      if eq == |item.text| { assert item.text[..eq] == item.text; }
    } else if Owned("", PurgeFor(cfg, name)) {
      var p :| p in PurgeFor(cfg, name) && p <= "";
      var a := PurgedBy(cfg, name, p);
      PrefixFacts(a);
    }
  }

  lemma OthersAreKept(t: Tree, cfg: AddonsConfig, name: string)
    ensures EntriesIn(Strip(t, PurgeFor(cfg, name))) == Others(t, cfg, name)
  {
    match t
    case Mapping(es) => OtherEntries(es, cfg, name);
    case Sequence(ts) => OtherItems(ts, cfg, name);
    case _ =>
  }

  lemma {:induction false} OtherEntries(es: seq<Entry>, cfg: AddonsConfig, name: string)
    ensures KeepEntries(es, PurgeFor(cfg, name)) == Others(Mapping(es), cfg, name)
  {
    if es != [] {
      var front, last := es[..|es| - 1], es[|es| - 1];
      assert es == front + [last] && [last][1..] == [];
      KeepEntriesConcat(front, [last], PurgeFor(cfg, name));
      OtherEntries(front, cfg, name);
      TakenIsOwned(cfg, name, Value(last.key));
    }
  }

  lemma {:induction false} OtherItems(ts: seq<Tree>, cfg: AddonsConfig, name: string)
    ensures Listed(KeepItems(ts, PurgeFor(cfg, name))) == Others(Sequence(ts), cfg, name)
  {
    if ts != [] {
      var front, last := ts[..|ts| - 1], ts[|ts| - 1];
      assert ts == front + [last] && [last][1..] == [];
      KeepItemsConcat(front, [last], PurgeFor(cfg, name));
      OtherItems(front, cfg, name);
      ItemIsOwned(last, cfg, name);
      var kept := KeepItems(front, PurgeFor(cfg, name));
      assert Listed(kept + [last]) == Listed(kept) + [Entry(Scalar(""), last)];
    }
  }

  /** The labels node that a mode writes to, and the other one. */
  function Place(mode: string): seq<string> { if mode == "swarm" then ["deploy", "labels"] else ["labels"] }
  function OtherPlace(mode: string): seq<string> { if mode == "swarm" then ["labels"] else ["deploy", "labels"] }

  function OthersAt(svc: Tree, place: seq<string>, cfg: AddonsConfig, name: string): seq<Entry> {
    if Path(svc, place).Some? then Others(Path(svc, place).value, cfg, name) else []
  }

  lemma SlotsArePaths(svc: Tree)
    ensures SlotsOf(svc) == Slots(Path(svc, ["labels"]), Path(svc, ["deploy", "labels"]))
  {
    PathTwo(svc, "deploy", "labels");
    PathStep(svc, "labels", []);
    assert ["labels"] + [] == ["labels"];
  }

  /** Labels that the save does not own keep their place, order, key and value in both nodes, and
      nothing it owns is left in the other place. */
  lemma OtherLabelsStay(doc: Tree, cfg: AddonsConfig, mode: string, name: string)
    requires Service(doc, name).Some? && ServiceKeyed(doc, cfg, name)
    ensures Service(Inject(doc, cfg, mode), name).Some?
    ensures var was, now := Service(doc, name).value, Service(Inject(doc, cfg, mode), name).value;
      && OthersAt(now, Place(mode), cfg, name) == OthersAt(was, Place(mode), cfg, name)
      && OthersAt(now, OtherPlace(mode), cfg, name) == OthersAt(was, OtherPlace(mode), cfg, name)
      && (Path(now, OtherPlace(mode)).Some? ==>
           EntriesIn(Path(now, OtherPlace(mode)).value) == OthersAt(now, OtherPlace(mode), cfg, name))
  {
    var svc := Service(doc, name).value;
    var now := InjectService(svc, name, cfg, mode);
    ServiceOfInject(doc, cfg, mode, name);
    ServiceFrame(svc, name, cfg, mode);
    SlotsArePaths(svc);
    SlotsArePaths(now);
    OthersAreKept(OrEmpty(SlotsOf(svc).top), cfg, name);
    OthersAreKept(OrEmpty(SlotsOf(svc).deploy), cfg, name);
    OthersAreKept(OrEmpty(SlotsOf(now).top), cfg, name);
    OthersAreKept(OrEmpty(SlotsOf(now).deploy), cfg, name);
  }

  /** A labels node holds some entries and then one for each key, in that order. */
  predicate EndsWith(t: Tree, first: seq<Entry>, keys: seq<string>) {
    var es, n := EntriesIn(t), |first|;
    && |es| == n + |keys| && es[..n] == first
    && (t.Mapping? ==> forall i :: 0 <= i < |keys| ==> Value(es[n + i].key) == keys[i])
    && (t.Sequence? ==> forall i :: 0 <= i < |keys| ==>
         es[n + i].val.Scalar? && keys[i] + "=" <= es[n + i].val.text)
  }

  lemma WrittenLast(kept: Tree, m: Labels)
    requires kept.Mapping? || kept.Sequence?
    ensures EndsWith(Write(kept, m), EntriesIn(kept), SortedKeys(m.Keys))
  {
    var keys := SortedKeys(m.Keys);
    if kept.Mapping? {
      EntriesLast(kept.entries, keys, m);
    } else {
      ItemsLast(kept.items, keys, m);
    }
  }

  lemma EntriesLast(es: seq<Entry>, keys: seq<string>, m: Labels)
    requires forall k :: k in keys ==> k in m
    ensures EndsWith(Mapping(es + EntriesOf(keys, m)), es, keys)
  {
    var all := es + EntriesOf(keys, m);
    assert all[..|es|] == es;
    forall i | 0 <= i < |keys|
      ensures Value(all[|es| + i].key) == keys[i]
    {
      assert all[|es| + i] == EntriesOf(keys, m)[i];
    }
  }

  lemma ItemsLast(ts: seq<Tree>, keys: seq<string>, m: Labels)
    requires forall k :: k in keys ==> k in m
    ensures EndsWith(Sequence(ts + ItemsOf(keys, m)), Listed(ts), keys)
  {
    var all := ts + ItemsOf(keys, m);
    assert Listed(all)[..|ts|] == Listed(ts);
    forall i | 0 <= i < |keys|
      ensures Listed(all)[|ts| + i].val.Scalar? && keys[i] + "=" <= Listed(all)[|ts| + i].val.text
    {
      assert all[|ts| + i] == ItemsOf(keys, m)[i];
      assert keys[i] + "=" <= keys[i] + "=" + m[keys[i]];
    }
  }

  lemma TargetAfterSave(svc: Tree, cfg: AddonsConfig, mode: string, name: string)
    requires svc.Mapping? && Keyed(svc, name, cfg) && cfg.TouchesLabels(name)
    ensures Path(InjectService(svc, name, cfg, mode), Place(mode))
         == Some(Write(Strip(OrEmpty(Path(svc, Place(mode))), PurgeFor(cfg, name)), LabelsFor(cfg, name)))
  {
    InjectServiceSlots(svc, name, cfg, mode);
    LabelledFacts(svc, name, cfg, mode);
    SlotsArePaths(svc);
    SlotsArePaths(InjectService(svc, name, cfg, mode));
  }

  /** In the node a save writes to, its labels come after all others, in ascending order of their keys. */
  lemma NewLabelsAscend(doc: Tree, cfg: AddonsConfig, mode: string, name: string) returns (keys: seq<string>)
    requires Service(doc, name).Some? && ServiceKeyed(doc, cfg, name) && cfg.TouchesLabels(name)
    requires var target := Path(Service(doc, name).value, Place(mode));
      target.None? || target.value.Mapping? || target.value.Sequence?
    ensures Ascending(keys) && forall k :: k in keys ==> Taken(cfg, name, k)
    ensures Service(Inject(doc, cfg, mode), name).Some?
    ensures var was, now := Service(doc, name).value, Service(Inject(doc, cfg, mode), name).value;
      && Path(now, Place(mode)).Some?
      && EndsWith(Path(now, Place(mode)).value, OthersAt(was, Place(mode), cfg, name), keys)
  {
    var svc := Service(doc, name).value;
    var m, was := LabelsFor(cfg, name), OrEmpty(Path(svc, Place(mode)));
    ServiceOfInject(doc, cfg, mode, name);
    TargetAfterSave(svc, cfg, mode, name);
    OthersAreKept(was, cfg, name);
    keys := SortedKeys(m.Keys);
    LabelsForOwned(cfg, name);
    forall k | k in keys
      ensures Taken(cfg, name, k)
    {
      TakenIsOwned(cfg, name, k);
    }
    WrittenLast(Strip(was, PurgeFor(cfg, name)), m);
  }
}
