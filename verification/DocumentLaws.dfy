/** The laws of a wizard save, stated over whole compose documents. */
module DocumentLaws {
  import opened Wrappers
  import opened YamlTree
  import opened AddonSpec
  import opened LabelLaws
  import opened ServiceLaws
  import opened ResourceLaws
  import opened AddonLaws

  /** The service of that name, if it is a mapping. */
  function Service(doc: Tree, name: string): Option<Tree> {
    var es := ServicesOf(doc);
    var i := FieldAt(es, name);
    if i < |es| && es[i].val.Mapping? then Some(es[i].val) else None
  }

  ghost predicate DistinctServices(doc: Tree) {
    UniqueFields(Mapping(ServicesOf(doc)))
  }

  /** What the wizard shows for settings read from a service. */
  function Shown(c: AddonCfg): Option<AddonCfg> {
    if Present(c) then Some(c) else None
  }

  function ShownResources(r: ResourcesCfg): Option<ResourcesCfg> {
    if r != NO_RESOURCES then Some(r) else None
  }

  // ---------- services of an injected document ----------

  lemma SameKeys(es: seq<Entry>, fs: seq<Entry>, name: string)
    requires |es| == |fs| && forall i :: 0 <= i < |es| ==> es[i].key == fs[i].key
    ensures FieldAt(es, name) == FieldAt(fs, name)
  {
    FieldAtIs(fs, name, FieldAt(es, name));
  }

  lemma ServicesOfInject(doc: Tree, cfg: AddonsConfig, mode: string)
    ensures ServicesOf(Inject(doc, cfg, mode)) == InjectServices(ServicesOf(doc), cfg, mode)
    ensures DistinctServices(doc) ==> DistinctServices(Inject(doc, cfg, mode))
  {
    match Get(doc, "services")
    case Some(Mapping(es)) => YamlTree.GetPut(doc, "services", Mapping(InjectServices(es, cfg, mode)));
    case _ =>
  }

  lemma ServiceOfInject(doc: Tree, cfg: AddonsConfig, mode: string, name: string)
    ensures Service(Inject(doc, cfg, mode), name)
         == match Service(doc, name)
            case None => None
            case Some(s) => Some(InjectService(s, name, cfg, mode))
  {
    var es := ServicesOf(doc);
    ServicesOfInject(doc, cfg, mode);
    SameKeys(es, InjectServices(es, cfg, mode), name);
    if Service(doc, name).Some? { InjectServiceMapping(Service(doc, name).value, name, cfg, mode); }
  }

  lemma InjectServiceMapping(svc: Tree, name: string, cfg: AddonsConfig, mode: string)
    requires svc.Mapping?
    ensures InjectService(svc, name, cfg, mode).Mapping?
  {
    LabelledFacts(svc, name, cfg, mode);
    if name in cfg.resources {
      ApplyResourcesMapping(Labelled(svc, name, cfg, mode), cfg.resources[name]);
    }
  }

  lemma ApplyResourcesMapping(t: Tree, r: ResourcesCfg)
    requires t.Mapping?
    ensures ApplyResources(t, r).Mapping?
  {
    DropAllMapping(t, LEGACY_FIELDS);
  }

  lemma {:induction false} DropAllMapping(t: Tree, keys: seq<string>)
    requires t.Mapping?
    ensures DropAll(t, keys).Mapping?
    decreases |keys|
  {
    if keys != [] { DropAllMapping(t, keys[..|keys| - 1]); }
  }

  // ---------- extraction, service by service ----------

  /** What the last service adds to the settings of one addon. */
  lemma ExtractAddonLast(a: Addon, es: seq<Entry>, name: string)
    requires es != []
    ensures At(ExtractAddon(a, es), name)
         == var e := es[|es| - 1];
            if Value(e.key) == name && e.val.Mapping? && Present(FromLabels(a, LabelsOf(e.val)))
            then Some(FromLabels(a, LabelsOf(e.val)))
            else At(ExtractAddon(a, es[..|es| - 1]), name)
  {
  }

  lemma {:induction false} ExtractAddonAt(a: Addon, es: seq<Entry>, name: string)
    requires UniqueFields(Mapping(es))
    ensures At(ExtractAddon(a, es), name)
         == var i := FieldAt(es, name);
            if i < |es| && es[i].val.Mapping? then Shown(FromLabels(a, LabelsOf(es[i].val))) else None
    decreases |es|
  {
    if es != [] {
      var n := |es| - 1;
      var front := es[..n];
      ExtractAddonAt(a, front, name);
      ExtractAddonLast(a, es, name);
      LastField(es, name);
      var i := FieldAt(front, name);
      if Value(es[n].key) == name {
        assert At(ExtractAddon(a, front), name) == None;
      } else if i < n {
        assert front[i] == es[i];
      }
    }
  }

  lemma {:induction false} ExtractResourcesAt(es: seq<Entry>, name: string)
    requires UniqueFields(Mapping(es))
    ensures At(ExtractResources(es), name)
         == var i := FieldAt(es, name);
            if i < |es| && es[i].val.Mapping? then ShownResources(ResourcesOf(es[i].val)) else None
    decreases |es|
  {
    if es != [] {
      var n := |es| - 1;
      var front := es[..n];
      ExtractResourcesAt(front, name);
      LastField(es, name);
      var i := FieldAt(front, name);
      if Value(es[n].key) == name {
        assert At(ExtractResources(front), name) == None;
      } else if i < n {
        assert front[i] == es[i];
      }
    }
  }

  lemma LastField(es: seq<Entry>, name: string)
    requires es != [] && UniqueFields(Mapping(es))
    ensures var n := |es| - 1;
      var i := FieldAt(es[..n], name);
      && (Value(es[n].key) == name ==> i == n && FieldAt(es, name) == n)
      && (Value(es[n].key) != name ==> FieldAt(es, name) == if i < n then i else |es|)
  {
    var n := |es| - 1;
    var i := FieldAt(es[..n], name);
    assert forall j :: 0 <= j < n ==> es[..n][j] == es[j];
    if Value(es[n].key) == name {
      FieldAtIs(es[..n], name, n);
      FieldAtIs(es, name, n);
    } else if i < n {
      FieldAtIs(es, name, i);
    } else {
      FieldAtIs(es, name, |es|);
    }
  }

  lemma ExtractAt(doc: Tree, name: string, a: Addon)
    requires DistinctServices(doc)
    ensures At(Extract(doc).For(a), name)
         == match Service(doc, name)
            case None => None
            case Some(s) => Shown(FromLabels(a, LabelsOf(s)))
    ensures At(Extract(doc).resources, name)
         == match Service(doc, name)
            case None => None
            case Some(s) => ShownResources(ResourcesOf(s))
  {
    ExtractAddonAt(a, ServicesOf(doc), name);
    ExtractResourcesAt(ServicesOf(doc), name);
  }

  // ---------- put-get ----------

  /** What the wizard should show for one addon of one service after a save. */
  function Expected(doc: Tree, cfg: AddonsConfig, name: string, a: Addon): Option<AddonCfg> {
    if Service(doc, name).Some? && name in cfg.For(a) then Shown(Canonical(a, cfg.For(a)[name]))
    else At(Extract(doc).For(a), name)
  }

  function ExpectedResources(doc: Tree, cfg: AddonsConfig, name: string): Option<ResourcesCfg> {
    if Service(doc, name).Some? && name in cfg.resources then ShownResources(cfg.resources[name])
    else At(Extract(doc).resources, name)
  }

  ghost predicate ServiceKeyed(doc: Tree, cfg: AddonsConfig, name: string) {
    Service(doc, name).Some? ==> Keyed(Service(doc, name).value, name, cfg)
  }

  predicate ServiceFits(doc: Tree, cfg: AddonsConfig, mode: string, name: string) {
    Service(doc, name).Some? ==> Fits(Service(doc, name).value, name, cfg, mode)
  }

  /** Put-get: the wizard shows the canonical form of what was saved, and the old answer
      for everything the save did not name, exactly when the labels of the save fit where
      the mode puts them. */
  lemma PutGet(doc: Tree, cfg: AddonsConfig, mode: string, name: string)
    requires DistinctServices(doc) && ServiceKeyed(doc, cfg, name)
    ensures (forall a: Addon :: At(Extract(Inject(doc, cfg, mode)).For(a), name) == Expected(doc, cfg, name, a))
            <==> ServiceFits(doc, cfg, mode, name)
  {
    var after := Inject(doc, cfg, mode);
    ServicesOfInject(doc, cfg, mode);
    ServiceOfInject(doc, cfg, mode, name);
    forall a: Addon
      ensures ServiceFits(doc, cfg, mode, name) ==> At(Extract(after).For(a), name) == Expected(doc, cfg, name, a)
    {
      ExtractAt(doc, name, a);
      ExtractAt(after, name, a);
      if Service(doc, name).Some? && ServiceFits(doc, cfg, mode, name) {
        ServicePutGet(Service(doc, name).value, name, cfg, mode, a);
      }
    }
    if !ServiceFits(doc, cfg, mode, name) {
      var a := ServiceMisread(Service(doc, name).value, name, cfg, mode);
      ExtractAt(after, name, a);
      assert At(Extract(after).For(a), name) != Expected(doc, cfg, name, a);
    }
  }

  /** Resources come back field by field whatever shape the labels have. */
  lemma PutGetResources(doc: Tree, cfg: AddonsConfig, mode: string, name: string)
    requires DistinctServices(doc) && ServiceKeyed(doc, cfg, name)
    ensures At(Extract(Inject(doc, cfg, mode)).resources, name) == ExpectedResources(doc, cfg, name)
  {
    ServicesOfInject(doc, cfg, mode);
    ServiceOfInject(doc, cfg, mode, name);
    ExtractAt(doc, name, Traefik);
    ExtractAt(Inject(doc, cfg, mode), name, Traefik);
    if Service(doc, name).Some? {
      ServiceResources(Service(doc, name).value, name, cfg, mode);
    }
  }

  // ---------- get-put ----------

  lemma SameMap<V>(m: map<string, V>, n: map<string, V>)
    requires forall k :: At(m, k) == At(n, k)
    ensures m == n
  {
    assert forall k :: k in m ==> At(n, k) == Some(m[k]);
    assert forall k :: k in n ==> At(m, k) == Some(n[k]);
  }

  /** Expecting what was just extracted is expecting no change. */
  lemma ExtractedExpected(doc: Tree, name: string, a: Addon)
    requires DistinctServices(doc)
    ensures Expected(doc, Extract(doc), name, a) == At(Extract(doc).For(a), name)
    ensures ExpectedResources(doc, Extract(doc), name) == At(Extract(doc).resources, name)
  {
    ExtractAt(doc, name, a);
    if Service(doc, name).Some? { FromLabelsCanonical(a, LabelsOf(Service(doc, name).value)); }
  }

  /** Get-put: saving back what was extracted leaves the extracted settings as they are,
      exactly when every service's labels fit where the mode puts them - even if the save
      moves labels between the two places or lifts legacy fields into `deploy.resources`. */
  lemma GetPut(doc: Tree, mode: string)
    requires DistinctServices(doc)
    requires forall name :: ServiceKeyed(doc, Extract(doc), name)
    ensures Extract(Inject(doc, Extract(doc), mode)) == Extract(doc)
            <==> forall name :: ServiceFits(doc, Extract(doc), mode, name)
  {
    var cfg := Extract(doc);
    var again := Extract(Inject(doc, cfg, mode));
    forall name
      ensures ServiceFits(doc, cfg, mode, name) <==> forall a: Addon :: At(again.For(a), name) == At(cfg.For(a), name)
      ensures At(again.resources, name) == At(cfg.resources, name)
    {
      PutGet(doc, cfg, mode, name);
      PutGetResources(doc, cfg, mode, name);
      forall a: Addon
        ensures Expected(doc, cfg, name, a) == At(cfg.For(a), name)
        ensures ExpectedResources(doc, cfg, name) == At(cfg.resources, name)
      {
        ExtractedExpected(doc, name, a);
      }
      assert ExpectedResources(doc, cfg, name) == At(cfg.resources, name) by { ExtractedExpected(doc, name, Traefik); }
    }
    SameMap(again.resources, cfg.resources);
    if forall name :: ServiceFits(doc, cfg, mode, name) {
      forall a: Addon
        ensures again.For(a) == cfg.For(a)
      {
        forall name
          ensures At(again.For(a), name) == At(cfg.For(a), name)
        {
          assert ServiceFits(doc, cfg, mode, name);
        }
        SameMap(again.For(a), cfg.For(a));
      }
      assert again.For(Traefik) == cfg.For(Traefik) && again.For(Sablier) == cfg.For(Sablier);
      assert again.For(Watchtower) == cfg.For(Watchtower) && again.For(Backup) == cfg.For(Backup);
    }
  }

  // ---------- saving again ----------

  lemma PutServices(doc: Tree, es: seq<Entry>, fs: seq<Entry>)
    requires doc.Mapping?
    ensures Put(Put(doc, "services", Mapping(es)), "services", Mapping(fs)) == Put(doc, "services", Mapping(fs))
  {
    PutPut(doc, "services", Mapping(es), Mapping(fs));
  }

  /** Saving the same settings twice gives the same tree as saving them once. */
  lemma Idempotent(doc: Tree, cfg: AddonsConfig, mode: string)
    requires forall name :: ServiceKeyed(doc, cfg, name)
    ensures Inject(Inject(doc, cfg, mode), cfg, mode) == Inject(doc, cfg, mode)
  {
    match Get(doc, "services")
    case Some(Mapping(es)) =>
      var fs := InjectServices(es, cfg, mode);
      YamlTree.GetPut(doc, "services", Mapping(fs));
      var gs := InjectServices(fs, cfg, mode);
      forall i | 0 <= i < |es|
        ensures gs[i] == fs[i]
      {
        var name := Value(es[i].key);
        SameKeys(es, fs, name);
        if FieldAt(es, name) == i && es[i].val.Mapping? {
          assert ServiceKeyed(doc, cfg, name);
          ServiceIdempotent(es[i].val, name, cfg, mode);
        }
      }
      assert gs == fs;
      PutServices(doc, fs, fs);
    case _ =>
  }

  /** The last save wins: after two saves the label nodes of a service are those of the
      second alone, if it names at least the label namespaces of the first. */
  lemma LastSaveWins(doc: Tree, earlier: AddonsConfig, later: AddonsConfig, mode: string, name: string)
    requires Service(doc, name).Some? && Covers(later, earlier, name)
    requires name in earlier.resources || name in later.resources ==> WellKeyed(Service(doc, name).value)
    ensures var both, once := Service(Inject(Inject(doc, earlier, mode), later, mode), name),
                              Service(Inject(doc, later, mode), name);
      both.Some? && once.Some? && SlotsOf(both.value) == SlotsOf(once.value)
  {
    ServiceOfInject(doc, earlier, mode, name);
    ServiceOfInject(doc, later, mode, name);
    ServiceOfInject(Inject(doc, earlier, mode), later, mode, name);
    ServiceLastSaveWins(Service(doc, name).value, name, earlier, later, mode);
  }

  // ---------- what a save leaves alone ----------

  predicate Touches(cfg: AddonsConfig, name: string) {
    cfg.TouchesLabels(name) || name in cfg.resources
  }

  /** Everything outside the named services stays: the other fields of the document, the
      service names and their order, and every service the settings do not name. */
  lemma Frame(doc: Tree, cfg: AddonsConfig, mode: string, field: string)
    ensures field != "services" ==> Get(Inject(doc, cfg, mode), field) == Get(doc, field)
    ensures var was, now := ServicesOf(doc), ServicesOf(Inject(doc, cfg, mode));
      |now| == |was| && forall i :: 0 <= i < |was| ==>
        && now[i].key == was[i].key
        && (!was[i].val.Mapping? || !Touches(cfg, Value(was[i].key)) ==> now[i] == was[i])
  {
    ServicesOfInject(doc, cfg, mode);
    match Get(doc, "services")
    case Some(Mapping(es)) =>
      if field != "services" { GetPutOther(doc, "services", Mapping(InjectServices(es, cfg, mode)), field); }
    case _ =>
  }

  /** In a named service the labels of other namespaces keep their order and value in both
      places, and none of the named namespaces is left outside the mode's place. */
  lemma LabelFrame(doc: Tree, cfg: AddonsConfig, mode: string, name: string)
    requires Service(doc, name).Some? && ServiceKeyed(doc, cfg, name)
    ensures var ps, was, now := PurgeFor(cfg, name), SlotsOf(Service(doc, name).value),
                                SlotsOf(InjectService(Service(doc, name).value, name, cfg, mode));
      && Service(Inject(doc, cfg, mode), name) == Some(InjectService(Service(doc, name).value, name, cfg, mode))
      && Strip(OrEmpty(now.top), ps) == Strip(OrEmpty(was.top), ps)
      && Strip(OrEmpty(now.deploy), ps) == Strip(OrEmpty(was.deploy), ps)
      && (if mode == "swarm" then StripSlot(now.top, ps) == now.top else StripSlot(now.deploy, ps) == now.deploy)
  {
    ServiceOfInject(doc, cfg, mode, name);
    ServiceFrame(Service(doc, name).value, name, cfg, mode);
  }

  /** Keys stay unique: in both label nodes of every service, and among its own fields. */
  lemma KeysStayUnique(doc: Tree, cfg: AddonsConfig, mode: string, name: string)
    requires Service(doc, name).Some? && WellKeyed(Service(doc, name).value)
    requires UniqueSlots(SlotsOf(Service(doc, name).value))
    ensures var now := Service(Inject(doc, cfg, mode), name);
      now.Some? && UniqueSlots(SlotsOf(now.value)) && WellKeyed(now.value)
  {
    ServiceOfInject(doc, cfg, mode, name);
    ServiceKeysStayUnique(Service(doc, name).value, name, cfg, mode);
    InjectServiceWellKeyed(Service(doc, name).value, name, cfg, mode);
  }

  /** Settings that name nothing change nothing, so returning early changes nothing either. */
  lemma InjectNothing(doc: Tree, cfg: AddonsConfig, mode: string)
    requires !cfg.HasAny()
    ensures Inject(doc, cfg, mode) == doc
  {
    match Get(doc, "services")
    case Some(Mapping(es)) =>
      assert InjectServices(es, cfg, mode) == es;
      PutSame(doc, "services");
    case _ =>
  }
}
