/** The laws of a wizard save over a whole compose document: what is read back after a
    save, what a save leaves alone, and what saving again does. */
module AddonLaws {
  import opened Wrappers
  import opened Text
  import opened YamlTree
  import opened AddonSpec
  import opened LabelLaws
  import opened ServiceLaws
  import opened ResourceLaws

  // ---------- one service ----------

  /** The labels of the save fit where the mode puts them. */
  predicate Fits(svc: Tree, name: string, cfg: AddonsConfig, mode: string) {
    cfg.TouchesLabels(name) ==> Writable(SlotsOf(svc), LabelsFor(cfg, name), mode)
  }

  /** Only saves of resources care about repeated keys. */
  ghost predicate Keyed(svc: Tree, name: string, cfg: AddonsConfig) {
    name in cfg.resources ==> WellKeyed(svc)
  }

  function Labelled(svc: Tree, name: string, cfg: AddonsConfig, mode: string): Tree {
    if cfg.TouchesLabels(name) then InjectLabels(svc, PurgeFor(cfg, name), LabelsFor(cfg, name), mode) else svc
  }

  lemma LabelledFacts(svc: Tree, name: string, cfg: AddonsConfig, mode: string)
    requires svc.Mapping?
    ensures var s := Labelled(svc, name, cfg, mode);
      && s.Mapping? && ResourcesOf(s) == ResourcesOf(svc)
      && (WellKeyed(svc) ==> WellKeyed(s))
      && SlotsOf(s) == if cfg.TouchesLabels(name)
                       then SlotsAfter(SlotsOf(svc), PurgeFor(cfg, name), LabelsFor(cfg, name), mode)
                       else SlotsOf(svc)
  {
    if cfg.TouchesLabels(name) {
      var ps, m := PurgeFor(cfg, name), LabelsFor(cfg, name);
      InjectLabelsFields(svc, ps, m, mode, "");
      InjectLabelsResources(svc, ps, m, mode);
      InjectLabelsSlots(svc, ps, m, mode);
      if WellKeyed(svc) { InjectLabelsWellKeyed(svc, ps, m, mode); }
    }
  }

  /** A save leaves the labels where the label step put them. */
  lemma InjectServiceSlots(svc: Tree, name: string, cfg: AddonsConfig, mode: string)
    requires svc.Mapping? && Keyed(svc, name, cfg)
    ensures InjectService(svc, name, cfg, mode).Mapping?
    ensures SlotsOf(InjectService(svc, name, cfg, mode)) == SlotsOf(Labelled(svc, name, cfg, mode))
  {
    LabelledFacts(svc, name, cfg, mode);
    if name in cfg.resources {
      ApplyResourcesSlots(Labelled(svc, name, cfg, mode), cfg.resources[name]);
      ApplyResourcesFields(Labelled(svc, name, cfg, mode), cfg.resources[name], "");
    }
  }

  /** What one addon reads from a service after a save it fits into. */
  lemma ServicePutGet(svc: Tree, name: string, cfg: AddonsConfig, mode: string, a: Addon)
    requires svc.Mapping? && Keyed(svc, name, cfg) && Fits(svc, name, cfg, mode)
    ensures FromLabels(a, LabelsOf(InjectService(svc, name, cfg, mode)))
         == if name in cfg.For(a) then Canonical(a, cfg.For(a)[name]) else FromLabels(a, LabelsOf(svc))
  {
    InjectServiceSlots(svc, name, cfg, mode);
    LabelledFacts(svc, name, cfg, mode);
    var s := InjectService(svc, name, cfg, mode);
    LabelsOfSlots(s);
    LabelsOfSlots(svc);
    if cfg.TouchesLabels(name) {
      var ps, m := PurgeFor(cfg, name), LabelsFor(cfg, name);
      PurgeForAddons(cfg, name);
      LabelsForOwned(cfg, name);
      forall k | Prefix(a) <= k
        ensures At(LabelsOf(s), k) == At(if name in cfg.For(a) then Built(a, cfg.For(a)[name]) else LabelsOf(svc), k)
      {
        ReadBack(SlotsOf(svc), ps, m, mode, k);
        OwnedFor(cfg, name, a, k);
        LabelsForAt(cfg, name, a, k);
      }
      FromLabelsAgree(a, LabelsOf(s), if name in cfg.For(a) then Built(a, cfg.For(a)[name]) else LabelsOf(svc));
      if name in cfg.For(a) { FromBuilt(a, cfg.For(a)[name]); }
    }
  }

  /** After a save that does not fit, some addon reads something else than was saved. */
  lemma ServiceMisread(svc: Tree, name: string, cfg: AddonsConfig, mode: string) returns (a: Addon)
    requires svc.Mapping? && Keyed(svc, name, cfg) && !Fits(svc, name, cfg, mode)
    ensures name in cfg.For(a)
    ensures FromLabels(a, LabelsOf(InjectService(svc, name, cfg, mode))) != Canonical(a, cfg.For(a)[name])
    ensures Present(Canonical(a, cfg.For(a)[name]))
  {
    InjectServiceSlots(svc, name, cfg, mode);
    LabelledFacts(svc, name, cfg, mode);
    var s := InjectService(svc, name, cfg, mode);
    LabelsOfSlots(s);
    PurgeForAddons(cfg, name);
    LabelsForOwned(cfg, name);
    var k := NotReadBack(SlotsOf(svc), PurgeFor(cfg, name), LabelsFor(cfg, name), mode);
    a := WrittenBy(cfg, name, k);
    var c := cfg.For(a)[name];
    BuiltOwned(a, c, k);
    FromBuilt(a, c);
    if k == EnableKey(a) && Built(a, c)[k] == "true" {
      assert FromLabels(a, Built(a, c)).enabled && !FromLabels(a, LabelsOf(s)).enabled;
    } else {
      assert k in FromLabels(a, Built(a, c)).labels && k !in FromLabels(a, LabelsOf(s)).labels;
    }
  }

  lemma ServiceResources(svc: Tree, name: string, cfg: AddonsConfig, mode: string)
    requires svc.Mapping? && Keyed(svc, name, cfg)
    ensures ResourcesOf(InjectService(svc, name, cfg, mode))
         == if name in cfg.resources then cfg.resources[name] else ResourcesOf(svc)
  {
    LabelledFacts(svc, name, cfg, mode);
    if name in cfg.resources {
      ResourcesPutGet(Labelled(svc, name, cfg, mode), cfg.resources[name]);
    }
  }

  /** Labels a save has settled: nothing of the purged namespaces outside the target, and
      in the target exactly the new labels, last. */
  lemma SettledLabels(svc: Tree, was: Slots, ps: seq<string>, m: Labels, mode: string)
    requires svc.Mapping? && AddonPrefixes(ps) && AllOwned(m, ps)
    requires SlotsOf(svc) == SlotsAfter(was, ps, m, mode)
    ensures InjectLabels(svc, ps, m, mode) == svc
  {
    var s := SlotsOf(svc);
    var top, deploy := StripSlot(was.top, ps), StripSlot(was.deploy, ps);
    if was.top.Some? { StripStrip(was.top.value, ps, ps); }
    if was.deploy.Some? { StripStrip(was.deploy.value, ps, ps); }
    StripStrip(Mapping([]), ps, ps);
    if mode == "swarm" {
      StripWrite(OrEmpty(deploy), ps, m);
      assert StripSlot(s.top, ps) == s.top;
      assert StripSlot(s.deploy, ps) == Some(OrEmpty(deploy));
      var d := Get(svc, "deploy").value;
      StripInSame(svc, ps);
      StripThenWrite(d, ps, m, OrEmpty(deploy));
      var e := StripIn(d, ps);
      GetPut(svc, "deploy", e);
      PutPut(svc, "deploy", e, WriteIn(e, m));
      PutSame(svc, "deploy");
    } else {
      StripWrite(OrEmpty(top), ps, m);
      assert StripSlot(s.deploy, ps) == s.deploy;
      StripInFields(svc, ps, "deploy");
      var t := StripIn(svc, ps);
      if Get(svc, "deploy").Some? {
        StripInSame(Get(svc, "deploy").value, ps);
        PutSame(t, "deploy");
      }
      StripThenWrite(svc, ps, m, OrEmpty(top));
    }
  }

  lemma StripInSame(t: Tree, ps: seq<string>)
    requires StripSlot(Get(t, "labels"), ps) == Get(t, "labels")
    ensures StripIn(t, ps) == t
  {
    if Get(t, "labels").Some? { PutSame(t, "labels"); }
  }

  lemma StripThenWrite(t: Tree, ps: seq<string>, m: Labels, others: Tree)
    requires t.Mapping? && Get(t, "labels") == Some(Write(others, m))
    requires Strip(Write(others, m), ps) == others
    ensures StripIn(t, ps).Mapping? && WriteIn(StripIn(t, ps), m) == t
  {
    GetPut(t, "labels", others);
    PutPut(t, "labels", others, Write(others, m));
    PutSame(t, "labels");
  }

  /** Saving the same settings twice is saving them once. */
  lemma ServiceIdempotent(svc: Tree, name: string, cfg: AddonsConfig, mode: string)
    requires svc.Mapping? && Keyed(svc, name, cfg)
    ensures InjectService(InjectService(svc, name, cfg, mode), name, cfg, mode) == InjectService(svc, name, cfg, mode)
  {
    var s := InjectService(svc, name, cfg, mode);
    InjectServiceSlots(svc, name, cfg, mode);
    LabelledFacts(svc, name, cfg, mode);
    if cfg.TouchesLabels(name) {
      PurgeForAddons(cfg, name);
      LabelsForOwned(cfg, name);
      SettledLabels(s, SlotsOf(svc), PurgeFor(cfg, name), LabelsFor(cfg, name), mode);
    }
    if name in cfg.resources {
      ApplyResourcesFields(Labelled(svc, name, cfg, mode), cfg.resources[name], "");
      ResourcesSettled(s, cfg.resources[name]);
    }
  }

  /** `later` touches every label namespace of the service that `earlier` touches. */
  predicate Covers(later: AddonsConfig, earlier: AddonsConfig, name: string) {
    forall a: Addon :: name in earlier.For(a) ==> name in later.For(a)
  }

  /** The last save wins: nothing of an earlier save it covers is left in the labels. */
  lemma ServiceLastSaveWins(svc: Tree, name: string, earlier: AddonsConfig, later: AddonsConfig, mode: string)
    requires svc.Mapping? && Covers(later, earlier, name)
    requires name in earlier.resources || name in later.resources ==> WellKeyed(svc)
    ensures SlotsOf(InjectService(InjectService(svc, name, earlier, mode), name, later, mode))
         == SlotsOf(InjectService(svc, name, later, mode))
  {
    var s := InjectService(svc, name, earlier, mode);
    InjectServiceSlots(svc, name, earlier, mode);
    InjectServiceSlots(svc, name, later, mode);
    if name in later.resources { InjectServiceWellKeyed(svc, name, earlier, mode); }
    InjectServiceSlots(s, name, later, mode);
    LabelledFacts(svc, name, earlier, mode);
    LabelledFacts(svc, name, later, mode);
    LabelledFacts(s, name, later, mode);
    if earlier.TouchesLabels(name) {
      CoversTouched(later, earlier, name);
      SlotsLastSaveWins(SlotsOf(svc), name, earlier, later, mode);
    }
  }

  lemma CoversTouched(later: AddonsConfig, earlier: AddonsConfig, name: string)
    requires Covers(later, earlier, name) && earlier.TouchesLabels(name)
    ensures later.TouchesLabels(name)
  {
    var a: Addon :| name in earlier.For(a);
    assert name in later.For(a);
  }

  lemma InjectServiceWellKeyed(svc: Tree, name: string, cfg: AddonsConfig, mode: string)
    requires svc.Mapping? && WellKeyed(svc)
    ensures WellKeyed(InjectService(svc, name, cfg, mode))
  {
    LabelledFacts(svc, name, cfg, mode);
    if name in cfg.resources {
      ApplyResourcesFields(Labelled(svc, name, cfg, mode), cfg.resources[name], "");
    }
  }

  lemma SlotsLastSaveWins(was: Slots, name: string, earlier: AddonsConfig, later: AddonsConfig, mode: string)
    requires Covers(later, earlier, name)
    ensures SlotsAfter(SlotsAfter(was, PurgeFor(earlier, name), LabelsFor(earlier, name), mode),
                       PurgeFor(later, name), LabelsFor(later, name), mode)
         == SlotsAfter(was, PurgeFor(later, name), LabelsFor(later, name), mode)
  {
    var ps, qs, m := PurgeFor(earlier, name), PurgeFor(later, name), LabelsFor(earlier, name);
    PurgeCovers(later, earlier, name);
    PurgeForAddons(later, name);
    LabelsForOwned(earlier, name);
    forall k | k in m ensures Owned(k, qs) { OwnedWithin(k, ps, qs); }
    AbsorbSlot(was.top, ps, qs, m);
    AbsorbSlot(was.deploy, ps, qs, m);
  }

  lemma PurgeCovers(later: AddonsConfig, earlier: AddonsConfig, name: string)
    requires Covers(later, earlier, name)
    ensures Within(PurgeFor(earlier, name), PurgeFor(later, name))
  {
    forall p | p in PurgeFor(earlier, name)
      ensures p in PurgeFor(later, name)
    {
      var a := PurgedBy(earlier, name, p);
      assert p in PurgePart(later, name, a);
    }
  }

  lemma AbsorbSlot(o: Option<Tree>, ps: seq<string>, qs: seq<string>, m: Labels)
    requires Within(ps, qs) && AddonPrefixes(qs) && AllOwned(m, qs)
    ensures StripSlot(StripSlot(o, ps), qs) == StripSlot(o, qs)
    ensures OrEmpty(StripSlot(WriteSlot(StripSlot(o, ps), m), qs)) == OrEmpty(StripSlot(o, qs))
  {
    if o.Some? { StripStrip(o.value, ps, qs); }
    StripWrite(OrEmpty(StripSlot(o, ps)), qs, m);
    StripStrip(Mapping([]), ps, qs);
  }

  /** What a save leaves alone in a service: every label outside the touched namespaces, in
      order, in both places; and it leaves none of the touched ones outside the target. */
  lemma ServiceFrame(svc: Tree, name: string, cfg: AddonsConfig, mode: string)
    requires svc.Mapping? && Keyed(svc, name, cfg)
    ensures var ps, was, now := PurgeFor(cfg, name), SlotsOf(svc), SlotsOf(InjectService(svc, name, cfg, mode));
      && Strip(OrEmpty(now.top), ps) == Strip(OrEmpty(was.top), ps)
      && Strip(OrEmpty(now.deploy), ps) == Strip(OrEmpty(was.deploy), ps)
      && (if mode == "swarm" then StripSlot(now.top, ps) == now.top else StripSlot(now.deploy, ps) == now.deploy)
  {
    InjectServiceSlots(svc, name, cfg, mode);
    LabelledFacts(svc, name, cfg, mode);
    var ps, was, m := PurgeFor(cfg, name), SlotsOf(svc), LabelsFor(cfg, name);
    PurgeForAddons(cfg, name);
    LabelsForOwned(cfg, name);
    var top, deploy := StripSlot(was.top, ps), StripSlot(was.deploy, ps);
    if was.top.Some? { StripStrip(was.top.value, ps, ps); }
    if was.deploy.Some? { StripStrip(was.deploy.value, ps, ps); }
    if cfg.TouchesLabels(name) {
      StripWrite(OrEmpty(top), ps, m);
      StripWrite(OrEmpty(deploy), ps, m);
    } else {
      assert ps == [];
      if was.top.Some? { StripNothing(was.top.value); }
      if was.deploy.Some? { StripNothing(was.deploy.value); }
    }
  }

  /** Purging and writing keep the keys of a labels mapping apart. */
  lemma LabelKeysStayUnique(t: Tree, ps: seq<string>, m: Labels)
    requires t.Mapping? && UniqueFields(t) && AllOwned(m, ps)
    ensures UniqueFields(Write(Strip(t, ps), m))
  {
    var kept, keys := KeepEntries(t.entries, ps), SortedKeys(m.Keys);
    KeptEntriesUnique(t.entries, ps);
    var es := kept + EntriesOf(keys, m);
    forall i, j | 0 <= i < j < |es|
      ensures Value(es[i].key) != Value(es[j].key)
    {
      if i < |kept| <= j {
        assert es[i] == kept[i] && !Owned(Value(kept[i].key), ps);
        assert keys[j - |kept|] in m;
      }
    }
  }

  lemma {:induction false} KeptEntriesUnique(es: seq<Entry>, ps: seq<string>)
    requires UniqueFields(Mapping(es))
    ensures UniqueFields(Mapping(KeepEntries(es, ps)))
    ensures forall i :: 0 <= i < |KeepEntries(es, ps)| ==>
      KeepEntries(es, ps)[i] in es && !Owned(Value(KeepEntries(es, ps)[i].key), ps)
  {
    if es != [] {
      var rest := KeepEntries(es[1..], ps);
      assert forall i, j :: 0 <= i < j < |es[1..]| ==> es[1..][i] == es[i + 1] && es[1..][j] == es[j + 1];
      KeptEntriesUnique(es[1..], ps);
      forall i | 0 <= i < |rest|
        ensures Value(rest[i].key) != Value(es[0].key)
      {
        assert rest[i] in es[1..];
      }
    }
  }

  /** Both label nodes of a service, where they are mappings, name each key once. */
  ghost predicate UniqueSlots(s: Slots) {
    (s.top.Some? ==> UniqueFields(s.top.value)) && (s.deploy.Some? ==> UniqueFields(s.deploy.value))
  }

  lemma SlotStaysUnique(o: Option<Tree>, ps: seq<string>, m: Labels)
    requires (o.Some? ==> UniqueFields(o.value)) && AllOwned(m, ps)
    ensures o.Some? ==> UniqueFields(StripSlot(o, ps).value)
    ensures UniqueFields(WriteSlot(StripSlot(o, ps), m).value)
  {
    if o.Some? && o.value.Mapping? {
      KeptEntriesUnique(o.value.entries, ps);
      LabelKeysStayUnique(o.value, ps, m);
    } else if o.None? {
      assert Strip(Mapping([]), ps) == Mapping([]);
      LabelKeysStayUnique(Mapping([]), ps, m);
    }
  }

  lemma ServiceKeysStayUnique(svc: Tree, name: string, cfg: AddonsConfig, mode: string)
    requires svc.Mapping? && Keyed(svc, name, cfg) && UniqueSlots(SlotsOf(svc))
    ensures UniqueSlots(SlotsOf(InjectService(svc, name, cfg, mode)))
  {
    InjectServiceSlots(svc, name, cfg, mode);
    LabelledFacts(svc, name, cfg, mode);
    if cfg.TouchesLabels(name) {
      LabelsForOwned(cfg, name);
      SlotStaysUnique(SlotsOf(svc).top, PurgeFor(cfg, name), LabelsFor(cfg, name));
      SlotStaysUnique(SlotsOf(svc).deploy, PurgeFor(cfg, name), LabelsFor(cfg, name));
    }
  }
}
