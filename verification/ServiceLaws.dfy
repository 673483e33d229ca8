/** Laws of one service: where its labels sit after a save and what reads them back,
    and the same for its resources. */
module ServiceLaws {
  import opened Wrappers
  import opened YamlTree
  import opened AddonSpec
  import opened LabelLaws

  // ---------- the two places for labels ----------

  datatype Slots = Slots(top: Option<Tree>, deploy: Option<Tree>)

  function SlotsOf(svc: Tree): Slots { Slots(Get(svc, "labels"), DeployLabels(svc)) }

  function StripSlot(o: Option<Tree>, ps: seq<string>): Option<Tree> {
    if o.Some? then Some(Strip(o.value, ps)) else None
  }

  function WriteSlot(o: Option<Tree>, m: Labels): Option<Tree> { Some(Write(OrEmpty(o), m)) }

  function SlotsAfter(s: Slots, ps: seq<string>, m: Labels, mode: string): Slots {
    var top, deploy := StripSlot(s.top, ps), StripSlot(s.deploy, ps);
    if mode == "swarm" then Slots(top, WriteSlot(deploy, m)) else Slots(WriteSlot(top, m), deploy)
  }

  lemma StripInFields(t: Tree, ps: seq<string>, key: string)
    ensures Get(StripIn(t, ps), "labels") == StripSlot(Get(t, "labels"), ps)
    ensures key != "labels" ==> Get(StripIn(t, ps), key) == Get(t, key)
    ensures StripIn(t, ps).Mapping? <==> t.Mapping?
  {
    if Get(t, "labels").Some? {
      GetPut(t, "labels", Strip(Get(t, "labels").value, ps));
      if key != "labels" { GetPutOther(t, "labels", Strip(Get(t, "labels").value, ps), key); }
    }
  }

  lemma StripBothFields(svc: Tree, ps: seq<string>, key: string)
    requires svc.Mapping?
    ensures StripBoth(svc, ps).Mapping?
    ensures Get(StripBoth(svc, ps), "labels") == StripSlot(Get(svc, "labels"), ps)
    ensures Get(StripBoth(svc, ps), "deploy")
         == match Get(svc, "deploy") case Some(d) => Some(StripIn(d, ps)) case None => None
    ensures key != "labels" && key != "deploy" ==> Get(StripBoth(svc, ps), key) == Get(svc, key)
  {
    var s := StripIn(svc, ps);
    StripInFields(svc, ps, key);
    StripInFields(svc, ps, "deploy");
    if Get(s, "deploy").Some? {
      var d := StripIn(Get(s, "deploy").value, ps);
      GetPut(s, "deploy", d);
      GetPutOther(s, "deploy", d, "labels");
      if key != "deploy" { GetPutOther(s, "deploy", d, key); }
    }
  }

  lemma WriteInFields(t: Tree, m: Labels, key: string)
    requires t.Mapping?
    ensures WriteIn(t, m).Mapping?
    ensures Get(WriteIn(t, m), "labels") == WriteSlot(Get(t, "labels"), m)
    ensures key != "labels" ==> Get(WriteIn(t, m), key) == Get(t, key)
  {
    GetPut(t, "labels", Write(OrEmpty(Get(t, "labels")), m));
    if key != "labels" { GetPutOther(t, "labels", Write(OrEmpty(Get(t, "labels")), m), key); }
  }

  /** The `deploy` block after a save. */
  function DeployAfter(deploy: Option<Tree>, ps: seq<string>, m: Labels, mode: string): Option<Tree> {
    var d := if deploy.Some? then Some(StripIn(deploy.value, ps)) else None;
    if mode == "swarm" then Some(WriteIn(AsMapping(d), m)) else d
  }

  /** A save touches `labels` and `deploy` of a service and no other field. */
  lemma InjectLabelsFields(svc: Tree, ps: seq<string>, m: Labels, mode: string, key: string)
    requires svc.Mapping?
    ensures var s := InjectLabels(svc, ps, m, mode);
      && s.Mapping?
      && Get(s, "deploy") == DeployAfter(Get(svc, "deploy"), ps, m, mode)
      && Get(s, "labels") == SlotsAfter(SlotsOf(svc), ps, m, mode).top
      && (key != "labels" && key != "deploy" ==> Get(s, key) == Get(svc, key))
  {
    var s := StripBoth(svc, ps);
    StripBothFields(svc, ps, key);
    if mode == "swarm" {
      var d := WriteIn(AsMapping(Get(s, "deploy")), m);
      GetPut(s, "deploy", d);
      GetPutOther(s, "deploy", d, "labels");
      if key != "deploy" { GetPutOther(s, "deploy", d, key); }
    } else {
      WriteInFields(s, m, key);
      WriteInFields(s, m, "deploy");
    }
  }

  /** Inside `deploy` a save touches `labels` only; a `deploy` that is no mapping has no fields. */
  lemma DeployAfterFields(deploy: Option<Tree>, ps: seq<string>, m: Labels, mode: string, key: string)
    ensures var was := if deploy.Some? then Get(deploy.value, key) else None;
      var d := DeployAfter(deploy, ps, m, mode);
      var now := if d.Some? then Get(d.value, key) else None;
      now == if key != "labels" then was
             else if mode == "swarm" then WriteSlot(StripSlot(was, ps), m) else StripSlot(was, ps)
  {
    if deploy.Some? { StripInFields(deploy.value, ps, key); }
    var d := if deploy.Some? then Some(StripIn(deploy.value, ps)) else None;
    WriteInFields(AsMapping(d), m, key);
  }

  lemma InjectLabelsSlots(svc: Tree, ps: seq<string>, m: Labels, mode: string)
    requires svc.Mapping?
    ensures SlotsOf(InjectLabels(svc, ps, m, mode)) == SlotsAfter(SlotsOf(svc), ps, m, mode)
  {
    InjectLabelsFields(svc, ps, m, mode, "");
    DeployAfterFields(Get(svc, "deploy"), ps, m, mode, "labels");
  }

  // ---------- reading labels back ----------

  function CollectSlot(o: Option<Tree>, into: Labels): Labels {
    if o.Some? then Collect(o.value, into) else into
  }

  lemma LabelsOfSlots(svc: Tree)
    ensures LabelsOf(svc) == CollectSlot(SlotsOf(svc).deploy, CollectSlot(SlotsOf(svc).top, map[]))
  {
  }

  /** The labels node a save in this mode writes to. */
  function Target(s: Slots, mode: string): Option<Tree> {
    if mode == "swarm" then s.deploy else s.top
  }

  /** The target is absent, or a mapping, or a sequence and no key contains "=";
      anything else can only carry nothing. */
  predicate Writable(s: Slots, m: Labels, mode: string) {
    Target(s, mode).None? || Carries(Target(s, mode).value, m)
  }

  lemma CollectStripSlot(o: Option<Tree>, ps: seq<string>, m: Labels, n: Labels, k: string)
    requires Owned(k, ps) || At(m, k) == At(n, k)
    ensures At(CollectSlot(StripSlot(o, ps), m), k) == if Owned(k, ps) then At(m, k) else At(CollectSlot(o, n), k)
  {
    if o.Some? { CollectStrip(o.value, ps, m, n, k); }
  }

  lemma {:induction false} StripNothing(t: Tree)
    ensures Strip(t, []) == t
    decreases if t.Mapping? then |t.entries| else if t.Sequence? then |t.items| else 0
  {
    match t
    case Mapping(es) => if es != [] { StripNothing(Mapping(es[1..])); }
    case Sequence(ts) => if ts != [] { StripNothing(Sequence(ts[1..])); }
    case _ =>
  }

  /** After a save with a writable target the touched namespaces read back exactly as
      written, and every other label reads as before. */
  lemma ReadBack(s: Slots, ps: seq<string>, m: Labels, mode: string, k: string)
    requires AddonPrefixes(ps) && AllOwned(m, ps) && Writable(s, m, mode)
    ensures var t := SlotsAfter(s, ps, m, mode);
      At(CollectSlot(t.deploy, CollectSlot(t.top, map[])), k)
      == if Owned(k, ps) then At(m, k) else At(CollectSlot(s.deploy, CollectSlot(s.top, map[])), k)
  {
    var top, deploy := StripSlot(s.top, ps), StripSlot(s.deploy, ps);
    var was := CollectSlot(s.top, map[]);
    if "" in m { PrefixBeforeEquals("", ps); }
    CollectStripSlot(s.top, ps, map[], map[], k);
    if mode == "swarm" {
      var now := CollectSlot(top, map[]);
      CollectStripSlot(s.deploy, ps, now, was, k);
      CollectWrite(OrEmpty(deploy), m, now, k);
    } else {
      CollectWrite(OrEmpty(top), m, map[], k);
      CollectStripSlot(s.deploy, ps, CollectSlot(WriteSlot(top, m), map[]), was, k);
    }
  }

  /** With a target that is not writable some label of the save cannot be read back. */
  lemma NotReadBack(s: Slots, ps: seq<string>, m: Labels, mode: string) returns (k: string)
    requires AddonPrefixes(ps) && AllOwned(m, ps) && !Writable(s, m, mode)
    ensures k in m
    ensures var t := SlotsAfter(s, ps, m, mode);
      k !in CollectSlot(t.deploy, CollectSlot(t.top, map[]))
  {
    var target := Target(s, mode).value;
    if target.Sequence? {
      k :| k in m && '=' in k;
    } else {
      k :| k in m;
    }
    var top, deploy := StripSlot(s.top, ps), StripSlot(s.deploy, ps);
    CollectStripSlot(s.top, ps, map[], map[], k);
    if mode == "swarm" {
      WriteUnread(target, ps, m, CollectSlot(top, map[]), k);
    } else {
      WriteUnread(target, ps, m, map[], k);
      CollectStripSlot(s.deploy, ps, CollectSlot(WriteSlot(top, m), map[]), map[], k);
    }
  }

  lemma WriteUnread(t: Tree, ps: seq<string>, m: Labels, into: Labels, k: string)
    requires k in m && k !in into && !t.Mapping? && (t.Sequence? ==> '=' in k)
    ensures k !in Collect(Write(Strip(t, ps), m), into)
  {
    if t.Sequence? { CollectItemsKeys(Write(Strip(t, ps), m).items, into, k); }
  }

  // ---------- the four namespaces ----------

  /** No label key belongs to two addons. */
  lemma PrefixesApart(a: Addon, b: Addon, k: string)
    requires Prefix(a) <= k && Prefix(b) <= k
    ensures a == b
  {
    assert k[0] == Prefix(a)[0] == Prefix(b)[0];
  }

  lemma PurgedBy(cfg: AddonsConfig, svc: string, p: string) returns (a: Addon)
    requires p in PurgeFor(cfg, svc)
    ensures svc in cfg.For(a) && p == Prefix(a)
  {
    if p in PurgePart(cfg, svc, Traefik) {
      a := Traefik;
    } else if p in PurgePart(cfg, svc, Sablier) {
      a := Sablier;
    } else if p in PurgePart(cfg, svc, Watchtower) {
      a := Watchtower;
    } else {
      assert p in PurgePart(cfg, svc, Backup);
      a := Backup;
    }
  }

  lemma WrittenBy(cfg: AddonsConfig, svc: string, k: string) returns (a: Addon)
    requires k in LabelsFor(cfg, svc)
    ensures k in LabelsPart(cfg, svc, a)
  {
    if k in LabelsPart(cfg, svc, Traefik) {
      a := Traefik;
    } else if k in LabelsPart(cfg, svc, Sablier) {
      a := Sablier;
    } else if k in LabelsPart(cfg, svc, Watchtower) {
      a := Watchtower;
    } else {
      a := Backup;
    }
  }

  lemma OwnedFor(cfg: AddonsConfig, svc: string, a: Addon, k: string)
    requires Prefix(a) <= k
    ensures Owned(k, PurgeFor(cfg, svc)) <==> svc in cfg.For(a)
  {
    var ps := PurgeFor(cfg, svc);
    if svc in cfg.For(a) {
      var part := PurgePart(cfg, svc, a);
      assert Prefix(a) in part;
      match a
      case Traefik => assert forall p :: p in part ==> p in ps;
      case Sablier => assert forall p :: p in part ==> p in ps;
      case Watchtower => assert forall p :: p in part ==> p in ps;
      case Backup => assert forall p :: p in part ==> p in ps;
    }
    if Owned(k, ps) {
      var p :| p in ps && p <= k;
      var b := PurgedBy(cfg, svc, p);
      PrefixesApart(a, b, k);
    }
  }

  lemma PurgeForAddons(cfg: AddonsConfig, svc: string)
    ensures AddonPrefixes(PurgeFor(cfg, svc))
  {
  }

  /** A service's new labels are the union of what its addons build, without interference. */
  lemma LabelsForAt(cfg: AddonsConfig, svc: string, a: Addon, k: string)
    requires Prefix(a) <= k
    ensures At(LabelsFor(cfg, svc), k) == if svc in cfg.For(a) then At(Built(a, cfg.For(a)[svc]), k) else None
  {
    forall other: Addon | other != a
      ensures k !in LabelsPart(cfg, svc, other)
    {
      if k in LabelsPart(cfg, svc, other) {
        BuiltOwned(other, cfg.For(other)[svc], k);
        PrefixesApart(a, other, k);
      }
    }
    match a
    case Traefik => assert At(LabelsFor(cfg, svc), k) == At(LabelsPart(cfg, svc, Traefik), k);
    case Sablier => assert At(LabelsFor(cfg, svc), k) == At(LabelsPart(cfg, svc, Sablier), k);
    case Watchtower => assert At(LabelsFor(cfg, svc), k) == At(LabelsPart(cfg, svc, Watchtower), k);
    case Backup => assert At(LabelsFor(cfg, svc), k) == At(LabelsPart(cfg, svc, Backup), k);
  }

  lemma BuiltOwned(a: Addon, c: AddonCfg, k: string)
    requires k in Built(a, c)
    ensures Prefix(a) <= k
  {
  }

  lemma LabelsForOwned(cfg: AddonsConfig, svc: string)
    ensures AllOwned(LabelsFor(cfg, svc), PurgeFor(cfg, svc))
  {
    forall k | k in LabelsFor(cfg, svc)
      ensures Owned(k, PurgeFor(cfg, svc))
    {
      var a := WrittenBy(cfg, svc, k);
      BuiltOwned(a, cfg.For(a)[svc], k);
      OwnedFor(cfg, svc, a, k);
    }
  }

  /** The settings a save can keep: the addon's own namespace, with `enable=true` folded
      into the switch. */
  function Canonical(a: Addon, c: AddonCfg): AddonCfg {
    var on := c.enabled || At(c.labels, EnableKey(a)) == Some("true");
    AddonCfg(on, map k | k in c.labels && Prefix(a) <= k && !(on && k == EnableKey(a)) :: c.labels[k])
  }

  lemma FromBuilt(a: Addon, c: AddonCfg)
    ensures FromLabels(a, Built(a, c)) == Canonical(a, c)
  {
    assert Prefix(a) <= EnableKey(a);
    assert FromLabels(a, Built(a, c)).labels == Canonical(a, c).labels;
  }

  lemma FromLabelsCanonical(a: Addon, m: Labels)
    ensures Canonical(a, FromLabels(a, m)) == FromLabels(a, m)
  {
    assert Canonical(a, FromLabels(a, m)).labels == FromLabels(a, m).labels;
  }

  /** An addon reads its own namespace only. */
  lemma FromLabelsAgree(a: Addon, m: Labels, n: Labels)
    requires forall k :: Prefix(a) <= k ==> At(m, k) == At(n, k)
    ensures FromLabels(a, m) == FromLabels(a, n)
  {
    assert Prefix(a) <= EnableKey(a);
    assert At(m, EnableKey(a)) == At(n, EnableKey(a));
    var l, r := FromLabels(a, m).labels, FromLabels(a, n).labels;
    forall k
      ensures At(l, k) == At(r, k)
    {
      assert Prefix(a) <= k ==> At(m, k) == At(n, k);
    }
    assert forall k :: k in l ==> At(r, k) == Some(l[k]);
    assert forall k :: k in r ==> At(l, k) == Some(r[k]);
    assert l == r;
  }
}
