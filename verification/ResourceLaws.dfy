/** Laws of a service's resource fields, and of labels and resources together. */
module ResourceLaws {
  import opened Wrappers
  import opened YamlTree
  import opened AddonSpec
  import opened ServiceLaws

  /** No mapping on the way to the resource scalars repeats a key. */
  ghost predicate WellKeyed(svc: Tree) {
    && UniqueFields(svc)
    && (Get(svc, "deploy").Some? ==> UniqueFields(Get(svc, "deploy").value))
    && WellKeyedResources(DeployField(svc, "resources"))
  }

  ghost predicate WellKeyedResources(resources: Option<Tree>) {
    resources.Some? ==>
      && UniqueFields(resources.value)
      && forall block | block in {"limits", "reservations"} ::
           Get(resources.value, block).Some? ==> UniqueFields(Get(resources.value, block).value)
  }

  lemma {:induction false} DropAllFields(t: Tree, keys: seq<string>, k: string)
    requires UniqueFields(t)
    ensures UniqueFields(DropAll(t, keys))
    ensures DropAll(t, keys).Mapping? <==> t.Mapping?
    ensures Get(DropAll(t, keys), k) == if k in keys then None else Get(t, k)
    decreases |keys|
  {
    if keys != [] {
      var rest, last := keys[..|keys| - 1], keys[|keys| - 1];
      DropAllFields(t, rest, k);
      var u := DropAll(t, rest);
      DropUnique(u, last);
      if k == last {
        GetDrop(u, k);
      } else {
        GetDropOther(u, last, k);
        assert k in keys <==> k in rest;
      }
    }
  }

  lemma {:induction false} DropAllAbsent(t: Tree, keys: seq<string>)
    requires forall k :: k in keys ==> Get(t, k) == None
    ensures DropAll(t, keys) == t
    decreases |keys|
  {
    if keys != [] {
      DropAllAbsent(t, keys[..|keys| - 1]);
      assert keys[|keys| - 1] in keys;
    }
  }

  lemma SetOrRemoveFields(t: Tree, key: string, text: string, other: string)
    requires t.Mapping? && UniqueFields(t)
    ensures var u := SetOrRemove(t, key, text);
      && u.Mapping? && UniqueFields(u) && ScalarText(u, key) == text
      && (other != key ==> Get(u, other) == Get(t, other))
  {
    if text == "" {
      GetDrop(t, key);
      DropUnique(t, key);
      if other != key { GetDropOther(t, key, other); }
    } else {
      GetPut(t, key, Scalar(text));
      PutUnique(t, key, Scalar(text));
      if other != key { GetPutOther(t, key, Scalar(text), other); }
    }
  }

  lemma SetOrRemoveAgain(t: Tree, key: string, text: string)
    requires t.Mapping? && UniqueFields(t) && ScalarText(t, key) == text
    requires text == "" ==> Get(t, key) == None
    ensures SetOrRemove(t, key, text) == t
  {
    if text != "" { PutSame(t, key); }
  }

  /** A block as a save leaves it: absent if it would be empty, else exactly the two scalars
      asked for. */
  ghost predicate BlockIs(block: Option<Tree>, cpus: string, memory: string) {
    if cpus == "" && memory == "" then block == None
    else
      && block.Some? && block.value.Mapping? && UniqueFields(block.value)
      && ScalarText(block.value, "cpus") == cpus && (cpus == "" ==> Get(block.value, "cpus") == None)
      && ScalarText(block.value, "memory") == memory && (memory == "" ==> Get(block.value, "memory") == None)
  }

  lemma WithBlockFields(resources: Tree, key: string, cpus: string, memory: string, other: string)
    requires resources.Mapping? && UniqueFields(resources)
    requires Get(resources, key).Some? ==> UniqueFields(Get(resources, key).value)
    ensures var u := WithBlock(resources, key, cpus, memory);
      && u.Mapping? && UniqueFields(u) && BlockIs(Get(u, key), cpus, memory)
      && (other != key ==> Get(u, other) == Get(resources, other))
  {
    if cpus == "" && memory == "" {
      GetDrop(resources, key);
      DropUnique(resources, key);
      if other != key { GetDropOther(resources, key, other); }
    } else {
      var block := AsMapping(Get(resources, key));
      var b := SetOrRemove(block, "cpus", cpus);
      var c := SetOrRemove(b, "memory", memory);
      SetOrRemoveFields(block, "cpus", cpus, "memory");
      SetOrRemoveFields(b, "memory", memory, "cpus");
      if cpus == "" { GetDrop(block, "cpus"); }
      if memory == "" { GetDrop(b, "memory"); }
      GetPut(resources, key, c);
      PutUnique(resources, key, c);
      if other != key { GetPutOther(resources, key, c, other); }
    }
  }

  lemma WithBlockAgain(resources: Tree, key: string, cpus: string, memory: string)
    requires resources.Mapping? && BlockIs(Get(resources, key), cpus, memory)
    ensures WithBlock(resources, key, cpus, memory) == resources
  {
    if !(cpus == "" && memory == "") {
      var block := Get(resources, key).value;
      SetOrRemoveAgain(block, "cpus", cpus);
      SetOrRemoveAgain(block, "memory", memory);
      PutSame(resources, key);
    }
  }

  ghost predicate LegacyGone(svc: Tree) {
    forall k :: k in LEGACY_FIELDS ==> Get(svc, k) == None
  }

  lemma LegacyStaysGone(s: Tree, t: Tree)
    requires LegacyGone(t) && forall k :: k != "deploy" ==> Get(s, k) == Get(t, k)
    ensures LegacyGone(s)
  {
    LegacyReads();
  }

  /** What a save leaves below `deploy.resources`. */
  ghost predicate ResourcesAre(svc: Tree, r: ResourcesCfg) {
    && LegacyGone(svc)
    && if r == NO_RESOURCES then
         && DeployField(svc, "resources") == None
         && (Get(svc, "deploy").Some? ==> !Childless(Get(svc, "deploy").value))
       else
         && Get(svc, "deploy").Some? && Get(svc, "deploy").value.Mapping?
         && DeployField(svc, "resources").Some? && DeployField(svc, "resources").value.Mapping?
         && BlockIs(Get(DeployField(svc, "resources").value, "limits"), r.cpusLimit, r.memoryLimit)
         && BlockIs(Get(DeployField(svc, "resources").value, "reservations"), r.cpusReservation, r.memoryReservation)
  }

  /** Saving resources: only they and the legacy fields change, and they are as asked. */
  lemma ApplyResourcesFields(svc: Tree, r: ResourcesCfg, key: string)
    requires svc.Mapping? && WellKeyed(svc)
    ensures var s := ApplyResources(svc, r);
      && s.Mapping? && WellKeyed(s) && ResourcesAre(s, r)
      && (key !in LEGACY_FIELDS && key != "deploy" ==> Get(s, key) == Get(svc, key))
      && (key != "resources" ==> DeployField(s, key) == DeployField(svc, key))
  {
    var t := DropAll(svc, LEGACY_FIELDS);
    LegacyDropped(svc, key);
    if r == NO_RESOURCES {
      ClearResourcesFields(t, key);
    } else {
      DeployResourcesFields(t, r, key);
    }
    LegacyStaysGone(DeployResources(t, r), t);
  }

  lemma LegacyDropped(svc: Tree, key: string)
    requires svc.Mapping? && WellKeyed(svc)
    ensures var t := DropAll(svc, LEGACY_FIELDS);
      && t.Mapping? && WellKeyed(t)
      && LegacyGone(t)
      && (key !in LEGACY_FIELDS ==> Get(t, key) == Get(svc, key))
      && Get(t, "deploy") == Get(svc, "deploy")
  {
    LegacyReads();
    DropAllFields(svc, LEGACY_FIELDS, key);
    DropAllFields(svc, LEGACY_FIELDS, "deploy");
    forall k | k in LEGACY_FIELDS
      ensures Get(DropAll(svc, LEGACY_FIELDS), k) == None
    {
      DropAllFields(svc, LEGACY_FIELDS, k);
    }
  }

  lemma ClearResourcesFields(t: Tree, key: string)
    requires t.Mapping? && UniqueFields(t)
    requires Get(t, "deploy").Some? ==> UniqueFields(Get(t, "deploy").value)
    ensures var s := ClearResources(t);
      && s.Mapping? && WellKeyed(s)
      && DeployField(s, "resources") == None
      && (Get(s, "deploy").Some? ==> !Childless(Get(s, "deploy").value))
      && (forall k :: k != "deploy" ==> Get(s, k) == Get(t, k))
      && (key != "resources" ==> DeployField(s, key) == DeployField(t, key))
  {
    var s := ClearResources(t);
    if Get(t, "deploy").Some? {
      var d := Get(t, "deploy").value;
      var d' := Drop(d, "resources");
      GetDrop(d, "resources");
      DropUnique(d, "resources");
      if key != "resources" { GetDropOther(d, "resources", key); }
      if Childless(d') {
        GetDrop(t, "deploy");
        DropUnique(t, "deploy");
      } else {
        GetPut(t, "deploy", d');
        PutUnique(t, "deploy", d');
      }
      forall k | k != "deploy"
        ensures Get(s, k) == Get(t, k)
      {
        if Childless(d') { GetDropOther(t, "deploy", k); } else { GetPutOther(t, "deploy", d', k); }
      }
    }
  }

  lemma DeployResourcesFields(t: Tree, r: ResourcesCfg, key: string)
    requires t.Mapping? && WellKeyed(t) && r != NO_RESOURCES
    ensures var s := DeployResources(t, r);
      && s.Mapping? && WellKeyed(s)
      && Get(s, "deploy").Some? && Get(s, "deploy").value.Mapping?
      && DeployField(s, "resources").Some? && DeployField(s, "resources").value.Mapping?
      && BlockIs(Get(DeployField(s, "resources").value, "limits"), r.cpusLimit, r.memoryLimit)
      && BlockIs(Get(DeployField(s, "resources").value, "reservations"), r.cpusReservation, r.memoryReservation)
      && (forall k :: k != "deploy" ==> Get(s, k) == Get(t, k))
      && (key != "resources" ==> DeployField(s, key) == DeployField(t, key))
  {
    var deploy := AsMapping(Get(t, "deploy"));
    var resources := AsMapping(Get(deploy, "resources"));
    var limited := WithBlock(resources, "limits", r.cpusLimit, r.memoryLimit);
    var reserved := WithBlock(limited, "reservations", r.cpusReservation, r.memoryReservation);
    WithBlockFields(resources, "limits", r.cpusLimit, r.memoryLimit, "reservations");
    WithBlockFields(limited, "reservations", r.cpusReservation, r.memoryReservation, "limits");
    var d := Put(deploy, "resources", reserved);
    GetPut(deploy, "resources", reserved);
    PutUnique(deploy, "resources", reserved);
    if key != "resources" { GetPutOther(deploy, "resources", reserved, key); }
    GetPut(t, "deploy", d);
    PutUnique(t, "deploy", d);
    forall k | k != "deploy"
      ensures Get(Put(t, "deploy", d), k) == Get(t, k)
    {
      GetPutOther(t, "deploy", d, k);
    }
  }

  /** Put-get for resources: all four fields come back as they were saved. */
  lemma ResourcesPutGet(svc: Tree, r: ResourcesCfg)
    requires svc.Mapping? && WellKeyed(svc)
    ensures ResourcesOf(ApplyResources(svc, r)) == r
  {
    var s := ApplyResources(svc, r);
    ApplyResourcesFields(svc, r, "");
    LegacyReads();
    var res := DeployField(s, "resources");
    if r != NO_RESOURCES {
      BlockReads(res, "limits", r.cpusLimit, r.memoryLimit);
      BlockReads(res, "reservations", r.cpusReservation, r.memoryReservation);
    }
  }

  lemma LegacyReads()
    ensures "cpus" in LEGACY_FIELDS && "mem_limit" in LEGACY_FIELDS && "mem_reservation" in LEGACY_FIELDS
    ensures "deploy" !in LEGACY_FIELDS && "labels" !in LEGACY_FIELDS
  {
    assert LEGACY_FIELDS[0] == "cpus" && LEGACY_FIELDS[1] == "mem_limit" && LEGACY_FIELDS[2] == "mem_reservation";
  }

  lemma BlockReads(resources: Option<Tree>, block: string, cpus: string, memory: string)
    requires resources.Some? && BlockIs(Get(resources.value, block), cpus, memory)
    ensures BlockText(resources, block, "cpus") == cpus && BlockText(resources, block, "memory") == memory
  {
  }

  /** A saved service is a fixed point of the same save. */
  lemma ResourcesSettled(svc: Tree, r: ResourcesCfg)
    requires svc.Mapping? && ResourcesAre(svc, r)
    ensures ApplyResources(svc, r) == svc
  {
    DropAllAbsent(svc, LEGACY_FIELDS);
    if r == NO_RESOURCES {
      if Get(svc, "deploy").Some? { PutSame(svc, "deploy"); }
    } else {
      var deploy := Get(svc, "deploy").value;
      var resources := Get(deploy, "resources").value;
      WithBlockAgain(resources, "limits", r.cpusLimit, r.memoryLimit);
      WithBlockAgain(resources, "reservations", r.cpusReservation, r.memoryReservation);
      PutSame(deploy, "resources");
      PutSame(svc, "deploy");
    }
  }

  lemma ApplyResourcesSlots(svc: Tree, r: ResourcesCfg)
    requires svc.Mapping? && WellKeyed(svc)
    ensures SlotsOf(ApplyResources(svc, r)) == SlotsOf(svc)
  {
    ApplyResourcesFields(svc, r, "labels");
    LegacyReads();
  }

  /** Resources are read from these fields alone. */
  lemma ResourcesOfAgree(s: Tree, t: Tree)
    requires forall k :: k in LEGACY_FIELDS ==> Get(s, k) == Get(t, k)
    requires DeployField(s, "resources") == DeployField(t, "resources")
    ensures ResourcesOf(s) == ResourcesOf(t)
  {
    LegacyReads();
  }

  /** Saving labels leaves the resources as they were. */
  lemma InjectLabelsResources(svc: Tree, ps: seq<string>, m: Labels, mode: string)
    requires svc.Mapping?
    ensures ResourcesOf(InjectLabels(svc, ps, m, mode)) == ResourcesOf(svc)
  {
    var s := InjectLabels(svc, ps, m, mode);
    LegacyReads();
    forall k | k in LEGACY_FIELDS
      ensures Get(s, k) == Get(svc, k)
    {
      InjectLabelsFields(svc, ps, m, mode, k);
    }
    InjectLabelsFields(svc, ps, m, mode, "");
    DeployAfterFields(Get(svc, "deploy"), ps, m, mode, "resources");
    ResourcesOfAgree(s, svc);
  }

  lemma InjectLabelsWellKeyed(svc: Tree, ps: seq<string>, m: Labels, mode: string)
    requires svc.Mapping? && WellKeyed(svc)
    ensures WellKeyed(InjectLabels(svc, ps, m, mode))
  {
    InjectLabelsFields(svc, ps, m, mode, "");
    DeployAfterFields(Get(svc, "deploy"), ps, m, mode, "resources");
    InjectLabelsUnique(svc, ps, m, mode);
  }

  lemma InjectLabelsUnique(svc: Tree, ps: seq<string>, m: Labels, mode: string)
    requires svc.Mapping? && UniqueFields(svc)
    requires Get(svc, "deploy").Some? ==> UniqueFields(Get(svc, "deploy").value)
    ensures UniqueFields(InjectLabels(svc, ps, m, mode))
    ensures var d := DeployAfter(Get(svc, "deploy"), ps, m, mode); d.Some? ==> UniqueFields(d.value)
  {
    var deploy := Get(svc, "deploy");
    StripInUnique(svc, ps);
    var s := StripIn(svc, ps);
    StripInFields(svc, ps, "deploy");
    if deploy.Some? {
      StripInUnique(deploy.value, ps);
      PutUnique(s, "deploy", StripIn(deploy.value, ps));
    }
    var d := if deploy.Some? then Some(StripIn(deploy.value, ps)) else None;
    PutUnique(AsMapping(d), "labels", Write(OrEmpty(Get(AsMapping(d), "labels")), m));
    var b := StripBoth(svc, ps);
    StripBothFields(svc, ps, "");
    PutUnique(b, "labels", Write(OrEmpty(Get(b, "labels")), m));
    PutUnique(b, "deploy", WriteIn(AsMapping(d), m));
  }

  lemma StripInUnique(t: Tree, ps: seq<string>)
    requires UniqueFields(t)
    ensures UniqueFields(StripIn(t, ps))
  {
    if Get(t, "labels").Some? { PutUnique(t, "labels", Strip(Get(t, "labels").value, ps)); }
  }
}
