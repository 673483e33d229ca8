/** The backup store as the source runs it: maps written in place under the current key. */
module BackupStore {
  import opened Bytes
  import opened Wrappers
  import opened BackupCrypto
  import opened BackupSpec
  import Plans = BackupSchedule

  datatype Summary = Summary(
    total: nat, compatible: nat, unverified: nat, incompatible: nat, missing: nat,
    keyMissing: bool, fingerprint: string)

  /** How many of some records get a status. */
  function Count(c: Cipher, s: Store, key: Option<Key>, ids: seq<string>, status: Status): nat
    requires forall id :: id in ids ==> id in s.records
  {
    if ids == [] then 0
    else
      var front, last := ids[..|ids| - 1], ids[|ids| - 1];
      assert forall id :: id in front ==> id in ids;
      Count(c, s, key, front, status) + if Judged(c, s, key, last) == status then 1 else 0
  }

  /** A summary of some records. */
  predicate Sums(c: Cipher, s: Store, key: Option<Key>, ids: seq<string>, sum: Summary) {
    && (forall id :: id in ids ==> id in s.records)
    && sum.total == |ids|
    && sum.compatible == Count(c, s, key, ids, Compatible)
    && sum.unverified == Count(c, s, key, ids, Unverified)
    && sum.incompatible == Count(c, s, key, ids, Incompatible)
    && sum.missing == Count(c, s, key, ids, MissingFile)
    && sum.fingerprint == CurrentFingerprint(c, key)
    && (sum.keyMissing <==> sum.fingerprint == "")
  }

  /** Every record once. */
  ghost predicate Lists(records: map<string, Record>, ids: seq<string>) {
    && (forall id :: id in ids <==> id in records)
    && (forall i, j :: 0 <= i < j < |ids| ==> ids[i] != ids[j])
  }

  /** The records with that status in the cache. */
  function Having(cache: map<string, Status>, status: Status): set<string> {
    set id | id in cache && cache[id] == status
  }

  function JudgedAs(c: Cipher, s: Store, key: Option<Key>, status: Status): set<string> {
    set id | id in s.records && Judged(c, s, key, id) == status
  }

  /** The summary of a whole store. With a key configured, its parts add up. */
  predicate RightSummary(c: Cipher, s: Store, key: Option<Key>, sum: Summary) {
    && sum.total == |s.records|
    && sum.compatible == |JudgedAs(c, s, key, Compatible)|
    && sum.unverified == |JudgedAs(c, s, key, Unverified)|
    && sum.incompatible == |JudgedAs(c, s, key, Incompatible)|
    && sum.missing == |JudgedAs(c, s, key, MissingFile)|
    && (key.Some? ==> sum.compatible + sum.unverified + sum.incompatible + sum.missing == sum.total)
    && sum.fingerprint == CurrentFingerprint(c, key)
    && (sum.keyMissing <==> sum.fingerprint == "")
  }

  /** A cache of what was decided about some records. */
  predicate Judges(c: Cipher, s: Store, key: Option<Key>, ids: seq<string>, cache: map<string, Status>) {
    && (forall id :: id in ids ==> id in s.records && id in cache && cache[id] == Judged(c, s, key, id))
    && (forall id :: id in cache ==> id in ids)
  }

  /** Ids from the newest to the oldest record. */
  predicate NewestFirst(records: map<string, Record>, ids: seq<string>) {
    && (forall i :: 0 <= i < |ids| ==> ids[i] in records)
    && (forall i, j :: 0 <= i < j < |ids| ==>
      ids[i] != ids[j] && records[ids[i]].createdAt >= records[ids[j]].createdAt)
  }

  function FromSource(records: map<string, Record>, source: string): set<string> {
    set id | id in records && records[id].source == source
  }

  class BackupBiz {
    const cipher: Cipher
    const calendar: Plans.Calendar
    var records: map<string, Record>
    var archives: map<string, seq<byte>>
    var statusCache: map<string, Status>
    var statusKey: string
    var schedules: map<string, Plans.Schedule>

    ghost function View(): Store
      reads this
    {
      Store(records, archives, statusCache, statusKey)
    }

    constructor (cipher: Cipher, calendar: Plans.Calendar)
      ensures this.cipher == cipher && this.calendar == calendar
      ensures View() == Store(map[], map[], map[], "") && schedules == map[]
    {
      this.cipher, this.calendar := cipher, calendar;
      records, archives, statusCache, statusKey, schedules := map[], map[], map[], "", map[];
    }

    /** `cacheStatus` */
    method Remember(key: Option<Key>, id: string, status: Status)
      modifies `statusCache, `statusKey
      ensures View() == CacheStatus(cipher, old(View()), key, id, status)
      ensures statusCache == old(statusCache)[id := status]
      ensures statusKey == if old(statusKey) != "" then old(statusKey)
        else if key.Some? then cipher.fingerprint(key.value) else ""
    {
      if statusKey == "" {
        statusKey := CurrentFingerprint(cipher, key);
      }
      statusCache := statusCache[id := status];
    }

    /** `Create`, given the exported document and a nonce. */
    method CreateBackup(key: Option<Key>, id: string, source: string, now: int, plaintext: seq<byte>, nonce: seq<byte>)
      returns (error: Option<Error>)
      modifies `records, `archives, `statusCache
      ensures View() == Create(cipher, old(View()), key, id, source, now, plaintext, nonce)
      ensures error == if key.None? then Some(MissingKey) else None
      ensures key.None? ==> View() == old(View())
      ensures key.Some? ==> records == old(records)[id :=
        Record(if source != "" then source else "manual", now, cipher.fingerprint(key.value))]
      ensures key.Some? ==> statusCache == if statusKey == cipher.fingerprint(key.value)
        then old(statusCache)[id := Compatible] else old(statusCache)
      ensures key.Some? ==> id in archives && archives == old(archives)[id := archives[id]]
      ensures key.Some? && Lawful(cipher) && |nonce| == 12 ==>
        OpenAtRest(cipher, archives[id], key.value) == Ok(plaintext)
    {
      if key.None? {
        return Some(MissingKey);
      }
      if |nonce| == 12 && Lawful(cipher) { AtRestRoundTrip(cipher, key.value, key.value, nonce, plaintext, ""); }
      archives := archives[id := EncryptAtRest(cipher, key.value, nonce, plaintext)];
      var fp := CurrentFingerprint(cipher, key);
      records := records[id := Record(if source == "" then "manual" else source, now, fp)];
      if statusKey == fp {
        statusCache := statusCache[id := Compatible];
      }
      return None;
    }

    method DeleteBackup(id: string) returns (error: Option<Error>)
      modifies `records, `archives, `statusCache
      ensures View() == Delete(old(View()), id)
      ensures error == if id in old(records) then None else Some(NotFound)
      ensures error.None? ==>
        records == old(records) - {id} && archives == old(archives) - {id} && statusCache == old(statusCache) - {id}
      ensures error.Some? ==> View() == old(View())
    {
      if id !in records {
        return Some(NotFound);
      }
      records := records - {id};
      archives := archives - {id};
      statusCache := statusCache - {id};
      return None;
    }

    method VerifyBackup(key: Option<Key>, id: string) returns (status: Option<Status>)
      modifies `records, `statusCache, `statusKey
      ensures (View(), status) == Verify(cipher, old(View()), key, id)
      ensures status.Some? <==> id in old(records)
      ensures id in old(records) && key.None? ==> status.value == Unknown
      ensures id in old(records) && key.Some? && id !in archives ==> status.value == MissingFile
      ensures id in old(records) && key.Some? && id in archives && old(records)[id].fingerprint != "" ==>
        (status.value == Compatible <==> old(records)[id].fingerprint == cipher.fingerprint(key.value))
      ensures id in old(records) && key.Some? && id in archives && old(records)[id].fingerprint == "" ==>
        (status.value == Compatible <==> OpenAtRest(cipher, archives[id], key.value).Ok?)
      ensures id in old(records) && key.Some? && id in archives ==> status.value in {Compatible, Incompatible}
      ensures id in old(records) ==> statusCache == old(statusCache)[id := status.value]
      ensures statusKey == if old(statusKey) != "" || id !in old(records) then old(statusKey)
        else if key.Some? then cipher.fingerprint(key.value) else ""
      ensures records == if key.Some? && status == Some(Compatible)
        then old(records)[id := old(records)[id].(fingerprint := cipher.fingerprint(key.value))] else old(records)
    {
      if id !in records {
        return None;
      }
      if key.None? {
        Remember(key, id, Unknown);
        return Some(Unknown);
      }
      if id !in archives {
        Remember(key, id, MissingFile);
        return Some(MissingFile);
      }
      var current := CurrentFingerprint(cipher, key);
      var r := records[id];
      if r.fingerprint != "" {
        var judged := if r.fingerprint == current then Compatible else Incompatible;
        Remember(key, id, judged);
        return Some(judged);
      }
      var plaintext := OpenAtRest(cipher, archives[id], key.value);
      if plaintext.Err? {
        Remember(key, id, Incompatible);
        return Some(Incompatible);
      }
      records := records[id := r.(fingerprint := current)];
      Remember(key, id, Compatible);
      return Some(Compatible);
    }

    /** `BackupGetAll`, the ids only; they come in any order. */
    method Listed() returns (ids: seq<string>)
      ensures Lists(records, ids)
    {
      ids := [];
      var left := records.Keys;
      while left != {}
        invariant left <= records.Keys && forall id :: id in ids <==> id in records.Keys - left
        invariant forall i, j :: 0 <= i < j < |ids| ==> ids[i] != ids[j]
      {
        var id :| id in left;
        assert id !in ids;
        left, ids := left - {id}, ids + [id];
      }
    }

    /** `VerifyAll`: rebuilds the cache and counts what it finds. */
    method VerifyAllBackups(key: Option<Key>) returns (sum: Summary)
      modifies `statusCache, `statusKey
      ensures View() == VerifyAll(cipher, old(View()), key)
      ensures RightSummary(cipher, old(View()), key, sum)
      ensures statusKey == if key.Some? then cipher.fingerprint(key.value) else ""
      ensures statusCache.Keys == records.Keys
      ensures key.None? ==> forall id :: id in records ==> statusCache[id] == Unknown
      ensures key.Some? ==> forall id :: id in records ==>
        && (statusCache[id] == MissingFile <==> id !in archives)
        && (statusCache[id] == Unverified <==> id in archives && records[id].fingerprint == "")
        && (statusCache[id] == Compatible <==>
             id in archives && records[id].fingerprint == cipher.fingerprint(key.value) != "")
        && statusCache[id] != Unknown
      ensures sum.total == |records| && sum.keyMissing == (statusKey == "")
      ensures sum.compatible == |Having(statusCache, Compatible)| && sum.unverified == |Having(statusCache, Unverified)|
      ensures sum.incompatible == |Having(statusCache, Incompatible)|
      ensures sum.missing == |Having(statusCache, MissingFile)|
    {
      var cache;
      cache, sum := JudgeAll(key);
      HavingIsJudged(cipher, View(), key, cache, Compatible);
      HavingIsJudged(cipher, View(), key, cache, Unverified);
      HavingIsJudged(cipher, View(), key, cache, Incompatible);
      HavingIsJudged(cipher, View(), key, cache, MissingFile);
      statusCache, statusKey := cache, sum.fingerprint;
    }

    /** The pass itself: a status for every record, and their counts. */
    method JudgeAll(key: Option<Key>) returns (cache: map<string, Status>, sum: Summary)
      ensures cache == map id | id in records :: Judged(cipher, View(), key, id)
      ensures RightSummary(cipher, View(), key, sum)
    {
      var ids := Listed();
      cache, sum := JudgeListed(key, ids);
      JudgesAll(cipher, View(), key, ids, cache);
      SumsAreRight(cipher, View(), key, ids, sum);
    }

    method JudgeListed(key: Option<Key>, ids: seq<string>) returns (cache: map<string, Status>, sum: Summary)
      requires forall id :: id in ids ==> id in records
      ensures Judges(cipher, View(), key, ids, cache) && Sums(cipher, View(), key, ids, sum)
    {
      var fp := CurrentFingerprint(cipher, key);
      cache, sum := map[], Summary(0, 0, 0, 0, 0, fp == "", fp);
      ghost var seen: seq<string> := [];
      for i := 0 to |ids|
        invariant seen == ids[..i]
        invariant Judges(cipher, View(), key, seen, cache)
        invariant Sums(cipher, View(), key, seen, sum)
      {
        var id := ids[i];
        assert id in ids && ids[..i + 1] == ids[..i] + [id];
        cache, sum := JudgeNext(key, fp, id, seen, cache, sum);
        seen := seen + [id];
      }
      assert seen == ids;
    }

    /** One turn of the pass. */
    method JudgeNext(key: Option<Key>, fp: string, id: string, ghost seen: seq<string>,
                     cache: map<string, Status>, sum: Summary)
      returns (cache': map<string, Status>, sum': Summary)
      requires id in records && fp == CurrentFingerprint(cipher, key)
      requires Judges(cipher, View(), key, seen, cache) && Sums(cipher, View(), key, seen, sum)
      ensures Judges(cipher, View(), key, seen + [id], cache') && Sums(cipher, View(), key, seen + [id], sum')
    {
      JudgesNext(cipher, View(), key, seen, id, cache);
      var status;
      status, sum' := JudgeOne(key, fp, id, seen, sum);
      cache' := cache[id := status];
    }

    /** One record of the pass. */
    method JudgeOne(key: Option<Key>, fp: string, id: string, ghost before: seq<string>, sum: Summary)
      returns (status: Status, more: Summary)
      requires id in records && fp == CurrentFingerprint(cipher, key)
      requires Sums(cipher, View(), key, before, sum)
      ensures status == Judged(cipher, View(), key, id)
      ensures Sums(cipher, View(), key, before + [id], more)
    {
      CountNext(cipher, View(), key, before, id, Compatible);
      CountNext(cipher, View(), key, before, id, Unverified);
      CountNext(cipher, View(), key, before, id, Incompatible);
      CountNext(cipher, View(), key, before, id, MissingFile);
      status, more := Unknown, sum.(total := sum.total + 1);
      if key.None? {
      } else if id !in archives {
        status, more := MissingFile, more.(missing := sum.missing + 1);
      } else if records[id].fingerprint == "" {
        status, more := Unverified, more.(unverified := sum.unverified + 1);
      } else if records[id].fingerprint == fp {
        status, more := Compatible, more.(compatible := sum.compatible + 1);
      } else {
        status, more := Incompatible, more.(incompatible := sum.incompatible + 1);
      }
    }

    /** `Recover`: opens with the old passphrase, seals with the current key, in place. */
    method RecoverBackup(key: Option<Key>, id: string, phrase: string, nonce: seq<byte>) returns (error: Option<Error>)
      modifies `records, `archives, `statusCache, `statusKey
      ensures View() == Recover(cipher, old(View()), key, id, phrase, nonce)
      ensures error == match Recovered(cipher, old(View()), key, id, phrase)
        case Ok(_) => None
        case Err(e) => Some(e)
      ensures |phrase| < 16 ==> error == Some(MissingPassphrase)
      ensures |phrase| >= 16 && key.None? ==> error == Some(MissingKey)
      ensures |phrase| >= 16 && key.Some? && (id !in old(records) || id !in old(archives)) ==> error == Some(NotFound)
      ensures error.Some? ==> View() == old(View())
      ensures error.None? ==> key.Some? && id in old(records) && id in old(archives) && id in archives
      ensures error.None? ==>
        records == old(records)[id := old(records)[id].(fingerprint := cipher.fingerprint(key.value))]
      ensures error.None? ==>
        archives == old(archives)[id := archives[id]] && statusCache == old(statusCache)[id := Compatible]
      ensures error.None? && Lawful(cipher) && |nonce| == 12 ==>
        && OpenAtRest(cipher, old(archives)[id], cipher.derive(phrase, SALT_AT_REST)).Ok?
        && OpenAtRest(cipher, archives[id], key.value)
           == OpenAtRest(cipher, old(archives)[id], cipher.derive(phrase, SALT_AT_REST))
    {
      if |phrase| < MIN_PASSPHRASE {
        return Some(MissingPassphrase);
      }
      if key.None? {
        return Some(MissingKey);
      }
      if id !in records || id !in archives {
        return Some(NotFound);
      }
      var plaintext := OpenAtRest(cipher, archives[id], KeyOf(cipher, phrase));
      if plaintext.Err? {
        return Some(plaintext.error);
      }
      if |nonce| == 12 && Lawful(cipher) {
        AtRestRoundTrip(cipher, key.value, key.value, nonce, plaintext.value, "");
      }
      archives := archives[id := EncryptAtRest(cipher, key.value, nonce, plaintext.value)];
      records := records[id := records[id].(fingerprint := CurrentFingerprint(cipher, key))];
      Remember(key, id, Compatible);
      return None;
    }

    /** `List`: every record with its status. */
    method ListBackups(key: Option<Key>) returns (statuses: map<string, Status>)
      ensures statuses == map id | id in records :: Shown(cipher, View(), key, id)
      ensures statuses.Keys == records.Keys
      ensures key.None? ==> forall id :: id in records ==> statuses[id] == Unknown
      ensures key.Some? && cipher.fingerprint(key.value) != "" ==> forall id :: id in records ==>
        if statusKey == cipher.fingerprint(key.value) && id in statusCache then statuses[id] == statusCache[id]
        else
          && (statuses[id] == Unverified <==> records[id].fingerprint == "")
          && (statuses[id] == Compatible <==> records[id].fingerprint == cipher.fingerprint(key.value))
          && statuses[id] in {Unverified, Compatible, Incompatible}
    {
      statuses := map[];
      var current := CurrentFingerprint(cipher, key);
      var stale := statusKey != current || current == "";
      var left := records.Keys;
      while left != {}
        invariant left <= records.Keys
        invariant statuses == map id | id in records && id !in left :: Shown(cipher, View(), key, id)
      {
        var id :| id in left;
        left := left - {id};
        var status :=
          if stale then if current == "" then Unknown else Classify(records[id], current)
          else if id in statusCache then statusCache[id] else Classify(records[id], current);
        statuses := statuses[id := status];
      }
    }

    // ---------- retention ----------

    /** The records of a source, newest first; ties come in any order. */
    method Sorted(source: string) returns (ids: seq<string>)
      ensures NewestFirst(records, ids) && forall id :: id in ids <==> id in FromSource(records, source)
    {
      ids := [];
      var left := FromSource(records, source);
      ghost var all := left;
      while left != {}
        invariant left <= all && NewestFirst(records, ids)
        invariant forall id :: id in ids <==> id in all - left
      {
        var id :| id in left;
        left := left - {id};
        var at := 0;
        while at < |ids| && records[ids[at]].createdAt >= records[id].createdAt
          invariant at <= |ids|
          invariant forall i :: 0 <= i < at ==> records[ids[i]].createdAt >= records[id].createdAt
        {
          at := at + 1;
        }
        ghost var was := ids;
        ids := ids[..at] + [id] + ids[at..];
        InsertedMembers(was, at, id);
        InsertedOrder(records, was, at, id);
      }
    }

    /** `ApplyRetention`: the newest records of the source stay, the others go with their
        archives, and no other source is touched. */
    method ApplyRetention(source: string, max: int) returns (deleted: nat)
      modifies `records, `archives, `statusCache
      ensures max <= 0 ==> View() == old(View()) && deleted == 0
      ensures max > 0 ==>
        var mine, kept := FromSource(old(records), source), FromSource(records, source);
        KeepsNewest(old(View()), View(), source, max) && deleted == |mine| - |kept|
    {
      if max <= 0 {
        return 0;
      }
      ghost var was := View();
      ghost var mine := FromSource(records, source);
      var ids := Sorted(source);
      assert forall i, j :: 0 <= i < j < |ids| ==> ids[i] != ids[j];
      SetOfDistinct(ids, mine);
      if |ids| <= max {
        assert FromSource(records, source) - mine == {};
        return 0;
      }
      deleted := DeleteFrom(ids, max);
      TailOfDistinct(ids, max);
      TakeOfDistinct(ids, max, FromSource(records, source));
    }

    /** Deletes the records of a list from some place on. */
    method DeleteFrom(ids: seq<string>, start: nat) returns (deleted: nat)
      requires start <= |ids| && forall id :: id in ids ==> id in records
      requires forall i, j :: 0 <= i < j < |ids| ==> ids[i] != ids[j]
      modifies `records, `archives, `statusCache
      ensures Retained(old(View()), View(), From(ids, start, |ids|)) && deleted == |ids| - start
    {
      ghost var was := View();
      deleted := 0;
      var i := start;
      assert From(ids, start, start) == {};
      while i < |ids|
        invariant start <= i <= |ids| && deleted == i - start
        invariant Retained(was, View(), From(ids, start, i))
      {
        assert ids[i] !in From(ids, start, i) && ids[i] in was.records;
        var error := DeleteBackup(ids[i]);
        if error.None? {
          deleted := deleted + 1;
        }
        assert From(ids, start, i + 1) == From(ids, start, i) + {ids[i]};
        i := i + 1;
      }
    }

    // ---------- schedules ----------

    /** `SaveSchedule` */
    method SaveSchedule(id: string, s: Plans.Schedule) returns (ok: bool)
      modifies `schedules
      ensures ok == Plans.Valid(id, s) && schedules == Plans.Saved(old(schedules), id, s)
      ensures ok <==> id in {"daily", "weekly", "monthly"} && s.hour.Some? && 0 <= s.hour.value <= 23 && s.days.Some?
      ensures schedules == if !ok then old(schedules) else old(schedules)[id := s.(
        retention := if s.retention > 0 then s.retention else 0,
        lastRunAt := if s.lastRunAt.None? && id in old(schedules) then old(schedules)[id].lastRunAt else s.lastRunAt)]
    {
      if !Plans.Valid(id, s) {
        return false;
      }
      var next := if s.retention < 0 then s.(retention := 0) else s;
      if id in schedules && next.lastRunAt.None? {
        next := next.(lastRunAt := schedules[id].lastRunAt);
      }
      schedules := schedules[id := next];
      return true;
    }

    /** `DeleteSchedule`: its last run is forgotten with it. */
    method DeleteSchedule(id: string)
      modifies `schedules
      ensures schedules == old(schedules) - {id}
    {
      schedules := schedules - {id};
    }

    /** `RunScheduled`: a backup under the schedule's name, then the time of the run, then retention. */
    method RunScheduled(key: Option<Key>, id: string, retention: int, e: Export) returns (ok: bool)
      requires id in schedules && id != "" && e.id !in records
      modifies this
      ensures ok == key.Some?
      ensures !ok ==> View() == old(View()) && schedules == old(schedules)
      ensures ok ==> schedules == old(schedules)[id := old(schedules)[id].(lastRunAt := Some(e.finish))]
      ensures ok && retention <= 0 ==> View() == Create(cipher, old(View()), key, e.id, id, e.now, e.plaintext, e.nonce)
      ensures ok && retention > 0 ==>
        KeepsNewest(Create(cipher, old(View()), key, e.id, id, e.now, e.plaintext, e.nonce), View(), id, retention)
      ensures OnlySource(old(View()), View(), {id}, {e.id})
      ensures ok ==> Served(cipher, key.value, old(View()), View(), id, e, retention)
    {
      var error := CreateBackup(key, e.id, id, e.now, e.plaintext, e.nonce);
      if error.Some? {
        return false;
      }
      ghost var was, made := old(View()), View();
      schedules := schedules[id := schedules[id].(lastRunAt := Some(e.finish))];
      if retention > 0 {
        var _ := ApplyRetention(id, retention);
      }
      KeepingServes(cipher, key.value, was, made, View(), id, e, retention);
      return true;
    }

    /** `Scheduler.tick` at `now`, over the schedules it loads first, in any order. Exports that
        fail are not in `exports`. */
    method Tick(key: Option<Key>, now: int, exports: map<string, Export>) returns (ghost ran: set<string>)
      requires "" !in schedules && NewIds(records, exports)
      modifies this
      ensures ran == Plans.Due(calendar, old(schedules), now, Finishes(key, exports))
      ensures schedules == Plans.Touched(old(schedules), ran, Finishes(key, exports))
      ensures OnlySource(old(View()), View(), ran, ExportIds(exports))
      ensures ran <= old(schedules).Keys * exports.Keys
      ensures AllServed(cipher, key, old(View()), View(), ran, old(schedules), exports)
    {
      ran := {};
      if key.None? {
        return;
      }
      ghost var was, finish := View(), Finishes(key, exports);
      ghost var due := Plans.Due(calendar, schedules, now, finish);
      var loaded := schedules;
      var left := loaded.Keys;
      while left != {}
        invariant left <= loaded.Keys && ran == due - left
        invariant schedules == Plans.Touched(loaded, ran, finish)
        invariant Pending(left, exports, records)
        invariant OnlySource(was, View(), ran, ExportIds(exports))
        invariant AllServed(cipher, key, was, View(), ran, loaded, exports)
      {
        var id :| id in left;
        assert left - {id} + {id} == left;
        left := left - {id};
        ran := TickTurn(key, id, loaded, now, exports, left, ran, was, due);
      }
    }

    /** One turn of a tick, while there is a key. */
    method TickTurn(key: Option<Key>, id: string, loaded: map<string, Plans.Schedule>, now: int,
                    exports: map<string, Export>,
                    ghost left: set<string>, ghost ran: set<string>, ghost was: Store, ghost due: set<string>)
      returns (ghost ran': set<string>)
      requires key.Some? && id in loaded && id != "" && id !in left && ran == due - (left + {id})
      requires due == Plans.Due(calendar, loaded, now, Finishes(key, exports))
      requires schedules == Plans.Touched(loaded, ran, Finishes(key, exports))
      requires NewIds(was.records, exports) && Pending(left + {id}, exports, records)
      requires OnlySource(was, View(), ran, ExportIds(exports))
      requires AllServed(cipher, key, was, View(), ran, loaded, exports)
      modifies this
      ensures ran' == due - left && schedules == Plans.Touched(loaded, ran', Finishes(key, exports))
      ensures Pending(left, exports, records) && OnlySource(was, View(), ran', ExportIds(exports))
      ensures AllServed(cipher, key, was, View(), ran', loaded, exports)
    {
      ran' := ran;
      OneMore(due, left, id);
      var runs := IsDue(loaded, id, now, exports, key);
      if runs {
        TouchedNext(loaded, ran, id, Finishes(key, exports));
        RunDue(key, id, loaded, exports, left, ran, was);
        ran' := ran + {id};
      }
    }

    /** Whether a loaded schedule runs; its export has to succeed. */
    method IsDue(loaded: map<string, Plans.Schedule>, id: string, now: int, exports: map<string, Export>,
                 ghost key: Option<Key>)
      returns (runs: bool)
      requires id in loaded && key.Some?
      ensures runs <==> id in Plans.Due(calendar, loaded, now, Finishes(key, exports))
      ensures runs ==> id in exports
    {
      runs := Plans.ShouldRun(calendar, id, loaded[id], now) && id in exports;
    }

    /** One due schedule of a tick, while there is a key. */
    method RunDue(key: Option<Key>, id: string, loaded: map<string, Plans.Schedule>, exports: map<string, Export>,
                  ghost left: set<string>, ghost ran: set<string>, ghost was: Store)
      requires key.Some? && id in schedules && id in loaded && id != "" && id in exports && id !in left && id !in ran
      requires NewIds(was.records, exports) && Pending(left + {id}, exports, records)
      requires OnlySource(was, View(), ran, ExportIds(exports))
      requires AllServed(cipher, key, was, View(), ran, loaded, exports)
      modifies this
      ensures schedules == old(schedules)[id := old(schedules)[id].(lastRunAt := Some(exports[id].finish))]
      ensures Pending(left, exports, records) && OnlySource(was, View(), ran + {id}, ExportIds(exports))
      ensures AllServed(cipher, key, was, View(), ran + {id}, loaded, exports)
    {
      ghost var before := View();
      var _ := RunScheduled(key, id, loaded[id].retention, exports[id]);
      OnlySourceTwice(was, before, View(), id, exports[id].id, ran, ExportIds(exports));
      ServedNow(cipher, key.value, was, before, View(), ran, ExportIds(exports), id, exports[id], loaded[id].retention);
      ServedNext(cipher, key, was, before, View(), ran, id, loaded, exports);
    }
  }

  lemma HavingIsJudged(c: Cipher, s: Store, key: Option<Key>, cache: map<string, Status>, status: Status)
    requires cache == map id | id in s.records :: Judged(c, s, key, id)
    ensures Having(cache, status) == JudgedAs(c, s, key, status)
  {
  }

  /** What a run leaves of its source: of the records that were there before it and the new one, the newest
      ones, as many as its retention asks for, with their archives; the new one opens to the export. */
  ghost predicate Served(c: Cipher, key: Key, was: Store, now: Store, id: string, e: Export, retention: int) {
    NewestStay(was, now, id, e, retention) && ArchivesStay(c, key, was, now, id, e)
  }

  ghost predicate NewestStay(was: Store, now: Store, id: string, e: Export, retention: int) {
    var mine, kept := FromSource(was.records, id) + {e.id}, FromSource(now.records, id);
    && kept <= mine
    && |kept| == (if retention <= 0 || |mine| <= retention then |mine| else retention)
    && forall gone, k :: gone in mine - kept && k in kept ==>
      (if gone == e.id then e.now else was.records[gone].createdAt) <= now.records[k].createdAt
  }

  ghost predicate ArchivesStay(c: Cipher, key: Key, was: Store, now: Store, id: string, e: Export) {
    forall k :: k in FromSource(now.records, id) ==>
      if k == e.id then
        && now.records[k] == Record(id, e.now, c.fingerprint(key)) && k in now.archives
        && (Lawful(c) && |e.nonce| == 12 ==> OpenAtRest(c, now.archives[k], key) == Ok(e.plaintext))
      else
        && k in was.records && now.records[k] == was.records[k]
        && (k in was.archives ==> k in now.archives && now.archives[k] == was.archives[k])
  }

  ghost predicate AllServed(c: Cipher, key: Option<Key>, was: Store, now: Store, ran: set<string>,
                            loaded: map<string, Plans.Schedule>, exports: map<string, Export>)
  {
    forall id :: id in ran ==>
      && key.Some? && id in loaded && id in exports
      && Served(c, key.value, was, now, id, exports[id], loaded[id].retention)
  }

  /** Two stores agree on the records of a source and their archives. */
  ghost predicate SameSource(a: Store, b: Store, source: string) {
    && FromSource(a.records, source) == FromSource(b.records, source)
    && forall k :: k in FromSource(a.records, source) ==>
      a.records[k] == b.records[k] && (k in a.archives ==> k in b.archives && b.archives[k] == a.archives[k])
  }

  /** The store of a run before and after its retention. */
  lemma KeepingServes(c: Cipher, key: Key, was: Store, made: Store, now: Store, id: string, e: Export, retention: int)
    requires e.id !in was.records && e.id in made.archives
    requires made.records == was.records[e.id := Record(id, e.now, c.fingerprint(key))]
    requires made.archives == was.archives[e.id := made.archives[e.id]]
    requires Lawful(c) && |e.nonce| == 12 ==> OpenAtRest(c, made.archives[e.id], key) == Ok(e.plaintext)
    requires if retention <= 0 then now == made else KeepsNewest(made, now, id, retention)
    ensures Served(c, key, was, now, id, e, retention)
  {
    assert FromSource(made.records, id) == FromSource(was.records, id) + {e.id};
    KeepingKeepsNewest(was, made, now, id, e, retention);
    if retention <= 0 {
      assert now.archives == made.archives;
    }
  }

  lemma KeepingKeepsNewest(was: Store, made: Store, now: Store, id: string, e: Export, retention: int)
    requires e.id !in was.records && e.id in made.records && made.records[e.id].createdAt == e.now
    requires FromSource(made.records, id) == FromSource(was.records, id) + {e.id}
    requires made.records == was.records[e.id := made.records[e.id]]
    requires if retention <= 0 then now == made else KeepsNewest(made, now, id, retention)
    ensures NewestStay(was, now, id, e, retention)
  {
    var mine, kept := FromSource(made.records, id), FromSource(now.records, id);
    if retention <= 0 { assert mine - kept == {}; }
  }

  /** A run starts from what its source was before the tick. */
  lemma ServedNow(c: Cipher, key: Key, was: Store, before: Store, now: Store, ran: set<string>, ids: set<string>,
                  id: string, e: Export, retention: int)
    requires id !in ran && e.id !in was.records && e.id !in before.records && OnlySource(was, before, ran, ids)
    requires Served(c, key, before, now, id, e, retention)
    ensures Served(c, key, was, now, id, e, retention)
  {
    UntouchedSource(was, before, ran, ids, id);
    ServedRebased(c, key, was, before, now, id, e, retention);
  }

  lemma UntouchedSource(was: Store, before: Store, ran: set<string>, ids: set<string>, id: string)
    requires id !in ran && OnlySource(was, before, ran, ids)
    ensures SameSource(was, before, id)
  {
  }

  lemma ServedRebased(c: Cipher, key: Key, was: Store, before: Store, now: Store, id: string, e: Export, retention: int)
    requires SameSource(was, before, id) && e.id !in was.records && e.id !in before.records
    requires Served(c, key, before, now, id, e, retention)
    ensures Served(c, key, was, now, id, e, retention)
  {
    assert forall k :: k in FromSource(now.records, id) && k != e.id ==> k in FromSource(before.records, id);
    assert forall k :: k in FromSource(before.records, id) ==> k in FromSource(was.records, id);
  }

  /** The runs of other schedules do not touch it. */
  lemma OthersStay(before: Store, now: Store, id: string, newId: string, x: string)
    requires OnlySource(before, now, {id}, {newId}) && x != id
    ensures SameSource(before, now, x)
  {
  }

  lemma ServedStays(c: Cipher, key: Key, was: Store, before: Store, now: Store, x: string, e: Export, n: int)
    requires Served(c, key, was, before, x, e, n) && SameSource(before, now, x)
    ensures Served(c, key, was, now, x, e, n)
  {
    assert forall k :: k in FromSource(now.records, x) ==> k in before.records && before.records[k].source == x;
  }

  lemma ServedNext(c: Cipher, key: Option<Key>, was: Store, before: Store, now: Store, ran: set<string>, id: string,
                   loaded: map<string, Plans.Schedule>, exports: map<string, Export>)
    requires AllServed(c, key, was, before, ran, loaded, exports) && id !in ran && id in loaded && id in exports
    requires OnlySource(before, now, {id}, {exports[id].id})
    requires key.Some? && Served(c, key.value, was, now, id, exports[id], loaded[id].retention)
    ensures AllServed(c, key, was, now, ran + {id}, loaded, exports)
  {
    forall x | x in ran
      ensures x in loaded && x in exports && Served(c, key.value, was, now, x, exports[x], loaded[x].retention)
    {
      OthersStay(before, now, id, exports[id].id, x);
      ServedStays(c, key.value, was, before, now, x, exports[x], loaded[x].retention);
    }
  }

  /** The new ids of runs still to come are not taken. */
  predicate Pending(left: set<string>, exports: map<string, Export>, records: map<string, Record>) {
    forall id :: id in left && id in exports ==> exports[id].id !in records
  }

  lemma OneMore(due: set<string>, left: set<string>, id: string)
    requires id !in left
    ensures due - left == due - (left + {id}) + if id in due then {id} else {}
  {
  }

  lemma TouchedNext(loaded: map<string, Plans.Schedule>, ran: set<string>, id: string, finish: map<string, int>)
    requires id in loaded && id in finish && id !in ran
    ensures var t := Plans.Touched(loaded, ran, finish);
      id in t && Plans.Touched(loaded, ran + {id}, finish) == t[id := t[id].(lastRunAt := Some(finish[id]))]
  {
  }

  predicate NewIds(records: map<string, Record>, exports: map<string, Export>) {
    && (forall a :: a in exports ==> exports[a].id !in records)
    && (forall a, b :: a in exports && b in exports && a != b ==> exports[a].id != exports[b].id)
  }

  function ExportIds(exports: map<string, Export>): set<string> { set a | a in exports :: exports[a].id }

  /** Runs succeed while there is a key. */
  function Finishes(key: Option<Key>, exports: map<string, Export>): map<string, int> {
    if key.None? then map[] else map a | a in exports :: exports[a].finish
  }

  lemma OnlySourceTwice(a: Store, b: Store, c: Store, source: string, id: string,
                        sources: set<string>, ids: set<string>)
    requires OnlySource(a, b, sources, ids) && OnlySource(b, c, {source}, {id}) && id in ids
    ensures OnlySource(a, c, sources + {source}, ids)
  {
  }

  /** What a scheduled run exports, and when it starts and ends. */
  datatype Export = Export(id: string, plaintext: seq<byte>, nonce: seq<byte>, now: int, finish: int)

  function From(ids: seq<string>, start: nat, end: nat): set<string>
    requires end <= |ids|
  {
    set i | start <= i < end :: ids[i]
  }

  /** Records come and go only among some sources, and only under some new ids. */
  ghost predicate OnlySource(before: Store, after: Store, sources: set<string>, ids: set<string>) {
    && (forall id :: id in before.records && before.records[id].source !in sources ==>
      && id in after.records && after.records[id] == before.records[id]
      && (id in before.archives ==> id in after.archives && after.archives[id] == before.archives[id]))
    && (forall id :: id in after.records ==>
      || (id in before.records && after.records[id] == before.records[id])
      || (id in ids && after.records[id].source in sources))
  }

  /** Of one source, the newest `max` records stay and the others are gone with what belongs to them;
      nothing else changes. */
  ghost predicate KeepsNewest(before: Store, after: Store, source: string, max: int) {
    var mine, kept := FromSource(before.records, source), FromSource(after.records, source);
    && |kept| == (if |mine| <= max then |mine| else max) && kept <= mine
    && Retained(before, after, mine - kept)
    && forall gone, id :: gone in mine - kept && id in kept ==>
      before.records[gone].createdAt <= before.records[id].createdAt
  }

  /** What a store is after some records have gone with their archives and statuses. */
  predicate Retained(before: Store, after: Store, gone: set<string>) {
    after == before.(records := before.records - gone, archives := before.archives - gone, cache := before.cache - gone)
  }

  lemma CountNext(c: Cipher, s: Store, key: Option<Key>, ids: seq<string>, id: string, status: Status)
    requires id in s.records && forall x :: x in ids ==> x in s.records
    ensures forall x :: x in ids + [id] ==> x in s.records
    ensures Count(c, s, key, ids + [id], status) ==
      Count(c, s, key, ids, status) + if Judged(c, s, key, id) == status then 1 else 0
  {
    assert (ids + [id])[..|ids|] == ids;
  }

  lemma JudgesNext(c: Cipher, s: Store, key: Option<Key>, ids: seq<string>, id: string, cache: map<string, Status>)
    requires id in s.records && Judges(c, s, key, ids, cache)
    ensures Judges(c, s, key, ids + [id], cache[id := Judged(c, s, key, id)])
  {
  }

  lemma JudgesAll(c: Cipher, s: Store, key: Option<Key>, ids: seq<string>, cache: map<string, Status>)
    requires Judges(c, s, key, ids, cache) && forall id :: id in ids <==> id in s.records
    ensures cache == map id | id in s.records :: Judged(c, s, key, id)
  {
  }

  lemma {:induction false} CountIsRight(c: Cipher, s: Store, key: Option<Key>, ids: seq<string>, status: Status,
                                        members: set<string>)
    requires forall id :: id in ids ==> id in s.records
    requires forall i, j :: 0 <= i < j < |ids| ==> ids[i] != ids[j]
    requires forall id :: id in members <==> id in ids && id in s.records && Judged(c, s, key, id) == status
    ensures Count(c, s, key, ids, status) == |members|
  {
    if ids == [] {
      assert members == {};
    } else {
      var front, id := ids[..|ids| - 1], ids[|ids| - 1];
      assert ids == front + [id];
      CountIsRight(c, s, key, front, status, members - {id});
      assert |members| == |members - {id}| + if id in members then 1 else 0;
    }
  }

  /** With a key configured, the parts of a summary add up to the total. */
  lemma {:induction false} CountsAddUp(c: Cipher, s: Store, key: Option<Key>, ids: seq<string>)
    requires key.Some? && forall id :: id in ids ==> id in s.records
    ensures |ids| == Count(c, s, key, ids, Compatible) + Count(c, s, key, ids, Unverified)
      + Count(c, s, key, ids, Incompatible) + Count(c, s, key, ids, MissingFile)
  {
    if ids != [] {
      var front, last := ids[..|ids| - 1], ids[|ids| - 1];
      assert last in ids && forall id :: id in front ==> id in ids;
      CountsAddUp(c, s, key, front);
    }
  }

  lemma SumsAreRight(c: Cipher, s: Store, key: Option<Key>, ids: seq<string>, sum: Summary)
    requires Lists(s.records, ids) && Sums(c, s, key, ids, sum)
    ensures RightSummary(c, s, key, sum)
  {
    SetOfDistinct(ids, s.records.Keys);
    CountIsRight(c, s, key, ids, Compatible, JudgedAs(c, s, key, Compatible));
    CountIsRight(c, s, key, ids, Unverified, JudgedAs(c, s, key, Unverified));
    CountIsRight(c, s, key, ids, Incompatible, JudgedAs(c, s, key, Incompatible));
    CountIsRight(c, s, key, ids, MissingFile, JudgedAs(c, s, key, MissingFile));
    if key.Some? { CountsAddUp(c, s, key, ids); }
  }

  lemma TailOfDistinct(ids: seq<string>, n: nat)
    requires n <= |ids| && forall i, j :: 0 <= i < j < |ids| ==> ids[i] != ids[j]
    ensures forall id :: id in ids[..n] <==> id in ids && id !in From(ids, n, |ids|)
  {
    assert ids == ids[..n] + ids[n..];
    forall id | id in ids[..n]
      ensures id !in From(ids, n, |ids|)
    {
      var i :| 0 <= i < n && ids[i] == id;
    }
  }

  lemma InsertedMembers(ids: seq<string>, at: nat, id: string)
    requires at <= |ids|
    ensures forall x :: x in ids[..at] + [id] + ids[at..] <==> x in ids || x == id
  {
    assert ids == ids[..at] + ids[at..];
  }

  lemma InsertedOrder(records: map<string, Record>, ids: seq<string>, at: nat, id: string)
    requires at <= |ids| && NewestFirst(records, ids) && id in records && id !in ids
    requires forall i :: 0 <= i < at ==> records[ids[i]].createdAt >= records[id].createdAt
    requires at < |ids| ==> records[ids[at]].createdAt < records[id].createdAt
    ensures NewestFirst(records, ids[..at] + [id] + ids[at..])
  {
  }

  lemma {:induction false} SetOfDistinct(ids: seq<string>, members: set<string>)
    requires forall i, j :: 0 <= i < j < |ids| ==> ids[i] != ids[j]
    requires forall id :: id in ids <==> id in members
    ensures |members| == |ids|
  {
    if ids != [] {
      var last := ids[|ids| - 1];
      var front := ids[..|ids| - 1];
      assert ids == front + [last];
      SetOfDistinct(front, members - {last});
    }
  }

  lemma TakeOfDistinct(ids: seq<string>, n: nat, members: set<string>)
    requires n <= |ids| && forall i, j :: 0 <= i < j < |ids| ==> ids[i] != ids[j]
    requires forall id :: id in ids[..n] <==> id in members
    ensures |members| == n
  {
    SetOfDistinct(ids[..n], members);
  }
}
