/** When the status shown for a backup can be trusted, and that recovery keeps the data. */
module BackupLaws {
  import opened Bytes
  import opened Wrappers
  import opened BackupCrypto
  import opened BackupSpec

  predicate Opens(c: Cipher, s: Store, key: Key, id: string) {
    id in s.archives && OpenAtRest(c, s.archives[id], key).Ok?
  }

  /** A record shown as compatible can be opened with the current key. */
  ghost predicate Sound(c: Cipher, s: Store, key: Option<Key>) {
    forall id :: id in s.records && Shown(c, s, key, id) == Compatible ==> key.Some? && Opens(c, s, key.value, id)
  }

  /** Stored fingerprints tell the truth, and no archive is missing. */
  ghost predicate Truthful(c: Cipher, s: Store) {
    && (forall id :: id in s.records ==> id in s.archives)
    && (forall id, k :: id in s.records && s.records[id].fingerprint == c.fingerprint(k) ==> Opens(c, s, k, id))
  }

  /** The cache is unpinned, or pinned to `last`, the key configured last, or to a key in `past`.
      Pinned to `last`, it can be trusted. */
  ghost predicate Pinned(c: Cipher, s: Store, last: Option<Key>, past: set<Key>) {
    && (s.cacheKey == "" ==> forall id :: id in s.cache ==> s.cache[id] != Compatible)
    && (last.Some? && s.cacheKey == c.fingerprint(last.value) ==>
        forall id :: id in s.records && id in s.cache && s.cache[id] == Compatible ==> Opens(c, s, last.value, id))
    && (forall k :: s.cacheKey == c.fingerprint(k) ==> last == Some(k) || k in past)
  }

  ghost predicate Good(c: Cipher, s: Store, last: Option<Key>, past: set<Key>) {
    Truthful(c, s) && Pinned(c, s, last, past)
  }

  lemma GoodIsSound(c: Cipher, s: Store, key: Option<Key>, last: Option<Key>, past: set<Key>)
    requires Lawful(c) && Good(c, s, last, past) && (key == None || key == last)
    ensures Sound(c, s, key)
  {
  }

  lemma CreateIsGood(c: Cipher, s: Store, k: Key, past: set<Key>, op: Op)
    requires Lawful(c) && Good(c, s, Some(k), past) && Legal(s, op) && op.CreateOp?
    ensures Good(c, Apply(c, s, Some(k), op), Some(k), past)
  {
    AtRestRoundTrip(c, k, k, op.nonce, op.plaintext, "");
    var s' := Apply(c, s, Some(k), op);
    assert Opens(c, s', k, op.id);
    assert forall id, k' :: id in s.records && id != op.id && Opens(c, s, k', id) ==> Opens(c, s', k', id);
  }

  lemma RecoverIsGood(c: Cipher, s: Store, k: Key, past: set<Key>, op: Op)
    requires Lawful(c) && Good(c, s, Some(k), past) && Legal(s, op) && op.RecoverOp?
    ensures Good(c, Apply(c, s, Some(k), op), Some(k), past)
  {
    match Recovered(c, s, Some(k), op.id, op.phrase)
    case Err(_) =>
    case Ok(plaintext) =>
      AtRestRoundTrip(c, k, k, op.nonce, plaintext, "");
      var s' := Apply(c, s, Some(k), op);
      assert Opens(c, s', k, op.id);
      assert forall id, k' :: id in s.records && id != op.id && Opens(c, s, k', id) ==> Opens(c, s', k', id);
  }

  lemma CheckIsGood(c: Cipher, s: Store, k: Key, past: set<Key>, op: Op)
    requires Lawful(c) && Good(c, s, Some(k), past) && (op.VerifyOp? || op.VerifyAllOp? || op.DeleteOp?)
    ensures Good(c, Apply(c, s, Some(k), op), Some(k), past)
  {
    var s' := Apply(c, s, Some(k), op);
    assert forall id, k' :: id in s'.records && Opens(c, s, k', id) ==> Opens(c, s', k', id);
  }

  /** Without a key, only statuses change, and never to compatible. */
  lemma NoKeyIsGood(c: Cipher, s: Store, last: Option<Key>, past: set<Key>, op: Op)
    requires Lawful(c) && Good(c, s, last, past)
    ensures Good(c, Apply(c, s, None, op), last, past)
  {
    var s' := Apply(c, s, None, op);
    assert forall id, k' :: id in s'.records && Opens(c, s, k', id) ==> Opens(c, s', k', id);
  }

  lemma {:induction false} SessionIsGood(
    c: Cipher, s: Store, key: Option<Key>, last: Option<Key>, past: set<Key>, ops: seq<Op>)
    requires Lawful(c) && Good(c, s, last, past) && (key == None || key == last) && LegalAll(c, s, key, ops)
    ensures Good(c, ApplyAll(c, s, key, ops), last, past)
    decreases |ops|
  {
    if ops != [] {
      match (key, ops[0]) {
        case (None, _) => NoKeyIsGood(c, s, last, past, ops[0]);
        case (Some(k), CreateOp(_, _, _, _, _)) => CreateIsGood(c, s, k, past, ops[0]);
        case (Some(k), RecoverOp(_, _, _)) => RecoverIsGood(c, s, k, past, ops[0]);
        case (Some(k), _) => CheckIsGood(c, s, k, past, ops[0]);
      }
      SessionIsGood(c, Apply(c, s, key, ops[0]), key, last, past, ops[1..]);
    }
  }

  // ---------- key schedules ----------

  /** No key comes back after another one was configured. */
  predicate NoReturn(ks: seq<Option<Key>>) {
    forall i, j, k :: 0 <= i < j < k < |ks| && ks[i].Some? && ks[j].Some? && ks[k] == ks[i] ==> ks[j] == ks[i]
  }

  function LastKey(ks: seq<Option<Key>>): Option<Key> {
    if ks == [] then None
    else if ks[|ks| - 1].Some? then ks[|ks| - 1]
    else LastKey(ks[..|ks| - 1])
  }

  function Past(ks: seq<Option<Key>>): set<Key> {
    set i | 0 <= i < |ks| && ks[i].Some? && ks[i] != LastKey(ks) :: ks[i].value
  }

  /** Where the last key was configured. */
  lemma {:induction false} LastKeyIsAt(ks: seq<Option<Key>>) returns (j: nat)
    ensures LastKey(ks).Some? ==> j < |ks| && ks[j] == LastKey(ks) && forall i :: j < i < |ks| ==> ks[i] == None
    ensures LastKey(ks).None? ==> forall i :: 0 <= i < |ks| ==> ks[i] == None
  {
    if ks == [] {
      j := 0;
    } else if ks[|ks| - 1].Some? {
      j := |ks| - 1;
    } else {
      j := LastKeyIsAt(ks[..|ks| - 1]);
    }
  }

  lemma NoReturnAt(ks: seq<Option<Key>>, i: nat, j: nat, k: nat)
    requires NoReturn(ks) && i < j < k < |ks| && ks[i].Some? && ks[j].Some?
    ensures ks[k] == ks[i] ==> ks[j] == ks[i]
  {
  }

  /** A key that is not the last one was not configured before, if it may be configured now. */
  lemma NotEarlier(ks: seq<Option<Key>>, key: Option<Key>, i: nat, j: nat)
    requires NoReturn(ks + [key]) && key.Some? && i < |ks| && key != LastKey(ks)
    requires LastKey(ks).Some? ==> j < |ks| && ks[j] == LastKey(ks) && forall m :: j < m < |ks| ==> ks[m] == None
    requires LastKey(ks).None? ==> ks[i] == None
    ensures ks[i] != key
  {
    var all := ks + [key];
    assert all[i] == ks[i] && all[|ks|] == key;
    if LastKey(ks).Some? && i < j && ks[i].Some? {
      assert all[j] == ks[j];
      NoReturnAt(all, i, j, |ks|);
    }
  }

  /** On such a schedule, the key of the next session is the last one or was never configured. */
  lemma NextKeyIsNew(ks: seq<Option<Key>>, key: Option<Key>)
    requires NoReturn(ks + [key]) && key.Some? && key != LastKey(ks)
    ensures key.value !in Past(ks)
  {
    var j := LastKeyIsAt(ks);
    forall i | 0 <= i < |ks|
      ensures ks[i] != key
    {
      NotEarlier(ks, key, i, j);
    }
  }

  lemma PastGrows(ks: seq<Option<Key>>, key: Option<Key>)
    ensures var last, last' := LastKey(ks), LastKey(ks + [key]);
      && last' == (if key.Some? then key else last)
      && (last' == last ==> Past(ks) <= Past(ks + [key]))
      && (last' != last && last.Some? ==> Past(ks) + {last.value} - {last'.value} <= Past(ks + [key]))
      && (last' != last && last.None? ==> Past(ks) == {})
  {
    var all := ks + [key];
    assert all[..|ks|] == ks;
    var j := LastKeyIsAt(ks);
    forall k | k in Past(ks) && Some(k) != LastKey(all)
      ensures k in Past(all)
    {
      var i :| 0 <= i < |ks| && ks[i] == Some(k);
      assert all[i] == Some(k);
    }
    if LastKey(ks).Some? {
      assert all[j] == LastKey(ks);
    }
  }

  /** A store from before the cache: archives are there, records may lack fingerprints. */
  ghost predicate Legacy(c: Cipher, s: Store) {
    Truthful(c, s) && s.cache == map[] && s.cacheKey == ""
  }

  lemma {:induction false} RunIsGood(c: Cipher, s: Store, run: seq<Session>)
    requires Lawful(c) && Legacy(c, s) && LegalRun(c, s, run) && NoReturn(Keys(run))
    ensures Good(c, Run(c, s, run), LastKey(Keys(run)), Past(Keys(run)))
    decreases |run|
  {
    if run != [] {
      var front, here := run[..|run| - 1], run[|run| - 1];
      var ks := Keys(front);
      assert Keys(run) == ks + [here.key];
      assert NoReturn(ks) by {
        assert forall i :: 0 <= i < |ks| ==> ks[i] == Keys(run)[i];
      }
      RunIsGood(c, s, front);
      PastGrows(ks, here.key);
      var last, past := LastKey(Keys(run)), Past(Keys(run));
      if here.key.Some? && here.key != LastKey(ks) { NextKeyIsNew(ks, here.key); }
      assert Good(c, Run(c, s, front), last, past);
      SessionIsGood(c, Run(c, s, front), here.key, last, past, here.ops);
    }
  }

  // ---------- soundness, exactly ----------

  /** Along every run with these keys, at every moment between operations and whatever the store
      held before, what is shown as compatible can be opened. */
  ghost predicate SoundAlways(c: Cipher, s: Store, ks: seq<Option<Key>>) {
    forall run: seq<Session> :: LegalRun(c, s, run) && run != [] && Keys(run) <= ks ==>
      Sound(c, Run(c, s, run), Keys(run)[|run| - 1])
  }

  /** Every key was derived from a passphrase of the required length. */
  ghost predicate Derived(c: Cipher, ks: seq<Option<Key>>) {
    forall i :: 0 <= i < |ks| && ks[i].Some? ==>
      exists p :: |p| >= MIN_PASSPHRASE && KeyOf(c, p) == ks[i].value
  }

  lemma PrefixOfNoReturn(ks: seq<Option<Key>>, prefix: seq<Option<Key>>)
    requires NoReturn(ks) && prefix <= ks
    ensures NoReturn(prefix)
  {
    assert forall i :: 0 <= i < |prefix| ==> prefix[i] == ks[i];
  }

  lemma NoReturnIsSound(c: Cipher, s: Store, ks: seq<Option<Key>>)
    requires Lawful(c) && Legacy(c, s) && NoReturn(ks)
    ensures SoundAlways(c, s, ks)
  {
    forall run: seq<Session> | LegalRun(c, s, run) && run != [] && Keys(run) <= ks
      ensures Sound(c, Run(c, s, run), Keys(run)[|run| - 1])
    {
      PrefixOfNoReturn(ks, Keys(run));
      RunIsGood(c, s, run);
      GoodIsSound(c, Run(c, s, run), Keys(run)[|run| - 1], LastKey(Keys(run)), Past(Keys(run)));
    }
  }

  /** Sessions without operations change nothing. */
  lemma {:induction false} IdleSessions(c: Cipher, s: Store, run: seq<Session>, from: nat)
    requires from <= |run| && forall m :: from <= m < |run| ==> run[m].ops == []
    ensures Run(c, s, run) == Run(c, s, run[..from])
    ensures LegalRun(c, s, run) == LegalRun(c, s, run[..from])
    decreases |run|
  {
    if from < |run| {
      IdleSessions(c, s, run[..|run| - 1], from);
      assert run[..|run| - 1][..from] == run[..from];
    } else {
      assert run[..from] == run;
    }
  }

  lemma RunOneMore(c: Cipher, s: Store, run: seq<Session>, n: nat)
    requires n < |run|
    ensures Run(c, s, run[..n + 1]) == ApplyAll(c, Run(c, s, run[..n]), run[n].key, run[n].ops)
    ensures LegalRun(c, s, run[..n + 1]) <==>
      LegalRun(c, s, run[..n]) && LegalAll(c, Run(c, s, run[..n]), run[n].key, run[n].ops)
  {
    assert run[..n + 1][..n] == run[..n];
  }

  /** Verified under one key, recovered under another, shown under the first again. */
  function Betrayal(ks: seq<Option<Key>>, i: nat, j: nat, id: string, nonce: seq<byte>, phrase: string): seq<Session> {
    seq(|ks|, m requires 0 <= m < |ks| => Session(ks[m],
      if m == i then [CreateOp(id, "", 0, [], nonce), VerifyAllOp]
      else if m == j then [RecoverOp(id, phrase, nonce)]
      else []))
  }

  lemma FirstAct(c: Cipher, s: Store, k: Key, id: string, nonce: seq<byte>)
    requires Lawful(c) && id !in s.records && |nonce| == NONCE_LENGTH
    ensures var ops := [CreateOp(id, "", 0, [], nonce), VerifyAllOp]; var s' := ApplyAll(c, s, Some(k), ops);
      && LegalAll(c, s, Some(k), ops) && id in s'.records && id in s'.archives && id in s'.cache
      && s'.archives[id] == EncryptAtRest(c, k, nonce, [])
      && s'.cache[id] == Compatible && s'.cacheKey == c.fingerprint(k)
  {
    var create: Op := CreateOp(id, "", 0, [], nonce);
    var ops := [create, VerifyAllOp];
    assert ops[1..] == [VerifyAllOp] && ops[1..][1..] == [];
    var s1 := Apply(c, s, Some(k), create);
    assert ApplyAll(c, s, Some(k), ops) == ApplyAll(c, s1, Some(k), ops[1..]);
    assert ApplyAll(c, s1, Some(k), ops[1..]) == VerifyAll(c, s1, Some(k));
  }

  lemma SecondAct(c: Cipher, s: Store, k: Key, k': Key, id: string, nonce: seq<byte>, phrase: string)
    requires Lawful(c) && |nonce| == NONCE_LENGTH && k != k'
    requires |phrase| >= MIN_PASSPHRASE && KeyOf(c, phrase) == k
    requires id in s.records && id in s.archives && s.archives[id] == EncryptAtRest(c, k, nonce, [])
    requires s.cacheKey == c.fingerprint(k)
    ensures var ops := [RecoverOp(id, phrase, nonce)]; var s' := ApplyAll(c, s, Some(k'), ops);
      LegalAll(c, s, Some(k'), ops) && !Sound(c, s', Some(k))
  {
    AtRestRoundTrip(c, k, k, nonce, [], "");
    AtRestRoundTrip(c, k', k, nonce, [], "");
    var op: Op := RecoverOp(id, phrase, nonce);
    assert [op][1..] == [];
    var s' := Apply(c, s, Some(k'), op);
    assert ApplyAll(c, s, Some(k'), [op]) == s';
    assert Shown(c, s', Some(k), id) == Compatible && !Opens(c, s', k, id);
  }

  /** Idle sessions between two points of a run. */
  lemma Wait(c: Cipher, s: Store, run: seq<Session>, from: nat, to: nat)
    requires from <= to <= |run| && forall m :: from <= m < to ==> run[m].ops == []
    ensures Run(c, s, run[..to]) == Run(c, s, run[..from])
    ensures LegalRun(c, s, run[..to]) == LegalRun(c, s, run[..from])
  {
    IdleSessions(c, s, run[..to], from);
    assert run[..to][..from] == run[..from];
  }

  lemma Opening(c: Cipher, s: Store, all: seq<Session>, i: nat, j: nat, k: Key, id: string, nonce: seq<byte>)
    requires Lawful(c) && id !in s.records && |nonce| == NONCE_LENGTH && i < j < |all|
    requires all[i] == Session(Some(k), [CreateOp(id, "", 0, [], nonce), VerifyAllOp])
    requires forall m :: 0 <= m < j && m != i ==> all[m].ops == []
    ensures var s' := Run(c, s, all[..j]);
      && LegalRun(c, s, all[..j]) && id in s'.records && id in s'.archives
      && s'.archives[id] == EncryptAtRest(c, k, nonce, []) && s'.cacheKey == c.fingerprint(k)
  {
    Wait(c, s, all, 0, i);
    RunOneMore(c, s, all, i);
    FirstAct(c, s, k, id, nonce);
    Wait(c, s, all, i + 1, j);
  }

  lemma Ending(c: Cipher, s: Store, all: seq<Session>, j: nat, k: nat, key: Key, key': Key,
               id: string, nonce: seq<byte>, phrase: string)
    requires Lawful(c) && |nonce| == NONCE_LENGTH && j < k < |all| && key != key'
    requires |phrase| >= MIN_PASSPHRASE && KeyOf(c, phrase) == key
    requires LegalRun(c, s, all[..j])
    requires var s' := Run(c, s, all[..j]);
      && id in s'.records && id in s'.archives
      && s'.archives[id] == EncryptAtRest(c, key, nonce, []) && s'.cacheKey == c.fingerprint(key)
    requires all[j] == Session(Some(key'), [RecoverOp(id, phrase, nonce)])
    requires forall m :: j < m < |all| ==> all[m].ops == []
    ensures LegalRun(c, s, all[..k + 1]) && !Sound(c, Run(c, s, all[..k + 1]), Some(key))
  {
    RunOneMore(c, s, all, j);
    SecondAct(c, Run(c, s, all[..j]), key, key', id, nonce, phrase);
    Wait(c, s, all, j + 1, k + 1);
  }

  lemma OneRunIsEnough(c: Cipher, s: Store, ks: seq<Option<Key>>, run: seq<Session>, key: Option<Key>)
    requires LegalRun(c, s, run) && run != [] && Keys(run) <= ks && Keys(run)[|run| - 1] == key
    requires !Sound(c, Run(c, s, run), key)
    ensures !SoundAlways(c, s, ks)
  {
  }

  lemma KeysOfPrefix(all: seq<Session>, n: nat)
    requires n <= |all|
    ensures Keys(all[..n]) == Keys(all)[..n]
  {
  }

  lemma BetrayalKeys(ks: seq<Option<Key>>, i: nat, j: nat, k: nat, id: string, nonce: seq<byte>, phrase: string)
    requires k < |ks|
    ensures var run := Betrayal(ks, i, j, id, nonce, phrase)[..k + 1];
      run != [] && Keys(run) <= ks && Keys(run)[|run| - 1] == ks[k]
  {
    var all := Betrayal(ks, i, j, id, nonce, phrase);
    KeysOfPrefix(all, k + 1);
    assert Keys(all) == ks;
  }

  lemma BetrayalRuns(c: Cipher, s: Store, ks: seq<Option<Key>>, i: nat, j: nat, k: nat, key: Key,
                     id: string, nonce: seq<byte>, phrase: string)
    requires Lawful(c) && id !in s.records && |nonce| == NONCE_LENGTH
    requires i < j < k < |ks| && ks[i] == ks[k] == Some(key) && ks[j].Some? && ks[j].value != key
    requires |phrase| >= MIN_PASSPHRASE && KeyOf(c, phrase) == key
    ensures !SoundAlways(c, s, ks)
  {
    var all := Betrayal(ks, i, j, id, nonce, phrase);
    Opening(c, s, all, i, j, key, id, nonce);
    Ending(c, s, all, j, k, key, ks[j].value, id, nonce, phrase);
    BetrayalKeys(ks, i, j, k, id, nonce, phrase);
    OneRunIsEnough(c, s, ks, all[..k + 1], Some(key));
  }

  lemma ReturnIsUnsound(c: Cipher, s: Store, ks: seq<Option<Key>>, id: string, nonce: seq<byte>)
    requires Lawful(c) && Derived(c, ks) && !NoReturn(ks) && id !in s.records && |nonce| == NONCE_LENGTH
    ensures !SoundAlways(c, s, ks)
  {
    var i, j, k :| 0 <= i < j < k < |ks| && ks[i].Some? && ks[j].Some? && ks[k] == ks[i] && ks[j] != ks[i];
    var key := ks[i].value;
    var phrase :| |phrase| >= MIN_PASSPHRASE && KeyOf(c, phrase) == key;
    BetrayalRuns(c, s, ks, i, j, k, key, id, nonce, phrase);
  }

  /** The exact condition on key rotations. */
  lemma StatusSoundness(c: Cipher, s: Store, ks: seq<Option<Key>>, id: string, nonce: seq<byte>)
    requires Lawful(c) && Legacy(c, s) && Derived(c, ks) && id !in s.records && |nonce| == NONCE_LENGTH
    ensures SoundAlways(c, s, ks) <==> NoReturn(ks)
  {
    if NoReturn(ks) {
      NoReturnIsSound(c, s, ks);
    } else {
      ReturnIsUnsound(c, s, ks, id, nonce);
    }
  }

  // ---------- recovery ----------

  /** Recovering with the right passphrase re-encrypts the same plaintext under the current key
      and leaves every other record and archive alone. */
  lemma RecoveryKeepsData(c: Cipher, s: Store, key: Key, id: string, phrase: string, nonce: seq<byte>)
    requires Lawful(c) && |nonce| == NONCE_LENGTH && |phrase| >= MIN_PASSPHRASE && id in s.records && id in s.archives
    ensures var s' := Recover(c, s, Some(key), id, phrase, nonce);
      match OpenAtRest(c, s.archives[id], KeyOf(c, phrase))
      case Ok(plaintext) =>
        && OpenAtRest(c, s'.archives[id], key) == Ok(plaintext)
        && (KeyOf(c, phrase) != key ==> OpenAtRest(c, s'.archives[id], KeyOf(c, phrase)) == Err(WrongKey))
        && s'.records == s.records[id := s.records[id].(fingerprint := c.fingerprint(key))]
        && s'.archives.Keys == s.archives.Keys
        && forall other :: other in s.archives && other != id ==> s'.archives[other] == s.archives[other]
      case Err(_) => s' == s
  {
    match OpenAtRest(c, s.archives[id], KeyOf(c, phrase))
    case Ok(plaintext) =>
      AtRestRoundTrip(c, key, key, nonce, plaintext, "");
      AtRestRoundTrip(c, key, KeyOf(c, phrase), nonce, plaintext, "");
    case Err(_) =>
  }

  /** Right after a full pass, every record is shown as the pass judged it. */
  lemma VerifyAllIsShown(c: Cipher, s: Store, key: Option<Key>, id: string)
    requires Lawful(c) && id in s.records
    ensures Shown(c, VerifyAll(c, s, key), key, id) == Judged(c, s, key, id)
  {
  }
}
