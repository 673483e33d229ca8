/** Where the backup passphrase comes from: the environment, a short-lived cache, a provider. */
module BackupKeys {
  import opened Wrappers
  import opened BackupCrypto

  datatype Provider = NoProvider | Failing | Answers(passphrase: string)

  /** `expires` is missing for the zero time. */
  datatype Sources = Sources(env: string, provider: Provider, cache: string, expires: Option<int>)

  const CACHE_SECONDS := 300

  predicate LongEnough(passphrase: string) { |passphrase| >= MIN_PASSPHRASE }

  /** The cache is empty until a fetch fills it and sets its expiry. */
  predicate Filled(s: Sources) { s.cache != "" ==> s.expires.Some? }

  predicate Usable(s: Sources, now: int) { Lives(s.cache, s.expires, now) }

  /** `fetchFromProvider`: whatever the provider answers is cached. */
  function Fetch(s: Sources, now: int): (Result<string>, Sources) {
    match s.provider
    case Answers(p) => (Ok(p), s.(cache := p, expires := Some(now + CACHE_SECONDS)))
    case _ => (Err(MissingKey), s)
  }

  /** The passphrase that `masterKey` makes the key of. */
  function Phrase(s: Sources, now: int): (Result<string>, Sources) {
    if LongEnough(s.env) then (Ok(s.env), s)
    else if Usable(s, now) then (Ok(s.cache), s)
    else
      var (answer, after) := Fetch(s, now);
      match answer
      case Ok(p) => (if LongEnough(p) then Ok(p) else Err(MissingKey), after)
      case Err(e) => (Err(e), after)
  }

  /** `masterKey` */
  function Master(c: Cipher, s: Sources, now: int): (Result<Key>, Sources) {
    var (phrase, after) := Phrase(s, now);
    (match phrase case Ok(p) => Ok(KeyOf(c, p)) case Err(e) => Err(e), after)
  }

  /** `backupKeyStatus`: a cache entry without expiry counts as valid here. */
  function Status(s: Sources, now: int): (bool, Sources) {
    if LongEnough(s.env) then (true, s)
    else if s.cache != "" && (s.expires.None? || now < s.expires.value) then (LongEnough(s.cache), s)
    else
      var (answer, after) := Fetch(s, now);
      (answer.Ok? && LongEnough(answer.value), after)
  }

  /** A cached passphrase that has not expired. */
  predicate Lives(cache: string, expires: Option<int>, now: int) {
    cache != "" && expires.Some? && now < expires.value
  }

  class KeySource {
    const cipher: Cipher
    var env: string
    var provider: Provider
    var cache: string
    var expires: Option<int>

    ghost function View(): Sources
      reads this
    {
      Sources(env, provider, cache, expires)
    }

    constructor (cipher: Cipher, env: string)
      ensures this.cipher == cipher && View() == Sources(env, NoProvider, "", None) && Filled(View())
    {
      this.cipher, this.env, provider, cache, expires := cipher, env, NoProvider, "", None;
    }

    /** `SetBackupKeyProvider` drops the cache. */
    method SetProvider(p: Provider)
      modifies `provider, `cache, `expires
      ensures View() == Sources(env, p, "", None) && Filled(View())
    {
      provider, cache, expires := p, "", None;
    }

    method FetchFromProvider(now: int) returns (answer: Result<string>)
      modifies `cache, `expires
      ensures (answer, View()) == Fetch(old(View()), now)
    {
      match provider
      case Answers(p) =>
        cache, expires := p, Some(now + CACHE_SECONDS);
        return Ok(p);
      case _ =>
        return Err(MissingKey);
    }

    method MasterKey(now: int) returns (key: Result<Key>)
      modifies `cache, `expires
      ensures (key, View()) == Master(cipher, old(View()), now)
      ensures |env| >= 16 ==> key == Ok(cipher.derive(env, SALT_AT_REST)) && View() == old(View())
      ensures |env| < 16 && Lives(old(cache), old(expires), now) ==>
        key == Ok(cipher.derive(old(cache), SALT_AT_REST)) && View() == old(View())
      ensures |env| < 16 && !Lives(old(cache), old(expires), now) && provider.Answers? ==>
        && cache == provider.passphrase && expires == Some(now + 300)
        && (|provider.passphrase| >= 16 ==> key == Ok(cipher.derive(provider.passphrase, SALT_AT_REST)))
        && (|provider.passphrase| < 16 ==> key == Err(MissingKey))
      ensures |env| < 16 && !Lives(old(cache), old(expires), now) && !provider.Answers? ==>
        key == Err(MissingKey) && View() == old(View())
      ensures old(Filled(View())) ==> Filled(View())
    {
      if |env| >= MIN_PASSPHRASE {
        return Ok(KeyOf(cipher, env));
      }
      if cache != "" && expires.Some? && now < expires.value {
        return Ok(KeyOf(cipher, cache));
      }
      var answer := FetchFromProvider(now);
      if answer.Err? {
        return Err(answer.error);
      }
      if |answer.value| < MIN_PASSPHRASE {
        return Err(MissingKey);
      }
      return Ok(KeyOf(cipher, answer.value));
    }

    method KeyStatus(now: int) returns (configured: bool)
      modifies `cache, `expires
      ensures (configured, View()) == Status(old(View()), now)
      ensures |env| >= 16 ==> configured && View() == old(View())
      ensures |env| < 16 && old(Filled(View())) && Lives(old(cache), old(expires), now) ==>
        configured == (|old(cache)| >= 16) && View() == old(View())
      ensures |env| < 16 && old(Filled(View())) && !Lives(old(cache), old(expires), now) ==>
        configured == (provider.Answers? && |provider.passphrase| >= 16)
      ensures old(Filled(View())) ==> Filled(View())
    {
      if |env| >= MIN_PASSPHRASE {
        return true;
      }
      if cache != "" && (expires.None? || now < expires.value) {
        return |cache| >= MIN_PASSPHRASE;
      }
      var answer := FetchFromProvider(now);
      return answer.Ok? && |answer.value| >= MIN_PASSPHRASE;
    }
  }

  /** The two answers agree except while a passphrase that is too short sits in the cache. */
  lemma StatusAgreesWithKey(c: Cipher, s: Sources, now: int)
    requires Filled(s)
    ensures (Status(s, now).0 == Master(c, s, now).0.Ok?) <==>
      (LongEnough(s.env) || !Usable(s, now) || LongEnough(s.cache))
    ensures Status(s, now).1 == Master(c, s, now).1
  {
  }

  /** A passphrase that is too short is turned down once and used after that. */
  lemma ShortPassphraseIsUsedFromCache(c: Cipher, s: Sources, now: int, later: int, p: string)
    requires !LongEnough(s.env) && !Usable(s, now) && s.provider == Answers(p) && 0 < |p| < MIN_PASSPHRASE
    requires now <= later < now + CACHE_SECONDS
    ensures var (first, after) := Master(c, s, now);
      first == Err(MissingKey) && Master(c, after, later).0 == Ok(KeyOf(c, p)) && !Status(after, later).0
  {
  }

  /** For the life of the cache a rotated passphrase is not seen; then it is. */
  lemma RotationIsSeenAfterExpiry(c: Cipher, s: Sources, now: int, later: int, next: string)
    requires !LongEnough(s.env) && !Usable(s, now) && s.provider.Answers? && LongEnough(s.provider.passphrase)
    requires LongEnough(next) && now <= later
    ensures var after := Master(c, s, now).1.(provider := Answers(next));
      Master(c, after, later).0 == Ok(KeyOf(c, if later < now + CACHE_SECONDS then s.provider.passphrase else next))
  {
  }

  // ---------- how long a key's passphrase is ----------

  /** A key is made of a passphrase that is too short. */
  predicate ServesShort(s: Sources, now: int) {
    Phrase(s, now).0.Ok? && !LongEnough(Phrase(s, now).0.value)
  }

  /** That is so exactly when one sits in a live cache and the environment has none to offer. */
  lemma ShortKeyIsCached(s: Sources, now: int)
    ensures ServesShort(s, now) <==> !LongEnough(s.env) && Usable(s, now) && !LongEnough(s.cache)
  {
  }

  /** What the outside sees of a run: the answers of the provider since it was installed. */
  datatype Answer = Answer(at: int, passphrase: string)
  datatype History = History(sources: Sources, clock: int, answers: seq<Answer>)

  datatype Op = KeyOp(now: int) | StatusOp(now: int) | ChangeOp(provider: Provider) | InstallOp(provider: Provider)

  /** A call that reaches the provider and gets its answer. */
  function Asked(s: Sources, now: int): seq<Answer> {
    if !LongEnough(s.env) && !Usable(s, now) && s.provider.Answers? then [Answer(now, s.provider.passphrase)] else []
  }

  /** Asking for the key or the status, a provider that changes its mind, a provider that is installed. */
  function Next(h: History, op: Op): History {
    match op
    case KeyOp(now) => History(Phrase(h.sources, now).1, now, h.answers + Asked(h.sources, now))
    case StatusOp(now) => History(Status(h.sources, now).1, now, h.answers + Asked(h.sources, now))
    case ChangeOp(p) => h.(sources := h.sources.(provider := p))
    case InstallOp(p) => History(Sources(h.sources.env, p, "", None), h.clock, [])
  }

  predicate Timely(h: History, op: Op) {
    match op
    case KeyOp(now) => h.clock <= now
    case StatusOp(now) => h.clock <= now
    case _ => true
  }

  function Run(h: History, ops: seq<Op>): History
    decreases |ops|
  {
    if ops == [] then h else Run(Next(h, ops[0]), ops[1..])
  }

  predicate TimelyRun(h: History, ops: seq<Op>)
    decreases |ops|
  {
    ops == [] || (Timely(h, ops[0]) && TimelyRun(Next(h, ops[0]), ops[1..]))
  }

  /** The cache holds the last answer, and no answer was asked for while another could be used. */
  ghost predicate Logged(h: History) {
    && (if h.answers == [] then h.sources.cache == "" else
        var last := h.answers[|h.answers| - 1];
        last.at <= h.clock && h.sources.cache == last.passphrase && h.sources.expires == Some(last.at + CACHE_SECONDS))
    && forall i, j :: 0 <= i < j < |h.answers| && h.answers[i].passphrase != "" ==>
      h.answers[i].at + CACHE_SECONDS <= h.answers[j].at
  }

  lemma StepIsLogged(h: History, op: Op)
    requires Logged(h) && Timely(h, op)
    ensures Logged(Next(h, op))
  {
    if op.KeyOp? || op.StatusOp? {
      CallIsLogged(h, op.now);
      assert Status(h.sources, op.now).1 == Phrase(h.sources, op.now).1;
    }
  }

  lemma CallIsLogged(h: History, now: int)
    requires Logged(h) && h.clock <= now
    ensures Logged(History(Phrase(h.sources, now).1, now, h.answers + Asked(h.sources, now)))
  {
    if Asked(h.sources, now) != [] && h.answers != [] {
      var n := |h.answers| - 1;
      forall i | 0 <= i <= n && h.answers[i].passphrase != ""
        ensures h.answers[i].at + CACHE_SECONDS <= now
      {
        if i < n { assert h.answers[i].at + CACHE_SECONDS <= h.answers[n].at; }
      }
    }
  }

  lemma {:induction false} RunIsLogged(h: History, ops: seq<Op>)
    requires Logged(h) && TimelyRun(h, ops)
    ensures Logged(Run(h, ops)) && Run(h, ops).sources.env == h.sources.env
    decreases |ops|
  {
    if ops != [] {
      StepIsLogged(h, ops[0]);
      RunIsLogged(Next(h, ops[0]), ops[1..]);
    }
  }

  /** The provider gave a passphrase that is too short, though not an empty one, within the last 300 seconds. */
  predicate ShortAnswer(answers: seq<Answer>, now: int) {
    exists i :: 0 <= i < |answers|
      && now < answers[i].at + 300 && 0 < |answers[i].passphrase| < 16
  }

  /** When a key is made of a passphrase that is too short, over all runs: exactly while such an answer
      of the provider is less than 300 seconds old. */
  lemma ShortKeyIsServed(env: string, provider: Provider, start: int, ops: seq<Op>, now: int)
    requires TimelyRun(History(Sources(env, provider, "", None), start, []), ops)
    requires Run(History(Sources(env, provider, "", None), start, []), ops).clock <= now
    ensures var h := Run(History(Sources(env, provider, "", None), start, []), ops);
      ServesShort(h.sources, now) <==> !LongEnough(env) && ShortAnswer(h.answers, now)
  {
    var h := Run(History(Sources(env, provider, "", None), start, []), ops);
    RunIsLogged(History(Sources(env, provider, "", None), start, []), ops);
    ShortKeyIsCached(h.sources, now);
    if ShortAnswer(h.answers, now) {
      var i :| 0 <= i < |h.answers|
        && now < h.answers[i].at + CACHE_SECONDS && 0 < |h.answers[i].passphrase| < MIN_PASSPHRASE;
      LiveAnswerIsLast(h, now, i);
    }
  }

  lemma LiveAnswerIsLast(h: History, now: int, i: nat)
    requires Logged(h) && h.clock <= now && i < |h.answers|
    requires h.answers[i].passphrase != "" && now < h.answers[i].at + CACHE_SECONDS
    ensures i == |h.answers| - 1
  {
    var last := h.answers[|h.answers| - 1];
    assert last.at <= now;
  }
}
