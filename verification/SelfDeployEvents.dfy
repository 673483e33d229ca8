/** How often the outcome of a self-deploy reaches the audit log. */
module SelfDeployEvents {
  import opened Wrappers
  import opened SelfDeploySpec
  import opened SelfDeployLaws

  predicate Ends(e: Event, job: string) { e == Succeeded(job) || e == FailedEvent(job) }

  /** How many outcomes the log holds for a job. */
  function Ended(events: seq<Event>, job: string): nat {
    if events == [] then 0
    else Ended(events[..|events| - 1], job) + if Ends(events[|events| - 1], job) then 1 else 0
  }

  lemma EndedNext(events: seq<Event>, e: Event, job: string)
    ensures Ended(events + [e], job) == Ended(events, job) + if Ends(e, job) then 1 else 0
  {
    assert (events + [e])[..|events|] == events;
  }

  /** `state.json` speaks of `job` and nobody has reported it. */
  predicate Unreported(w: World, job: string) {
    w.state.Stored? && w.state.st.job == job && !w.state.st.published
  }

  /** The outcome of a job that was spawned and did not need recovery is told once, and then
      nothing is left that could lead to telling it again. */
  predicate ToldOnce(w: World, job: string) {
    && Ended(w.events, job) <= 1
    && (Ended(w.events, job) == 1 ==> !Unreported(w, job) && !Running(w, SidekickName(job)))
    && (w.state.Stored? && w.state.st.job == job && w.state.st.published ==> Ended(w.events, job) == 1)
  }

  /** What the files, the sidekicks and the records agree on. */
  ghost predicate Consistent(w: World) {
    && w.recovered <= w.spawned <= w.used && (forall id :: id in w.used ==> |id| == 8)
    && (w.state.Stored? ==>
      && w.state.st.job in w.used
      && (w.state.st.phase == Recovery ==> w.state.st.job in w.recovered)
      && (w.state.st.published ==> Terminal(w.state.st.phase)))
    && (forall n :: Running(w, n) ==> match w.containers[n]
        case Booting => w.job.Some? && w.job.value in w.spawned - w.recovered
        case Working(mem) => !mem.published && Early(mem.phase) && mem.job in w.spawned - w.recovered
        case Finished(mem, _) =>
          !mem.published && mem.job in w.spawned && (mem.phase == Recovery ==> mem.job in w.recovered)
        case Stopped => true)
  }

  ghost predicate Accounted(w: World) {
    && (forall id :: id in w.spawned - w.recovered ==> ToldOnce(w, id))
    && (forall id :: id !in w.used ==> Ended(w.events, id) == 0)
  }

  /** No sidekick is between its result and its exit, recoveries aside. */
  ghost predicate Quiet(w: World) {
    forall n :: Lingering(w, n) ==> w.containers[n].mem.job in w.recovered
  }

  /** Careful, and `Status` is asked for only when it is quiet. */
  ghost predicate Patient(w: World, s: Step) {
    Legal(w, s) && Careful(w, s) && (s == PollStep ==> Quiet(w))
  }

  ghost predicate PatientRun(w: World, steps: seq<Step>)
    decreases |steps|
  {
    steps == [] || (Patient(w, steps[0]) && PatientRun(Perform(w, steps[0]), steps[1..]))
  }

  /** One more event. */
  lemma EventAccounts(w: World, w': World, e: Event)
    requires w'.events == w.events + [e] && w'.used == w.used && w'.spawned == w.spawned && w'.recovered == w.recovered
    requires Accounted(w) && forall id :: id in w.used || !Ends(e, id)
    requires forall id :: Unreported(w', id) ==> Unreported(w, id)
    requires w'.state.Stored? ==> w.state.Stored? && w'.state.st.job == w.state.st.job
    requires w'.state.Stored? && w'.state.st.published && !w.state.st.published ==> Ends(e, w.state.st.job)
    requires forall n :: Running(w', n) == Running(w, n)
    requires forall id :: id in w.spawned - w.recovered && Ends(e, id) ==>
      Unreported(w, id) && !Unreported(w', id) && !Running(w, SidekickName(id))
    ensures Accounted(w')
  {
    forall id
      ensures Ended(w'.events, id) == Ended(w.events, id) + if Ends(e, id) then 1 else 0
    {
      EndedNext(w.events, e, id);
    }
    forall id | id in w.spawned - w.recovered
      ensures ToldOnce(w', id)
    {
      assert ToldOnce(w, id);
    }
  }

  /** No event, and nothing becomes unreported or running for a job that has been told. */
  lemma SilenceAccounts(w: World, w': World)
    requires w'.events == w.events && w.used <= w'.used && w'.spawned == w.spawned && w.recovered <= w'.recovered
    requires Accounted(w)
    requires forall n :: Running(w', n) ==> Running(w, n)
    requires forall id :: id in w.spawned - w.recovered && Unreported(w', id) && !Unreported(w, id) ==>
      Running(w, SidekickName(id))
    requires w'.state.Stored? && w'.state.st.published ==> w'.state == w.state
    ensures Accounted(w')
  {
    forall id | id in w'.spawned - w'.recovered
      ensures ToldOnce(w', id)
    {
      assert ToldOnce(w, id);
    }
  }

  /** How the outcome that a state speaks of is told. */
  function Outcome(st: State): Event {
    if st.phase == Success then Succeeded(st.job) else FailedEvent(st.job)
  }

  lemma PollAccounts(w: World)
    requires Safe(w) && Consistent(w) && Accounted(w) && Quiet(w)
    ensures Consistent(Publish(w)) && Accounted(Publish(w))
  {
    var w' := Publish(w);
    if w' != w {
      var st := w.state.st;
      assert forall n :: Running(w, n) ==> Kept(w, n);
      EventAccounts(w, w', Outcome(st));
    }
  }

  lemma ReclaimAccounts(w: World, d: Docker)
    requires Safe(w) && Consistent(w) && Accounted(w)
    ensures Consistent(Reclaim(w, d).0) && Accounted(Reclaim(w, d).0)
  {
    SilenceAccounts(w, Reclaim(w, d).0);
  }

  lemma ResetAccounts(w: World, d: Docker, again: Docker)
    requires Safe(w) && Consistent(w) && Accounted(w)
    ensures Consistent(Reset(w, d, again)) && Accounted(Reset(w, d, again))
  {
    ReclaimAccounts(w, again);
    var r := Reclaim(w, again).0;
    if !ResetRefused(w, d) {
      EventAccounts(r, Reset(w, d, again), ResetEvent(if r.job.Some? then r.job.value else ""));
    }
  }

  lemma CrashAccounts(w: World)
    requires Consistent(w) && Accounted(w)
    ensures Consistent(Crash(w)) && Accounted(Crash(w)) && (Safe(w) ==> Safe(Crash(w)))
  {
    SilenceAccounts(w, Crash(w));
    assert forall n :: Running(Crash(w), n) ==> Running(w, n) && Kept(w, n) == Kept(Crash(w), n);
  }

  lemma SweepAccounts(w: World, d: Docker)
    requires Consistent(w) && Accounted(w)
    ensures Consistent(Swept(w, d)) && Accounted(Swept(w, d))
  {
    SilenceAccounts(w, Swept(w, d));
  }

  lemma RestartAccounts(w: World, d: Docker, again: Docker)
    requires Safe(w) && Consistent(w) && Accounted(w)
    ensures Consistent(Restart(w, d, again)) && Accounted(Restart(w, d, again))
  {
    CrashAccounts(w);
    ReclaimAccounts(Crash(w), d);
    SweepAccounts(Reclaim(Crash(w), d).0, again);
  }

  /** Steps of a sidekick that write its own state. */
  lemma BootAccounts(w: World, name: string)
    requires Safe(w) && Consistent(w) && Accounted(w)
    ensures Consistent(Boot(w, name)) && Accounted(Boot(w, name))
  {
    if Running(w, name) { assert Kept(w, name); }
    SilenceAccounts(w, Boot(w, name));
  }

  lemma FlushAccounts(w: World, name: string)
    requires Safe(w) && Consistent(w) && Accounted(w)
    ensures Consistent(Flush(w, name)) && Accounted(Flush(w, name))
  {
    if Running(w, name) { assert Kept(w, name); }
    SilenceAccounts(w, Flush(w, name));
  }

  lemma EndAccounts(w: World, name: string, end: Phase)
    requires Safe(w) && Consistent(w) && Accounted(w)
    ensures Consistent(End(w, name, end)) && Accounted(End(w, name, end))
  {
    if Running(w, name) { assert Kept(w, name); }
    assert forall n :: Running(w, n) ==> Kept(w, n);
    SilenceAccounts(w, End(w, name, end));
  }

  lemma AdvanceAccounts(w: World, name: string)
    requires Consistent(w) && Accounted(w)
    ensures Consistent(Advance(w, name)) && Accounted(Advance(w, name))
  {
    SilenceAccounts(w, Advance(w, name));
  }

  lemma UnlockAccounts(w: World, name: string)
    requires Consistent(w) && Accounted(w)
    ensures Consistent(Unlock(w, name)) && Accounted(Unlock(w, name))
  {
    SilenceAccounts(w, Unlock(w, name));
  }

  lemma HaltAccounts(w: World, name: string)
    requires Consistent(w) && Accounted(w)
    ensures Consistent(Halt(w, name)) && Accounted(Halt(w, name))
  {
    SilenceAccounts(w, Halt(w, name));
  }

  ghost predicate AllAccounted(stages: seq<World>) {
    forall k :: 0 <= k < |stages| ==> Consistent(stages[k]) && Accounted(stages[k])
  }

  /** Steps of a deploy that tell nothing and start nothing. */
  lemma QuietlyAccounts(w: World, w': World)
    requires Consistent(w) && Accounted(w)
    requires w'.events == w.events && w'.used == w.used && w'.spawned == w.spawned && w'.recovered == w.recovered
    requires forall n :: Running(w', n) ==> Running(w, n) && w'.containers[n] == w.containers[n] && w'.job == w.job
    requires w'.state == w.state || (
      && w'.state.Stored? && w'.state.st.job in w.used - w.spawned
      && !w'.state.st.published && w'.state.st.phase != Recovery)
    ensures Consistent(w') && Accounted(w')
  {
    SilenceAccounts(w, w');
  }

  /** Steps of a deploy that only tell something, and no outcome of a spawned job. */
  lemma TellingAccounts(w: World, e: Event)
    requires Consistent(w) && Accounted(w)
    requires e.Started? || (e.FailedEvent? && e.job in w.used - w.spawned)
    ensures Consistent(w.(events := w.events + [e])) && Accounted(w.(events := w.events + [e]))
  {
    EventAccounts(w, w.(events := w.events + [e]), e);
  }

  /** A spawn that fails says so on the spot; its job was not spawned. */
  lemma SpawnFailedAccounts(w: World, id: string)
    requires Consistent(w) && Accounted(w) && id in w.used && id !in w.spawned
    ensures AllAccounted(SpawnFailed(w, id))
  {
    var failed := Fail(w, id);
    QuietlyAccounts(w, failed);
    var told := failed.(events := failed.events + [FailedEvent(id)]);
    TellingAccounts(failed, FailedEvent(id));
    QuietlyAccounts(told, told.(lock := false));
  }

  /** A sidekick of a new name comes up. */
  lemma SpawnAccounts(w: World, w': World, id: string)
    requires Idle(w) && Consistent(w) && Accounted(w) && id in w.used - w.spawned
    requires Ended(w.events, id) == 0 && w.job == Some(id) && w.state == Stored(State(id, Pending, false))
    requires w' == w.(containers := w.containers[SidekickName(id) := Booting], spawned := w.spawned + {id})
    ensures Consistent(w') && Accounted(w')
  {
    forall other | other in w'.spawned - w'.recovered
      ensures ToldOnce(w', other)
    {
      if other != id {
        assert ToldOnce(w, other);
        NamesDiffer(other, id);
      }
    }
  }

  lemma SpawnedAccounts(w: World, id: string)
    requires Idle(w) && Consistent(w) && Accounted(w) && id in w.used - w.spawned && Ended(w.events, id) == 0
    requires w.job == Some(id) && w.state == Stored(State(id, Pending, false))
    ensures AllAccounted(Launching(w, id, Spawns))
  {
    var created := w.(containers := w.containers[SidekickName(id) := Stopped]);
    QuietlyAccounts(w, created);
    var started := w.(containers := w.containers[SidekickName(id) := Booting], spawned := w.spawned + {id});
    SpawnAccounts(w, started, id);
    var watched := started.(watchdogs := started.watchdogs + {id});
    WatchedAccounts(started, id);
    Join([w, created], [started, watched, watched.(events := watched.events + [Started(id)])]);
    LaunchingStages(w, id);
  }

  lemma LaunchingStages(w: World, id: string)
    ensures var started := w.(containers := w.containers[SidekickName(id) := Booting], spawned := w.spawned + {id});
      var watched := started.(watchdogs := started.watchdogs + {id});
      Launching(w, id, Spawns)
      == [w, w.(containers := w.containers[SidekickName(id) := Stopped])]
         + [started, watched, watched.(events := watched.events + [Started(id)])]
  {
  }

  lemma WatchedAccounts(w: World, id: string)
    requires Consistent(w) && Accounted(w)
    ensures var watched := w.(watchdogs := w.watchdogs + {id});
      AllAccounted([w, watched, watched.(events := watched.events + [Started(id)])])
  {
    var watched := w.(watchdogs := w.watchdogs + {id});
    QuietlyAccounts(w, watched);
    TellingAccounts(watched, Started(id));
    Three(w, watched, watched.(events := watched.events + [Started(id)]));
  }

  lemma Three(a: World, b: World, c: World)
    requires Consistent(a) && Accounted(a) && Consistent(b) && Accounted(b) && Consistent(c) && Accounted(c)
    ensures AllAccounted([a, b, c])
  {
  }

  lemma NotStarted(w: World, id: string)
    requires Consistent(w) && Accounted(w) && id in w.used && id !in w.spawned && Idle(w)
    ensures AllAccounted(Launching(w, id, CannotStart))
  {
    var created := w.(containers := w.containers[SidekickName(id) := Stopped]);
    var removed := w.(containers := w.containers - {SidekickName(id)});
    QuietlyAccounts(w, created);
    QuietlyAccounts(w, removed);
    SpawnFailedAccounts(removed, id);
    Join([w, created, removed], SpawnFailed(removed, id));
  }

  lemma Join(a: seq<World>, b: seq<World>)
    requires AllAccounted(a) && AllAccounted(b)
    ensures AllAccounted(a + b)
  {
  }

  lemma LaunchingAccounts(w: World, id: string, spawn: Spawn)
    requires Idle(w) && Consistent(w) && Accounted(w) && id in w.used && id !in w.spawned
    requires Ended(w.events, id) == 0 && w.job == Some(id) && w.state == Stored(State(id, Pending, false))
    ensures AllAccounted(Launching(w, id, spawn))
  {
    match spawn
    case CannotCreate =>
      SpawnFailedAccounts(w, id);
      Join([w], SpawnFailed(w, id));
    case CannotStart => NotStarted(w, id);
    case Spawns => SpawnedAccounts(w, id);
  }

  lemma SpawningAccounts(w: World, id: string, env: Env)
    requires Idle(w) && Consistent(w) && Accounted(w) && id in w.used && id !in w.spawned
    requires Ended(w.events, id) == 0
    ensures AllAccounted(Spawning(w, id, env))
  {
    var locked := w.(lock := true);
    var described := locked.(job := Some(id));
    var pending := described.(state := Stored(State(id, Pending, false)));
    QuietlyAccounts(w, locked);
    QuietlyAccounts(w, described);
    QuietlyAccounts(w, described.(lock := false));
    QuietlyAccounts(w, pending);
    QuietlyAccounts(w, pending.(lock := false));
    QuietlyAccounts(w, Swept(pending, env.again));
    if env.jobWritten && env.stateWritten && !env.again.Absent? {
      LaunchingAccounts(Swept(pending, env.again), id, env.spawn);
    }
  }

  lemma ReadyAccounts(w: World, id: string, d: Docker)
    requires Safe(w) && Consistent(w) && Accounted(w) && |id| == 8
    ensures var ready := Ready(w, d).(used := w.used + {id}); Consistent(ready) && Accounted(ready)
  {
    ReclaimAccounts(w, d);
    var reclaimed := Ready(w, d);
    SilenceAccounts(reclaimed, reclaimed.(used := w.used + {id}));
  }

  lemma TriggerAccounts(w: World, id: string, env: Env)
    requires Safe(w) && Consistent(w) && Accounted(w) && Clear(w, env.docker) && NewId(w, id)
    ensures AllAccounted(Stages(w, id, env))
  {
    var ready := Ready(w, env.docker).(used := w.used + {id});
    ReadyAccounts(w, id, env.docker);
    if !ready.lock && env.locks {
      assert Idle(w) by {
        if !Idle(w) { ClearIsIdleOrHeld(w, env.docker); }
      }
      assert forall n :: Running(ready, n) == Running(w, n);
      SpawningAccounts(ready, id, env);
      Join([ready], Spawning(ready, id, env));
    }
  }

  lemma StepAccounts(w: World, s: Step)
    requires Safe(w) && Consistent(w) && Accounted(w) && Patient(w, s)
    ensures Consistent(Perform(w, s)) && Accounted(Perform(w, s))
  {
    match s
    case Trigger(id, env) => TriggerAccounts(w, id, env);
    case TriggerCrashes(id, env, at) =>
      TriggerAccounts(w, id, env);
      var stages := Stages(w, id, env);
      CrashAccounts(if at < |stages| then stages[at] else Last(stages));
    case WatchStep(id, d) => SilenceAccounts(w, Watch(w, id, d));
    case PollStep => PollAccounts(w);
    case ResetStep(d, again) => ResetAccounts(w, d, again);
    case RestartStep(d, again) => RestartAccounts(w, d, again);
    case BootStep(name) => BootAccounts(w, name);
    case AdvanceStep(name) => AdvanceAccounts(w, name);
    case FlushStep(name) => FlushAccounts(w, name);
    case EndStep(name, end) => EndAccounts(w, name, end);
    case UnlockStep(name) => UnlockAccounts(w, name);
    case HaltStep(name) => HaltAccounts(w, name);
  }

  lemma {:induction false} RunAccounts(w: World, steps: seq<Step>)
    requires Safe(w) && Consistent(w) && Accounted(w) && PatientRun(w, steps)
    ensures Accounted(Play(w, steps))
    decreases |steps|
  {
    if steps != [] {
      StepIsSafe(w, steps[0]);
      StepAccounts(w, steps[0]);
      RunAccounts(Perform(w, steps[0]), steps[1..]);
    }
  }

  /** At most one outcome per spawned job that never needed recovery, over all patient runs. */
  lemma AtMostOneOutcome(steps: seq<Step>, job: string)
    requires PatientRun(FRESH, steps)
    requires job in Play(FRESH, steps).spawned - Play(FRESH, steps).recovered
    ensures Ended(Play(FRESH, steps).events, job) <= 1
  {
    RunAccounts(FRESH, steps);
  }

  /** A run that starts with that step and is patient from then on. */
  ghost predicate After(w: World, s: Step, steps: seq<Step>) {
    steps != [] && steps[0] == s && Legal(w, s) && PatientRun(Perform(w, s), steps[1..])
  }

  ghost predicate OutcomesOnce(w: World) {
    forall job :: job in w.spawned - w.recovered ==> Ended(w.events, job) <= 1
  }

  /** The sidekick writes its state once more and exits, between two polls. */
  function TwoPolls(name: string): seq<Step> {
    [PollStep] + ([FlushStep(name)] + ([HaltStep(name)] + ([PollStep] + [])))
  }

  /** One step of a patient run. */
  lemma PatientStep(w: World, s: Step, rest: seq<Step>)
    ensures Play(w, [s] + rest) == Play(Perform(w, s), rest)
    ensures PatientRun(w, [s] + rest) <==> Patient(w, s) && PatientRun(Perform(w, s), rest)
  {
    assert ([s] + rest)[1..] == rest;
  }

  lemma TwoPollsPlay(w: World, name: string)
    requires Safe(w) && Lingering(w, name)
    requires !w.state.st.published && !w.containers[name].mem.published
    ensures After(w, PollStep, TwoPolls(name))
    ensures var w' := Play(w, TwoPolls(name));
      && w'.events == w.events + [Outcome(w.state.st)] + [Outcome(w.containers[name].mem)]
      && w'.spawned == w.spawned && w'.recovered == w.recovered
  {
    assert Kept(w, name);
    OnlyOneLingers(w, name);
    var w1 := Publish(w);
    assert w1.containers == w.containers && w1.events == w.events + [Outcome(w.state.st)];
    assert forall n :: Lingering(w1, n) ==> Lingering(w, n);
    LastWords(w1, name);
    var rest := [FlushStep(name)] + ([HaltStep(name)] + ([PollStep] + []));
    PatientStep(w, PollStep, rest);
    assert TwoPolls(name)[1..] == rest;
  }

  lemma LastWords(w: World, name: string)
    requires Lingering(w, name) && Terminal(w.containers[name].mem.phase) && !w.containers[name].mem.published
    requires forall n :: Lingering(w, n) ==> n == name
    ensures var steps := [FlushStep(name)] + ([HaltStep(name)] + ([PollStep] + []));
      && PatientRun(w, steps)
      && Play(w, steps).events == w.events + [Outcome(w.containers[name].mem)]
      && Play(w, steps).spawned == w.spawned && Play(w, steps).recovered == w.recovered
  {
    var w1 := Flush(w, name);
    var w2 := Halt(w1, name);
    assert w2.containers == w.containers[name := Stopped] && w2.state == Stored(w.containers[name].mem);
    assert forall n :: Lingering(w2, n) ==> Lingering(w, n);
    PatientStep(w, FlushStep(name), [HaltStep(name)] + ([PollStep] + []));
    PatientStep(w1, HaltStep(name), [PollStep] + []);
    PatientStep(w2, PollStep, []);
  }

  lemma ToldTwice(events: seq<Event>, e: Event, again: Event, job: string)
    requires Ends(e, job) && Ends(again, job)
    ensures Ended(events + [e] + [again], job) >= 2
  {
    EndedNext(events, e, job);
    EndedNext(events + [e], again, job);
  }

  lemma HastyPollsTellTwice(w: World, name: string)
    requires Safe(w) && Consistent(w) && Accounted(w)
    requires Lingering(w, name) && w.containers[name].mem.job !in w.recovered
    ensures After(w, PollStep, TwoPolls(name)) && !OutcomesOnce(Play(w, TwoPolls(name)))
  {
    assert Kept(w, name);
    var st := w.containers[name].mem;
    assert ToldOnce(w, st.job);
    TwoPollsPlay(w, name);
    ToldTwice(w.events, Outcome(w.state.st), Outcome(st), st.job);
  }

  ghost predicate NoneLingers(w: World) { forall n :: !Lingering(w, n) }

  /** A sidekick reaches its result and exits; then comes a poll. */
  function Closing(n: string, end: Phase, rest: seq<Step>): seq<Step> {
    [EndStep(n, end)] + ([HaltStep(n)] + ([PollStep] + rest))
  }

  lemma ClosingTells(w: World, n: string, end: Phase, rest: seq<Step>)
    requires n in w.containers && w.containers[n].Working? && !w.containers[n].mem.published && NoneLingers(w)
    requires CanEnd(w.containers[n].mem.phase, end) && end != Recovery
    ensures var w' := Publish(Halt(End(w, n, end), n));
      && Play(w, Closing(n, end, rest)) == Play(w', rest)
      && (PatientRun(w, Closing(n, end, rest)) <==> PatientRun(w', rest))
      && w' == w.(containers := w.containers[n := Stopped], state := w'.state,
                  events := w.events + [Outcome(w.containers[n].mem.(phase := end))])
      && NoneLingers(w')
  {
    var w1 := End(w, n, end);
    var w2 := Halt(w1, n);
    assert w2.containers == w.containers[n := Stopped];
    assert forall m :: Lingering(w2, m) ==> Lingering(w, m);
    assert forall m :: Lingering(Publish(w2), m) ==> Lingering(w2, m);
    PatientStep(w, EndStep(n, end), [HaltStep(n)] + ([PollStep] + rest));
    PatientStep(w1, HaltStep(n), [PollStep] + rest);
    PatientStep(w2, PollStep, rest);
  }

  /** The same for a sidekick that has not read its job yet. */
  function Failing(n: string, rest: seq<Step>): seq<Step> {
    [BootStep(n)] + Closing(n, Failed, rest)
  }

  lemma FailingTells(w: World, n: string, job: string, rest: seq<Step>)
    requires n in w.containers && w.containers[n].Booting? && NoneLingers(w) && w.job == Some(job) && job != ""
    ensures var w' := Publish(Halt(End(Boot(w, n), n, Failed), n));
      && Play(w, Failing(n, rest)) == Play(w', rest) && (PatientRun(w, Failing(n, rest)) <==> PatientRun(w', rest))
      && w' == w.(containers := w.containers[n := Stopped], state := w'.state, events := w.events + [FailedEvent(job)])
      && NoneLingers(w')
  {
    var w1 := Boot(w, n);
    assert w1.containers[n] == Working(State(job, Pending, false));
    assert forall m :: Lingering(w1, m) ==> Lingering(w, m);
    ClosingTells(w1, n, Failed, rest);
    PatientStep(w, BootStep(n), Closing(n, Failed, rest));
    assert w1.containers[n := Stopped] == w.containers[n := Stopped];
  }

  /** A job has been declared failed while its sidekick is at work. */
  ghost predicate Forsaken(w: World, n: string, job: string) {
    && w.state == Stored(State(job, Failed, false)) && job in w.spawned - w.recovered && job != ""
    && NoneLingers(w) && Unfinished(w, n)
    && match w.containers[n]
       case Working(mem) => mem.job == job && !mem.published && Early(mem.phase)
       case _ => w.job == Some(job)
  }

  /** The sidekick goes on and finishes, between two polls. */
  function Finale(w: World, n: string): seq<Step> {
    [PollStep] + Curtain(w, n)
  }

  function Curtain(w: World, n: string): seq<Step> {
    if n in w.containers && w.containers[n].Working?
    then Closing(n, if w.containers[n].mem.phase in {Pending, Stopping} then Failed else RolledBack, [])
    else Failing(n, [])
  }

  lemma ForsakenIsToldTwice(w: World, n: string, job: string)
    requires Forsaken(w, n, job)
    ensures PatientRun(w, Finale(w, n)) && !OutcomesOnce(Play(w, Finale(w, n)))
  {
    var w1 := Publish(w);
    assert w1 == w.(state := w1.state, events := w.events + [FailedEvent(job)]);
    assert forall m :: Lingering(w1, m) ==> Lingering(w, m);
    var rest := Curtain(w, n);
    assert PatientRun(w1, rest) && Play(w1, rest).events == w1.events + [FailedEvent(job)]
        && Play(w1, rest).spawned == w.spawned && Play(w1, rest).recovered == w.recovered by {
      if w.containers[n].Working? {
        ClosingTells(w1, n, if w.containers[n].mem.phase in {Pending, Stopping} then Failed else RolledBack, []);
      } else {
        FailingTells(w1, n, job, []);
      }
    }
    PatientStep(w, PollStep, rest);
    ToldTwice(w.events, FailedEvent(job), FailedEvent(job), job);
  }

  lemma NobodyElse(w: World, n: string)
    requires Safe(w) && Unfinished(w, n)
    ensures Kept(w, n) && NoneLingers(w)
  {
    assert Kept(w, n);
    forall m | Running(w, m)
      ensures m == n
    {
      assert Kept(w, m);
    }
  }

  /** What careless steps leave behind. */
  lemma CarelessForsakes(w: World, s: Step)
    requires Safe(w) && Consistent(w) && Legal(w, s) && !s.Trigger? && !s.TriggerCrashes? && !Careful(w, s)
    ensures exists n, job :: Forsaken(Perform(w, s), n, job)
  {
    var n :| Unfinished(w, n) && (s.WatchStep? ==> n == SidekickName(s.id));
    var w', job := Perform(w, s), w.state.st.job;
    NobodyElse(w, n);
    assert w'.state == Stored(State(job, Failed, false));
    assert forall m :: Lingering(w', m) ==> Lingering(w, m);
    assert w'.containers[n] == w.containers[n];
    assert Forsaken(w', n, job);
  }

  /** The patience asked of every step but a deploy is exact: without it some outcome is told twice in
      a run that is patient from then on. */
  lemma PatienceIsExact(w: World, s: Step)
    requires Safe(w) && Consistent(w) && Accounted(w) && Legal(w, s) && !s.Trigger? && !s.TriggerCrashes?
    ensures Patient(w, s) <==> forall steps :: After(w, s, steps) ==> OutcomesOnce(Play(w, steps))
  {
    if Patient(w, s) {
      forall steps | After(w, s, steps)
        ensures OutcomesOnce(Play(w, steps))
      {
        RunAccounts(w, steps);
      }
    } else if s == PollStep {
      var n :| Lingering(w, n) && w.containers[n].mem.job !in w.recovered;
      HastyPollsTellTwice(w, n);
    } else {
      CarelessForsakes(w, s);
      var n, job :| Forsaken(Perform(w, s), n, job);
      ForsakenBreaks(w, s, n, job);
    }
  }

  lemma ForsakenBreaks(w: World, s: Step, n: string, job: string)
    requires Legal(w, s) && Forsaken(Perform(w, s), n, job)
    ensures var steps := [s] + Finale(Perform(w, s), n); After(w, s, steps) && !OutcomesOnce(Play(w, steps))
  {
    var rest := Finale(Perform(w, s), n);
    ForsakenIsToldTwice(Perform(w, s), n, job);
    PatientStep(w, s, rest);
    assert ([s] + rest)[1..] == rest;
  }

  /** A deploy takes over from another, whose sidekick has not read `job.json` yet: both sidekicks then
      work on the later job, and each has its result told. */
  function BothFail(name: string, b: string, c: string): seq<Step> {
    [UnlockStep(name)] + ([FlushStep(name)] + ([HaltStep(name)] + ([Trigger(c, SMOOTH)]
      + Failing(SidekickName(b), Failing(SidekickName(c), [])))))
  }

  lemma SharedJobIsToldTwice(w: World, b: string, c: string)
    requires |b| == 8 && |c| == 8 && b != c && w.job == Some(c) && c in w.spawned - w.recovered && NoneLingers(w)
    requires var nb, nc := SidekickName(b), SidekickName(c);
      && nb in w.containers && w.containers[nb] == Booting && nc in w.containers && w.containers[nc] == Booting
    ensures var steps := Failing(SidekickName(b), Failing(SidekickName(c), []));
      PatientRun(w, steps) && !OutcomesOnce(Play(w, steps))
  {
    NamesDiffer(b, c);
    FailingTells(w, SidekickName(b), c, Failing(SidekickName(c), []));
    var w1 := Publish(Halt(End(Boot(w, SidekickName(b)), SidekickName(b), Failed), SidekickName(b)));
    FailingTells(w1, SidekickName(c), c, []);
    ToldTwice(w.events, FailedEvent(c), FailedEvent(c), c);
  }

  lemma TakeoverPlays(w: World, name: string, c: string, rest: seq<Step>)
    ensures var w' := Leave(w, name);
      var steps := [UnlockStep(name)] + ([FlushStep(name)] + ([HaltStep(name)] + ([Trigger(c, SMOOTH)] + rest)));
      && Play(w, steps) == Play(Perform(w', Trigger(c, SMOOTH)), rest)
      && (PatientRun(w, steps) <==>
          Legal(w', Trigger(c, SMOOTH)) && Clear(w', Answering) && PatientRun(Perform(w', Trigger(c, SMOOTH)), rest))
  {
    var last := [Trigger(c, SMOOTH)] + rest;
    PatientStep(w, UnlockStep(name), [FlushStep(name)] + ([HaltStep(name)] + last));
    PatientStep(Unlock(w, name), FlushStep(name), [HaltStep(name)] + last);
    PatientStep(Flush(Unlock(w, name), name), HaltStep(name), last);
    PatientStep(Leave(w, name), Trigger(c, SMOOTH), rest);
  }

  /** A run that starts with a deploy, for which Docker behaves like that, and is patient from then on. */
  ghost predicate AfterDeploy(w: World, d: Docker, steps: seq<Step>) {
    && steps != [] && (steps[0].Trigger? || steps[0].TriggerCrashes?) && steps[0].env.docker == d
    && Legal(w, steps[0]) && PatientRun(Perform(w, steps[0]), steps[1..])
  }

  /** A deploy that asks a silent daemon and then crashes. */
  function SilentDeploy(b: string): Step {
    TriggerCrashes(b, SMOOTH.(docker := Silent), 0)
  }

  lemma SilentDeployForsakes(w: World, b: string, n: string)
    requires Safe(w) && Consistent(w) && Unfinished(w, n) && NewId(w, b)
    ensures w.state.Stored? && Forsaken(Perform(w, SilentDeploy(b)), n, w.state.st.job)
  {
    NobodyElse(w, n);
    var ready := Ready(w, Silent).(used := w.used + {b});
    assert Stages(w, b, SMOOTH.(docker := Silent))[0] == ready;
    var w', job := Perform(w, SilentDeploy(b)), w.state.st.job;
    assert w' == Crash(ready) && w'.containers == w.containers && w'.state == Stored(State(job, Failed, false));
    assert forall m :: Lingering(w', m) ==> Lingering(w, m);
  }

  lemma SilentDeployTellsTwice(w: World, b: string) returns (steps: seq<Step>)
    requires Safe(w) && Consistent(w) && Busy(w) && NewId(w, b)
    ensures AfterDeploy(w, Silent, steps) && !OutcomesOnce(Play(w, steps))
  {
    var n :| Unfinished(w, n);
    SilentDeployForsakes(w, b, n);
    ForsakenBreaks(w, SilentDeploy(b), n, w.state.st.job);
    steps := [SilentDeploy(b)] + Finale(Perform(w, SilentDeploy(b)), n);
  }

  lemma LeaveKeeps(w: World, name: string)
    requires Lingering(w, name) && forall n :: Lingering(w, n) ==> n == name
    ensures var w' := Leave(w, name);
      && w'.containers == w.containers[name := Stopped] && w'.spawned == w.spawned && w'.recovered == w.recovered
      && w'.used == w.used && NoneLingers(w')
  {
    var w' := Leave(w, name);
    assert w'.containers == w.containers[name := Stopped];
    assert forall n :: Lingering(w', n) ==> Lingering(w, n);
  }

  lemma ThirdShares(w: World, nb: string, c: string)
    requires nb in w.containers && w.containers[nb] == Booting && nb != SidekickName(c) && NoneLingers(w)
    requires !Ready(w, Answering).lock && c !in w.recovered
    ensures var w', nc := Perform(w, Trigger(c, SMOOTH)), SidekickName(c);
      && w'.job == Some(c) && c in w'.spawned - w'.recovered && NoneLingers(w')
      && nb in w'.containers && w'.containers[nb] == Booting && nc in w'.containers && w'.containers[nc] == Booting
  {
    var w' := Perform(w, Trigger(c, SMOOTH));
    TriggerSpawns(w, c, Answering);
    assert forall n :: Lingering(w', n) ==> Lingering(w, n);
  }

  /** Two deploys in a row start beside a finished sidekick. */
  lemma BothAreBooting(w: World, d: Docker, name: string, b: string, c: string)
    requires Safe(w) && Consistent(w) && Lingering(w, name) && !Ready(w, d).lock
    requires NewId(w, b) && NewId(w, c) && b != c
    ensures var nb, nc := SidekickName(b), SidekickName(c);
      var w2 := Leave(Perform(w, Trigger(b, SMOOTH.(docker := d))), name);
      var w3 := Perform(w2, Trigger(c, SMOOTH));
      && NewId(w2, c) && Clear(w2, Answering)
      && w3.job == Some(c) && c in w3.spawned - w3.recovered && NoneLingers(w3)
      && nb in w3.containers && w3.containers[nb] == Booting && nc in w3.containers && w3.containers[nc] == Booting
  {
    assert Kept(w, name);
    OnlyOneLingers(w, name);
    SecondStarts(w, name, b, d);
    TriggerSpawns(w, b, d);
    NamesDiffer(b, c);
    var w1 := Perform(w, Trigger(b, SMOOTH.(docker := d)));
    LockIsLost(w1, name, SidekickName(b));
    LeaveKeeps(w1, name);
    ThirdShares(Leave(w1, name), SidekickName(b), c);
  }

  lemma TakeoverTellsTwice(w: World, name: string, b: string, c: string)
    requires |b| == 8 && |c| == 8 && b != c && NewId(Leave(w, name), c) && Clear(Leave(w, name), Answering)
    requires var nb, nc, w' := SidekickName(b), SidekickName(c), Perform(Leave(w, name), Trigger(c, SMOOTH));
      && w'.job == Some(c) && c in w'.spawned - w'.recovered && NoneLingers(w')
      && nb in w'.containers && w'.containers[nb] == Booting && nc in w'.containers && w'.containers[nc] == Booting
    ensures PatientRun(w, BothFail(name, b, c)) && !OutcomesOnce(Play(w, BothFail(name, b, c)))
  {
    SharedJobIsToldTwice(Perform(Leave(w, name), Trigger(c, SMOOTH)), b, c);
    TakeoverPlays(w, name, c, Failing(SidekickName(b), Failing(SidekickName(c), [])));
  }

  /** The sidekick of the first of them reads the `job.json` of the second. */
  lemma LingeringDeployTellsTwice(w: World, d: Docker, name: string, b: string, c: string) returns (steps: seq<Step>)
    requires Safe(w) && Consistent(w) && Lingering(w, name) && !Ready(w, d).lock
    requires NewId(w, b) && NewId(w, c) && b != c
    ensures AfterDeploy(w, d, steps) && !OutcomesOnce(Play(w, steps))
  {
    var first, rest := Trigger(b, SMOOTH.(docker := d)), BothFail(name, b, c);
    var w1 := Perform(w, first);
    assert PatientRun(w1, rest) && !OutcomesOnce(Play(w1, rest)) by {
      BothAreBooting(w, d, name, b, c);
      TakeoverTellsTwice(w1, name, b, c);
    }
    DeployThen(w, first, rest);
    steps := [first] + rest;
  }

  lemma DeployThen(w: World, s: Step, rest: seq<Step>)
    requires s.Trigger? && Legal(w, s) && PatientRun(Perform(w, s), rest)
    ensures AfterDeploy(w, s.env.docker, [s] + rest) && Play(w, [s] + rest) == Play(Perform(w, s), rest)
  {
    assert ([s] + rest)[1..] == rest;
  }

  /** The patience asked of a deploy is exact, whatever Docker does. */
  lemma ClearIsExactForEvents(w: World, d: Docker, b: string, c: string)
    requires Safe(w) && Consistent(w) && Accounted(w) && NewId(w, b) && NewId(w, c) && b != c
    ensures Clear(w, d) <==> forall steps :: AfterDeploy(w, d, steps) ==> OutcomesOnce(Play(w, steps))
  {
    if Clear(w, d) {
      forall steps | AfterDeploy(w, d, steps)
        ensures OutcomesOnce(Play(w, steps))
      {
        RunAccounts(w, steps);
      }
    } else if d.Silent? && Busy(w) {
      var _ := SilentDeployTellsTwice(w, b);
    } else {
      var n :| Lingering(w, n) && !Ready(w, d).lock;
      var _ := LingeringDeployTellsTwice(w, d, n, b, c);
    }
  }

  /** A spawn that fails is told at once and again by the next poll. */
  lemma FailedSpawnTellsTwice(w: World, id: string, spawn: Spawn)
    requires NewId(w, id) && !Reclaim(w, Answering).0.lock && spawn != Spawns
    ensures var w' := Perform(w, Trigger(id, SMOOTH.(spawn := spawn)));
      w'.spawned == w.spawned && Ended(Publish(w').events, id) == Ended(w.events, id) + 2
  {
    var w' := Perform(w, Trigger(id, SMOOTH.(spawn := spawn)));
    FailedSpawn(w, id, spawn);
    assert Publish(w').events == w'.events + [FailedEvent(id)];
    EndedNext(w.events, FailedEvent(id), id);
    EndedNext(w.events + [FailedEvent(id)], FailedEvent(id), id);
  }

  lemma FailedSpawn(w: World, id: string, spawn: Spawn)
    requires !Reclaim(w, Answering).0.lock && spawn != Spawns
    ensures var w' := Perform(w, Trigger(id, SMOOTH.(spawn := spawn)));
      && w'.spawned == w.spawned && w'.events == w.events + [FailedEvent(id)] && !w'.lock
      && w'.state == Stored(State(id, Failed, false))
  {
  }

  /** A job in `Recovery` is told once as such and once more when its lock is reclaimed. */
  lemma RecoveryTellsTwice(w: World, job: string, d: Docker)
    requires w.lock && w.state == Stored(State(job, Recovery, false)) && job != ""
    requires !d.Absent? && !Seen(w, d, SidekickName(job))
    ensures Ended(Publish(Reclaim(Publish(w), d).0).events, job) == Ended(w.events, job) + 2
  {
    EndedNext(w.events, FailedEvent(job), job);
    EndedNext(w.events + [FailedEvent(job)], FailedEvent(job), job);
  }
}
