/** Mutual exclusion and recoverability of self-deploys, over whole runs. */
module SelfDeployLaws {
  import opened Wrappers
  import opened SelfDeploySpec

  // ---------- mutual exclusion ----------

  /** What a running sidekick can count on. */
  predicate Kept(w: World, name: string)
    requires name in w.containers
  {
    && w.state.Stored? && SidekickName(w.state.st.job) == name && w.job == Some(w.state.st.job)
    && |w.state.st.job| == 8 && w.state.st.job in w.used
    && match w.containers[name]
       case Booting => w.lock && w.state.st.phase == Pending
       case Working(mem) => w.lock && mem.job == w.state.st.job && Early(mem.phase) && Early(w.state.st.phase)
       case Finished(mem, _) => mem.job == w.state.st.job && Terminal(mem.phase) && Terminal(w.state.st.phase)
       case Stopped => true
  }

  ghost predicate Safe(w: World) {
    forall n :: Running(w, n) ==> Kept(w, n)
  }

  ghost predicate Idle(w: World) { forall n :: !Running(w, n) }

  ghost predicate Busy(w: World) { exists n :: Unfinished(w, n) }

  /** A deploy is clear to start if it will be turned down by the lock wherever a sidekick is between
      its result and its exit, and does not ask a silent daemon about a sidekick at work. */
  ghost predicate Clear(w: World, d: Docker) {
    && !(d.Silent? && Busy(w))
    && forall n :: Lingering(w, n) ==> Ready(w, d).lock
  }

  /** `state.json` is what makes the watchdog of `id` act. */
  predicate Waiting(w: World, id: string) {
    id in w.watchdogs && w.state.Stored? && w.state.st.job == id && w.state.st.phase == Pending
  }

  /** Deploys start when `Clear`; no inspection that decides over a sidekick at work goes unanswered. */
  ghost predicate Careful(w: World, s: Step) {
    match s
    case Trigger(_, env) => Clear(w, env.docker)
    case TriggerCrashes(_, env, _) => Clear(w, env.docker)
    case WatchStep(id, d) => d.Answering? || !(Waiting(w, id) && Unfinished(w, SidekickName(id)))
    case ResetStep(d, again) => !(d.Silent? && again.Silent? && Busy(w))
    case RestartStep(d, _) => !(d.Silent? && Busy(w))
    case _ => true
  }

  ghost predicate CarefulRun(w: World, steps: seq<Step>)
    decreases |steps|
  {
    steps == [] ||
    (Legal(w, steps[0]) && Careful(w, steps[0]) && CarefulRun(Perform(w, steps[0]), steps[1..]))
  }

  /** At most one sidekick is unfinished; while one is, the lock stands and `state.json` names
      its job in a phase that is in progress. */
  ghost predicate Exclusive(w: World) {
    && (forall m, n :: Unfinished(w, m) && Unfinished(w, n) ==> m == n)
    && (forall n :: Unfinished(w, n) ==>
      && w.lock && w.state.Stored? && InProgress(w.state.st.phase)
      && SidekickName(w.state.st.job) == n)
  }

  lemma SafeIsExclusive(w: World)
    requires Safe(w)
    ensures Exclusive(w)
  {
    assert forall n :: Unfinished(w, n) ==> Running(w, n);
  }

  /** Two sidekicks at work at the same time. */
  ghost predicate Overlap(w: World) {
    exists m, n :: m != n && Unfinished(w, m) && Unfinished(w, n)
  }

  /** A clear state turns down the deploy or has no running sidekick at all. */
  lemma ClearIsIdleOrHeld(w: World, d: Docker)
    requires Safe(w) && Clear(w, d) && !Idle(w)
    ensures w.lock && Ready(w, d) == w
  {
    var n :| Running(w, n);
    assert Kept(w, n);
    if w.containers[n].Finished? {
      assert Lingering(w, n);
    } else {
      assert Unfinished(w, n);
    }
  }

  lemma SpawningIsSafe(w: World, id: string, env: Env)
    requires Idle(w) && |id| == 8 && id in w.used
    ensures forall k :: 0 <= k < |Spawning(w, id, env)| ==> Safe(Spawning(w, id, env)[k])
  {
    assert forall v: World, n: string :: v.containers == w.containers ==> Running(v, n) == Running(w, n);
    if env.jobWritten && env.stateWritten && !env.again.Absent? {
      var pending := w.(lock := true, job := Some(id), state := Stored(State(id, Pending, false)));
      var swept := Swept(pending, env.again);
      assert forall n :: Running(swept, n) ==> Running(w, n);
      LaunchingIsSafe(swept, id, env.spawn);
    }
  }

  lemma LaunchingIsSafe(w: World, id: string, spawn: Spawn)
    requires |id| == 8 && id in w.used
    requires Idle(w) && w.lock && w.job == Some(id) && w.state == Stored(State(id, Pending, false))
    ensures forall k :: 0 <= k < |Launching(w, id, spawn)| ==> Safe(Launching(w, id, spawn)[k])
  {
    forall k | 0 <= k < |Launching(w, id, spawn)|
      ensures Safe(Launching(w, id, spawn)[k])
    {
      OnlyOwnSidekick(w, id, spawn, k);
      OwnSidekickIsSafe(Launching(w, id, spawn)[k], id);
    }
  }

  /** While a deploy runs, no sidekick but its own can be up, and that one finds all it needs. */
  ghost predicate OwnSidekick(v: World, id: string) {
    forall n :: Running(v, n) ==>
      && n == SidekickName(id) && v.containers[n] == Booting
      && v.lock && v.job == Some(id) && v.state == Stored(State(id, Pending, false))
  }

  lemma OnlyOwnSidekick(w: World, id: string, spawn: Spawn, k: nat)
    requires Idle(w) && w.lock && w.job == Some(id) && w.state == Stored(State(id, Pending, false))
    requires k < |Launching(w, id, spawn)|
    ensures OwnSidekick(Launching(w, id, spawn)[k], id) && Launching(w, id, spawn)[k].used == w.used
  {
    var v := Launching(w, id, spawn)[k];
    forall n | Running(v, n)
      ensures n == SidekickName(id) && v.containers[n] == Booting
      ensures v.lock && v.job == Some(id) && v.state == Stored(State(id, Pending, false))
    {
      assert !Running(w, n);
    }
  }

  lemma OwnSidekickIsSafe(v: World, id: string)
    requires OwnSidekick(v, id) && |id| == 8 && id in v.used
    ensures Safe(v)
  {
    forall n | Running(v, n)
      ensures Kept(v, n)
    {
    }
  }

  lemma CrashIsSafe(v: World)
    requires Safe(v)
    ensures Safe(Crash(v))
  {
    forall n | Running(Crash(v), n)
      ensures Kept(Crash(v), n)
    {
      assert Running(v, n) && Kept(v, n);
    }
  }

  lemma TriggerIsSafe(w: World, id: string, env: Env)
    requires Safe(w) && Clear(w, env.docker) && NewId(w, id)
    ensures forall k :: 0 <= k < |Stages(w, id, env)| ==> Safe(Stages(w, id, env)[k])
  {
    var ready := Ready(w, env.docker).(used := w.used + {id});
    assert forall n :: Running(ready, n) == Running(w, n);
    if Idle(w) {
      SpawningIsSafe(ready, id, env);
    } else {
      ClearIsIdleOrHeld(w, env.docker);
      assert forall n :: Running(w, n) ==> Kept(w, n) == Kept(ready, n);
    }
  }

  lemma PrimaryIsSafe(w: World, s: Step)
    requires Safe(w) && Legal(w, s) && Careful(w, s)
    requires s.WatchStep? || s.PollStep? || s.ResetStep? || s.RestartStep?
    ensures Safe(Perform(w, s))
  {
    var w' := Perform(w, s);
    forall n | Running(w', n)
      ensures Kept(w', n)
    {
      assert Running(w, n) && Kept(w, n);
      assert Unfinished(w, n) ==> Busy(w);
    }
  }

  lemma SidekickIsSafe(w: World, s: Step)
    requires Safe(w)
    requires s.BootStep? || s.AdvanceStep? || s.FlushStep? || s.EndStep? || s.UnlockStep? || s.HaltStep?
    ensures Safe(Perform(w, s))
  {
    var w' := Perform(w, s);
    forall n | Running(w', n)
      ensures Kept(w', n)
    {
      assert Running(w, n) && Kept(w, n);
      if Running(w, s.name) { assert Kept(w, s.name); }
    }
  }

  lemma StepIsSafe(w: World, s: Step)
    requires Safe(w) && Legal(w, s) && Careful(w, s)
    ensures Safe(Perform(w, s))
  {
    match s
    case Trigger(id, env) => TriggerIsSafe(w, id, env);
    case TriggerCrashes(id, env, at) =>
      TriggerIsSafe(w, id, env);
      var stages := Stages(w, id, env);
      CrashIsSafe(if at < |stages| then stages[at] else Last(stages));
    case WatchStep(_, _) => PrimaryIsSafe(w, s);
    case PollStep => PrimaryIsSafe(w, s);
    case ResetStep(_, _) => PrimaryIsSafe(w, s);
    case RestartStep(_, _) => PrimaryIsSafe(w, s);
    case _ => SidekickIsSafe(w, s);
  }

  lemma {:induction false} RunIsSafe(w: World, steps: seq<Step>)
    requires Safe(w) && CarefulRun(w, steps)
    ensures Safe(Play(w, steps)) && Exclusive(Play(w, steps))
    decreases |steps|
  {
    if steps == [] {
      SafeIsExclusive(w);
    } else {
      StepIsSafe(w, steps[0]);
      RunIsSafe(Perform(w, steps[0]), steps[1..]);
    }
  }

  lemma FreshIsSafe()
    ensures Safe(FRESH)
  {
  }

  /** Mutual exclusion, in every state of every careful run. */
  lemma MutualExclusion(steps: seq<Step>)
    requires CarefulRun(FRESH, steps)
    ensures Safe(Play(FRESH, steps)) && Exclusive(Play(FRESH, steps))
  {
    FreshIsSafe();
    RunIsSafe(FRESH, steps);
  }

  // ---------- where exclusion ends ----------

  lemma NamesDiffer(a: string, b: string)
    requires |a| <= 8 && |b| <= 8
    ensures SidekickName(a) == SidekickName(b) <==> a == b
    ensures SidekickName(a) == "swirl-deploy-agent-" + a
  {
    assert SidekickName(a)[|"swirl-deploy-agent-"|..] == a;
    assert SidekickName(b)[|"swirl-deploy-agent-"|..] == b;
  }

  /** The care asked of every step but a deploy is exact: without it exclusion is lost on the spot. */
  lemma CareIsExact(w: World, s: Step)
    requires Safe(w) && Legal(w, s) && !s.Trigger? && !s.TriggerCrashes?
    ensures Careful(w, s) <==> Exclusive(Perform(w, s))
  {
    if Careful(w, s) {
      StepIsSafe(w, s);
      SafeIsExclusive(Perform(w, s));
    } else {
      var n :| Unfinished(w, n) && (s.WatchStep? ==> n == SidekickName(s.id));
      assert Kept(w, n);
      assert Unfinished(Perform(w, s), n);
    }
  }

  /** Whatever inner step a deploy has reached: once its sidekick is there, the lock is held and both
      files name its job; and no file names it before the lock is taken. */
  lemma SidekickComesLast(w: World, id: string, env: Env, k: nat)
    requires NewId(w, id) && id !in w.spawned && k < |Stages(w, id, env)|
    requires w.job != Some(id) && !(w.state.Stored? && w.state.st.job == id)
    ensures var v := Stages(w, id, env)[k];
      && (id in v.spawned ==> v.lock && v.job == Some(id) && v.state == Stored(State(id, Pending, false)))
      && (k == 0 ==> v.job == w.job && !(v.state.Stored? && v.state.st.job == id))
      && (k == 1 ==> v.lock && v.job == w.job)
      && (v.state.Stored? && v.state.st.job == id ==> v.job == Some(id))
  {
    var ready := Ready(w, env.docker).(used := w.used + {id});
    if !ready.lock && env.locks && k > 0 {
      assert Stages(w, id, env)[k] == Spawning(ready, id, env)[k - 1];
      SpawningIsOrdered(ready, id, env, k - 1);
    }
  }

  lemma SpawningIsOrdered(w: World, id: string, env: Env, k: nat)
    requires id !in w.spawned && k < |Spawning(w, id, env)|
    requires w.job != Some(id) && !(w.state.Stored? && w.state.st.job == id)
    ensures var v := Spawning(w, id, env)[k];
      && (id in v.spawned ==> v.lock && v.job == Some(id) && v.state == Stored(State(id, Pending, false)))
      && (k == 0 ==> v.lock && v.job == w.job)
      && (v.state.Stored? && v.state.st.job == id ==> v.job == Some(id))
  {
    var pending := w.(lock := true, job := Some(id), state := Stored(State(id, Pending, false)));
    if env.jobWritten && env.stateWritten && !env.again.Absent? && k >= 3 {
      var swept := Swept(pending, env.again);
      assert Spawning(w, id, env)[k] == Launching(swept, id, env.spawn)[k - 3];
      LaunchingIsOrdered(swept, id, env.spawn, k - 3);
    }
  }

  lemma LaunchingIsOrdered(w: World, id: string, spawn: Spawn, k: nat)
    requires id !in w.spawned && k < |Launching(w, id, spawn)|
    requires w.lock && w.job == Some(id) && w.state == Stored(State(id, Pending, false))
    ensures var v := Launching(w, id, spawn)[k];
      v.job == Some(id) && (id in v.spawned ==> v.lock && v.state == Stored(State(id, Pending, false)))
  {
  }

  /** A smooth deploy that gets the lock starts its sidekick. */
  lemma TriggerSpawns(w: World, id: string, d: Docker)
    ensures var ready, w' := Ready(w, d), Perform(w, Trigger(id, SMOOTH.(docker := d)));
      w'.used == w.used + {id} && w'.recovered == w.recovered &&
      if ready.lock then w' == ready.(used := w.used + {id})
      else
        && w'.containers == Cleanup(ready).containers[SidekickName(id) := Booting]
        && w'.lock && w'.state == Stored(State(id, Pending, false)) && w'.job == Some(id)
  {
  }

  /** The sidekick of an earlier job finishes as it would anyway; then one more deploy starts. */
  function Overtake(name: string, b: string, c: string, d: Docker): seq<Step> {
    [Trigger(b, SMOOTH.(docker := d))] + Overtaking(name, c)
  }

  function Overtaking(name: string, c: string): seq<Step> {
    [UnlockStep(name)] + ([FlushStep(name)] + ([HaltStep(name)] + ([Trigger(c, SMOOTH)] + [])))
  }

  function Leave(w: World, name: string): World {
    Halt(Flush(Unlock(w, name), name), name)
  }

  /** The sidekick of an earlier job takes away the lock of the job under way. */
  lemma LockIsLost(w: World, name: string, running: string)
    requires Lingering(w, name) && Terminal(w.containers[name].mem.phase)
    requires |w.containers[name].mem.job| == 8 && SidekickName(w.containers[name].mem.job) == name
    requires Unfinished(w, running) && running != name
    requires forall n :: Lingering(w, n) ==> n == name
    ensures var w' := Leave(w, name);
      && Clear(w', Answering) && !Reclaim(w', Answering).0.lock && w'.used == w.used
      && Unfinished(w', running) && Unfinished(Cleanup(Reclaim(w', Answering).0), running)
  {
    var w' := Leave(w, name);
    assert w'.containers == w.containers[name := Stopped];
    assert forall n :: Lingering(w', n) ==> Lingering(w, n);
  }

  /** Where a sidekick runs and the lock does not hold, a deploy starts a second one beside it. */
  lemma SecondStarts(w: World, name: string, b: string, d: Docker)
    requires Safe(w) && Running(w, name) && NewId(w, b) && !Ready(w, d).lock
    ensures var w1 := Perform(w, Trigger(b, SMOOTH.(docker := d)));
      && w1.used == w.used + {b} && Unfinished(w1, SidekickName(b)) && SidekickName(b) != name
      && name in w1.containers && w1.containers[name] == w.containers[name]
      && forall n :: Lingering(w1, n) ==> Lingering(w, n)
  {
    assert Kept(w, name);
    NamesDiffer(b, w.state.st.job);
    TriggerSpawns(w, b, d);
  }

  /** A deploy that asks a silent daemon about a sidekick at work starts another one. */
  lemma SilenceBreaksExclusion(w: World, b: string)
    requires Safe(w) && Busy(w) && NewId(w, b)
    ensures AfterTrigger(w, Silent, [Trigger(b, SMOOTH.(docker := Silent))] + [])
    ensures Overlap(Play(w, [Trigger(b, SMOOTH.(docker := Silent))] + []))
  {
    var n :| Unfinished(w, n);
    assert Kept(w, n);
    SecondStarts(w, n, b, Silent);
    OneStep(w, Trigger(b, SMOOTH.(docker := Silent)), []);
    assert Unfinished(Perform(w, Trigger(b, SMOOTH.(docker := Silent))), n);
  }

  /** A deploy beside a finished sidekick loses its lock to it, whatever care is taken later. */
  lemma LingeringBreaksExclusion(w: World, d: Docker, name: string, b: string, c: string)
    requires Safe(w) && Lingering(w, name) && !Ready(w, d).lock
    requires NewId(w, b) && NewId(w, c) && b != c
    ensures AfterTrigger(w, d, Overtake(name, b, c, d)) && Overlap(Play(w, Overtake(name, b, c, d)))
  {
    var first := Trigger(b, SMOOTH.(docker := d));
    var w1 := Perform(w, first);
    assert Kept(w, name);
    OnlyOneLingers(w, name);
    SecondStarts(w, name, b, d);
    LockIsLost(w1, name, SidekickName(b));
    ThirdStarts(Leave(w1, name), b, c);
    OvertakePlays(w1, name, c);
    OneStep(w, first, Overtaking(name, c));
  }

  lemma OnlyOneLingers(w: World, name: string)
    requires Safe(w) && Lingering(w, name)
    ensures forall n :: Lingering(w, n) ==> n == name
  {
    assert Kept(w, name);
    assert forall n :: Lingering(w, n) ==> Kept(w, n);
  }

  lemma ThirdStarts(w: World, b: string, c: string)
    requires |b| == 8 && |c| == 8 && b != c
    requires !Reclaim(w, Answering).0.lock && Unfinished(Cleanup(Reclaim(w, Answering).0), SidekickName(b))
    ensures Overlap(Perform(w, Trigger(c, SMOOTH)))
  {
    TriggerSpawns(w, c, Answering);
    NamesDiffer(b, c);
    var w' := Perform(w, Trigger(c, SMOOTH));
    assert Unfinished(w', SidekickName(b)) && Unfinished(w', SidekickName(c));
  }

  lemma OvertakePlays(w: World, name: string, c: string)
    ensures var w' := Leave(w, name);
      && Play(w, Overtaking(name, c)) == Perform(w', Trigger(c, SMOOTH))
      && (CarefulRun(w, Overtaking(name, c)) <==> NewId(w', c) && Clear(w', Answering))
  {
    OneStep(Leave(w, name), Trigger(c, SMOOTH), []);
    ThreeSteps(w, UnlockStep(name), FlushStep(name), HaltStep(name), [Trigger(c, SMOOTH)] + []);
  }

  lemma OneStep(w: World, s: Step, rest: seq<Step>)
    ensures ([s] + rest)[1..] == rest
    ensures Play(w, [s] + rest) == Play(Perform(w, s), rest)
    ensures LegalRun(w, [s] + rest) <==> Legal(w, s) && LegalRun(Perform(w, s), rest)
    ensures CarefulRun(w, [s] + rest) <==> Legal(w, s) && Careful(w, s) && CarefulRun(Perform(w, s), rest)
  {
    assert ([s] + rest)[1..] == rest;
  }

  lemma ThreeSteps(w: World, a: Step, b: Step, c: Step, rest: seq<Step>)
    ensures var w1 := Perform(w, a); var w2 := Perform(w1, b); var steps := [a] + ([b] + ([c] + rest));
      && Play(w, steps) == Play(Perform(w2, c), rest)
      && (LegalRun(w, steps) <==> Legal(w, a) && Legal(w1, b) && Legal(w2, c) && LegalRun(Perform(w2, c), rest))
      && (CarefulRun(w, steps) <==>
        && Legal(w, a) && Careful(w, a) && Legal(w1, b) && Careful(w1, b) && Legal(w2, c) && Careful(w2, c)
        && CarefulRun(Perform(w2, c), rest))
  {
    var w1 := Perform(w, a);
    OneStep(w, a, [b] + ([c] + rest));
    OneStep(w1, b, [c] + rest);
    OneStep(Perform(w1, b), c, rest);
  }

  /** A run that starts with a deploy, for which Docker behaves like that, and is careful from then on. */
  ghost predicate AfterTrigger(w: World, d: Docker, steps: seq<Step>) {
    && steps != [] && (steps[0].Trigger? || steps[0].TriggerCrashes?) && steps[0].env.docker == d
    && Legal(w, steps[0]) && CarefulRun(Perform(w, steps[0]), steps[1..])
  }

  /** The care asked of a deploy is exact, whatever Docker does: without it there is a run in which
      two sidekicks are at work together. */
  lemma ClearIsExact(w: World, d: Docker, b: string, c: string)
    requires Safe(w) && NewId(w, b) && NewId(w, c) && b != c
    ensures Clear(w, d) <==> forall steps :: AfterTrigger(w, d, steps) ==> Exclusive(Play(w, steps))
    ensures Clear(w, d) <==> forall steps :: AfterTrigger(w, d, steps) ==> !Overlap(Play(w, steps))
  {
    if Clear(w, d) {
      forall steps | AfterTrigger(w, d, steps)
        ensures Exclusive(Play(w, steps))
      {
        RunIsSafe(w, steps);
      }
    } else if d.Silent? && Busy(w) {
      SilenceBreaksExclusion(w, b);
    } else {
      var n :| Lingering(w, n) && !Ready(w, d).lock;
      LingeringBreaksExclusion(w, d, n, b, c);
    }
  }

  /** A watchdog that gets no answer gives up on a sidekick that is still booting. It keeps exclusion
      exactly when Docker answers or that sidekick is not at stake. */
  lemma BlindWatchdogBreaksExclusion(w: World, id: string, d: Docker)
    requires Safe(w)
    ensures Exclusive(Watch(w, id, d)) <==> d.Answering? || !(Waiting(w, id) && Unfinished(w, SidekickName(id)))
  {
    CareIsExact(w, WatchStep(id, d));
  }

  // ---------- recovering ----------

  /** One reclaim frees the lock, except where it sees the sidekick or has nobody to ask. */
  lemma ReclaimFrees(w: World, d: Docker)
    ensures !Reclaim(w, d).0.lock <==>
      !(w.lock && w.state.Stored? && InProgress(w.state.st.phase)
        && (w.state.st.job == "" || d.Absent? || (d.Answering? && Running(w, SidekickName(w.state.st.job)))))
    ensures Reclaim(w, d).1 <==> w.lock && !Reclaim(w, d).0.lock
    ensures !Reclaim(w, d).1 ==> Reclaim(w, d).0 == w
  {
  }

  predicate NamedState(f: StateFile) { f.Stored? ==> |f.st.job| == 8 }

  /** Every file and every sidekick names a job. */
  ghost predicate Named(w: World) {
    && NamedState(w.state) && (w.job.Some? ==> |w.job.value| == 8)
    && (forall id :: id in w.watchdogs ==> |id| == 8)
    && forall n :: n in w.containers ==> match w.containers[n]
       case Working(mem) => |mem.job| == 8
       case Finished(mem, _) => |mem.job| == 8
       case _ => true
  }

  lemma ReclaimIsNamed(w: World, d: Docker)
    requires Named(w)
    ensures Named(Reclaim(w, d).0)
  {
  }

  /** A sidekick that only starts or stops carries no state of its own. */
  lemma BareSidekickIsNamed(w: World, name: string, c: Sidekick)
    requires Named(w) && (c.Booting? || c.Stopped?)
    ensures Named(w.(containers := w.containers[name := c]))
    ensures Named(w.(containers := w.containers - {name}))
  {
  }

  lemma SpawnFailedIsNamed(w: World, id: string)
    requires Named(w) && |id| == 8
    ensures forall k :: 0 <= k < |SpawnFailed(w, id)| ==> Named(SpawnFailed(w, id)[k])
  {
    assert Named(Fail(w, id));
  }

  lemma LaunchingIsNamed(w: World, id: string, spawn: Spawn)
    requires Named(w) && |id| == 8
    ensures forall k :: 0 <= k < |Launching(w, id, spawn)| ==> Named(Launching(w, id, spawn)[k])
  {
    var name := SidekickName(id);
    BareSidekickIsNamed(w, name, Stopped);
    BareSidekickIsNamed(w, name, Booting);
    match spawn
    case CannotCreate => SpawnFailedIsNamed(w, id);
    case CannotStart => SpawnFailedIsNamed(w.(containers := w.containers - {name}), id);
    case Spawns =>
      var started := w.(containers := w.containers[name := Booting], spawned := w.spawned + {id});
      var watched := started.(watchdogs := started.watchdogs + {id});
      assert Named(started) && Named(watched) && Named(watched.(events := watched.events + [Started(id)]));
  }

  lemma SpawningIsNamed(w: World, id: string, env: Env)
    requires Named(w) && |id| == 8
    ensures forall k :: 0 <= k < |Spawning(w, id, env)| ==> Named(Spawning(w, id, env)[k])
  {
    if env.jobWritten && env.stateWritten && !env.again.Absent? {
      var pending := w.(lock := true, job := Some(id), state := Stored(State(id, Pending, false)));
      assert Named(pending);
      LaunchingIsNamed(Swept(pending, env.again), id, env.spawn);
    }
  }

  lemma TriggerIsNamed(w: World, id: string, env: Env)
    requires Named(w) && |id| == 8
    ensures forall k :: 0 <= k < |Stages(w, id, env)| ==> Named(Stages(w, id, env)[k])
  {
    ReclaimIsNamed(w, env.docker);
    var ready := Ready(w, env.docker).(used := w.used + {id});
    assert Named(ready);
    SpawningIsNamed(ready, id, env);
  }

  lemma StepIsNamed(w: World, s: Step)
    requires Named(w) && Legal(w, s)
    ensures Named(Perform(w, s))
  {
    match s
    case Trigger(id, env) => TriggerIsNamed(w, id, env);
    case TriggerCrashes(id, env, at) => TriggerIsNamed(w, id, env);
    case ResetStep(_, again) => ReclaimIsNamed(w, again);
    case RestartStep(d, _) => ReclaimIsNamed(Crash(w), d);
    case _ =>
  }

  ghost predicate LegalRun(w: World, steps: seq<Step>)
    decreases |steps|
  {
    steps == [] || (Legal(w, steps[0]) && LegalRun(Perform(w, steps[0]), steps[1..]))
  }

  lemma {:induction false} RunIsNamed(w: World, steps: seq<Step>)
    requires Named(w) && LegalRun(w, steps)
    ensures Named(Play(w, steps))
    decreases |steps|
  {
    if steps != [] {
      StepIsNamed(w, steps[0]);
      RunIsNamed(Perform(w, steps[0]), steps[1..]);
    }
  }

  /** From every state of every run, careful or not and whatever has crashed on the way: once the
      sidekick named in `state.json` is down, one reclaim frees the lock and the next deploy starts. */
  lemma Recoverable(steps: seq<Step>, next: string, d: Docker)
    requires LegalRun(FRESH, steps) && !d.Absent?
    requires var w := Play(FRESH, steps); w.state.Stored? ==> !Running(w, SidekickName(w.state.st.job))
    ensures var w := Play(FRESH, steps); var w' := Perform(w, Trigger(next, SMOOTH.(docker := d)));
      && !Reclaim(w, d).0.lock
      && w'.lock && w'.state == Stored(State(next, Pending, false)) && Unfinished(w', SidekickName(next))
  {
    RunIsNamed(FRESH, steps);
    ReclaimFrees(Play(FRESH, steps), d);
    TriggerSpawns(Play(FRESH, steps), next, d);
  }

  /** How a deploy can end, by how far it has come: outright failure before the pull, success after the
      health check, a rollback or a recovery in between or after; and the result is there at once. */
  lemma ResultsFitProgress(w: World, name: string, end: Phase)
    ensures var w' := End(w, name, end);
      if name in w.containers && w.containers[name].Working? && var at := w.containers[name].mem.phase;
           || (end == Failed && at in {Pending, Stopping})
           || (end == Success && at == HealthCheck)
           || (end in {RolledBack, Recovery} && at in {Pulling, Starting, HealthCheck})
      then
        && w'.state == Stored(State(w.containers[name].mem.job, end, w.containers[name].mem.published))
        && w'.lock == w.lock
      else w' == w
  {
  }

  // ---------- the offer to reset ----------

  /** A reset is offered exactly where a reclaim that has a client would declare the job failed, or would
      if there were a lock. */
  lemma OfferMatchesReclaim(w: World, d: Docker)
    ensures w.lock && Reclaim(w, d).0.state != w.state ==> CanReset(w, d)
    ensures CanReset(w, d) && !d.Absent? ==>
      var locked := w.(lock := true);
      && Reclaim(locked, d).0.state == Stored(State(w.state.st.job, Failed, false))
      && Reclaim(locked, d).0.state != w.state
  {
  }

  /** When an offered reset helps, whatever Docker does at the poll and at the two inspections of the
      reset: it takes away the offer if and only if the reset is let through, there is a lock, and
      Docker is there and does not show the sidekick by then. */
  lemma CanResetMeansReset(w: World, d: Docker, first: Docker, again: Docker)
    requires CanReset(w, d)
    ensures !CanReset(Reset(w, first, again), d) <==>
      w.lock && !ResetRefused(w, first) && !again.Absent? && !Seen(w, again, SidekickName(w.state.st.job))
    ensures !CanReset(Reset(w, first, again), d) ==> !Reset(w, first, again).lock
    ensures ResetRefused(w, first) ==> Reset(w, first, again) == w
  {
  }

  /** With a daemon that answers, the lock and the refusal are what is left of it. */
  lemma AnsweredResetHelps(w: World)
    requires CanReset(w, Answering)
    ensures !CanReset(Reset(w, Answering, Answering), Answering) <==> w.lock && !ResetRefused(w, Answering)
    ensures !ResetRefused(w, Answering) ==> !Reset(w, Answering, Answering).lock
  {
    CanResetMeansReset(w, Answering, Answering, Answering);
  }

  /** In careful runs an offered reset is not refused: both files speak of the same sidekick. */
  lemma CarefulResetIsNotRefused(steps: seq<Step>)
    requires CarefulRun(FRESH, steps) && CanReset(Play(FRESH, steps), Answering)
    ensures var w := Play(FRESH, steps);
      && !ResetRefused(w, Answering)
      && (!CanReset(Reset(w, Answering, Answering), Answering) <==> w.lock)
  {
    MutualExclusion(steps);
    AnsweredResetHelps(Play(FRESH, steps));
  }

  /** A deploy that ends in `Recovery` after the pull has begun. */
  function ToRecovery(id: string, rest: seq<Step>): seq<Step> {
    [Trigger(id, SMOOTH)] + ToPull(SidekickName(id), rest)
  }

  function ToPull(n: string, rest: seq<Step>): seq<Step> {
    [BootStep(n)] + ([AdvanceStep(n)] + ([AdvanceStep(n)] + ([EndStep(n, Recovery)] + ([UnlockStep(n)] + rest))))
  }

  /** It leaves `Recovery` in `state.json`, no lock, and its sidekick running. */
  lemma RecoveryIsReached(id: string, rest: seq<Step>)
    requires |id| == 8
    ensures var n, w := SidekickName(id), Play(FRESH, ToRecovery(id, []));
      && !w.lock && w.state == Stored(State(id, Recovery, false)) && w.used == {id}
      && w.containers == map[n := Finished(State(id, Recovery, false), true)]
      && Play(FRESH, ToRecovery(id, rest)) == Play(w, rest)
      && (LegalRun(FRESH, ToRecovery(id, rest)) <==> LegalRun(w, rest))
      && (CarefulRun(FRESH, ToRecovery(id, rest)) <==> CarefulRun(w, rest))
  {
    var n := SidekickName(id);
    TriggerSpawns(FRESH, id, Answering);
    var w1 := Perform(FRESH, Trigger(id, SMOOTH));
    assert w1.containers == map[n := Booting];
    PullIsReached(w1, id, rest);
    PullIsReached(w1, id, []);
    OneStep(FRESH, Trigger(id, SMOOTH), ToPull(n, rest));
    OneStep(FRESH, Trigger(id, SMOOTH), ToPull(n, []));
  }

  lemma PullIsReached(w: World, id: string, rest: seq<Step>)
    requires |id| == 8 && w.containers == map[SidekickName(id) := Booting] && w.job == Some(id)
    ensures var n, w' := SidekickName(id), Play(w, ToPull(SidekickName(id), []));
      && !w'.lock && w'.state == Stored(State(id, Recovery, false)) && w'.used == w.used
      && w'.containers == map[n := Finished(State(id, Recovery, false), true)]
      && Play(w, ToPull(n, rest)) == Play(w', rest)
      && (LegalRun(w, ToPull(n, rest)) <==> LegalRun(w', rest))
      && (CarefulRun(w, ToPull(n, rest)) <==> CarefulRun(w', rest))
  {
    PullIsPlayed(w, id, rest);
    PullIsPlayed(w, id, []);
  }

  lemma PullIsPlayed(w: World, id: string, rest: seq<Step>)
    requires |id| == 8 && w.containers == map[SidekickName(id) := Booting] && w.job == Some(id)
    ensures var n := SidekickName(id);
      var w' := Pulled(w, n);
      && !w'.lock && w'.state == Stored(State(id, Recovery, false)) && w'.used == w.used
      && w'.containers == map[n := Finished(State(id, Recovery, false), true)]
      && Play(w, ToPull(n, rest)) == Play(w', rest)
      && (LegalRun(w, ToPull(n, rest)) <==> LegalRun(w', rest))
      && (CarefulRun(w, ToPull(n, rest)) <==> CarefulRun(w', rest))
  {
    var n := SidekickName(id);
    PullEnds(Advance(Advance(Boot(w, n), n), n), id, rest);
    ThreeSteps(w, BootStep(n), AdvanceStep(n), AdvanceStep(n), [EndStep(n, Recovery)] + ([UnlockStep(n)] + rest));
  }

  function Pulled(w: World, n: string): World {
    Unlock(End(Advance(Advance(Boot(w, n), n), n), n, Recovery), n)
  }

  lemma PullEnds(w: World, id: string, rest: seq<Step>)
    requires w.containers == map[SidekickName(id) := Working(State(id, Pulling, false))]
    ensures var n := SidekickName(id);
      var w', steps := Unlock(End(w, n, Recovery), n), [EndStep(n, Recovery)] + ([UnlockStep(n)] + rest);
      && !w'.lock && w'.state == Stored(State(id, Recovery, false)) && w'.used == w.used
      && w'.containers == map[n := Finished(State(id, Recovery, false), true)]
      && Play(w, steps) == Play(w', rest)
      && (LegalRun(w, steps) <==> LegalRun(w', rest)) && (CarefulRun(w, steps) <==> CarefulRun(w', rest))
  {
    var n := SidekickName(id);
    OneStep(w, EndStep(n, Recovery), [UnlockStep(n)] + rest);
    OneStep(End(w, n, Recovery), UnlockStep(n), rest);
  }

  /** The flag can stay on with no lock behind it: a spawned job ends in `Recovery`, its sidekick
      gives up the lock and exits. */
  lemma ResetWithoutLock(id: string)
    requires |id| == 8
    ensures var w := Play(FRESH, ToRecovery(id, [HaltStep(SidekickName(id))] + []));
      && CarefulRun(FRESH, ToRecovery(id, [HaltStep(SidekickName(id))] + []))
      && !w.lock && CanReset(w, Answering) && CanReset(Reset(w, Answering, Answering), Answering)
  {
    var w := Play(FRESH, ToRecovery(id, []));
    RecoveryIsReached(id, [HaltStep(SidekickName(id))] + []);
    OneStep(w, HaltStep(SidekickName(id)), []);
  }

  /** The next deploy starts before that sidekick has gone, and the sidekick writes its state again. */
  function Overwritten(n: string, b: string): seq<Step> {
    [Trigger(b, SMOOTH)] + ([FlushStep(n)] + ([HaltStep(n)] + []))
  }

  /** A legal run after which a reset is offered for the one job and refused for the other, with the
      lock held. */
  lemma OfferedResetIsRefused(a: string, b: string)
    requires |a| == 8 && |b| == 8 && a != b
    ensures var steps := ToRecovery(a, Overwritten(SidekickName(a), b)); var w := Play(FRESH, steps);
      && LegalRun(FRESH, steps)
      && w.lock && CanReset(w, Answering) && ResetRefused(w, Answering) && Reset(w, Answering, Answering) == w
  {
    var n, w := SidekickName(a), Play(FRESH, ToRecovery(a, []));
    RecoveryIsReached(a, Overwritten(n, b));
    NamesDiffer(a, b);
    TriggerSpawns(w, b, Answering);
    ThreeSteps(w, Trigger(b, SMOOTH), FlushStep(n), HaltStep(n), []);
  }
}
