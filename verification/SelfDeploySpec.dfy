/** The self-deploy protocol as a step system: what the primary and its sidekick do to the
    files and containers they share. */
module SelfDeploySpec {
  import opened Wrappers

  // ---------- the shared state ----------

  datatype Phase = Pending | Stopping | Pulling | Starting | HealthCheck | Recovery | Success | Failed | RolledBack

  /** `isInProgressPhase` */
  predicate InProgress(p: Phase) {
    p in {Pending, Stopping, Pulling, Starting, HealthCheck, Recovery}
  }

  /** The phases that `publishTerminalEvent` reports. `Recovery` is in both lists. */
  predicate Terminal(p: Phase) {
    p in {Success, Failed, RolledBack, Recovery}
  }

  /** The phases of a sidekick whose pipeline is still going. */
  predicate Early(p: Phase) { InProgress(p) && !Terminal(p) }

  /** The order in which `runDeploy` sets the phases. */
  function NextPhase(p: Phase): Phase {
    match p
    case Pending => Stopping
    case Stopping => Pulling
    case Pulling => Starting
    case Starting => HealthCheck
    case _ => p
  }

  /** How `runDeploy` can end, by the phase it had reached: failing outright is for the steps
      before the image pull, success for the last one. */
  predicate CanEnd(at: Phase, end: Phase) {
    match end
    case Failed => at in {Pending, Stopping}
    case Success => at == HealthCheck
    case RolledBack => at in {Pulling, Starting, HealthCheck}
    case Recovery => at in {Pulling, Starting, HealthCheck}
    case _ => false
  }

  datatype State = State(job: string, phase: Phase, published: bool)

  /** `state.json` */
  datatype StateFile = Missing | Unreadable | Stored(st: State)

  /** A sidekick container. `mem` is the state the process holds and writes to `state.json`
      now and again; `dropped` tells that it has removed the lock. */
  datatype Sidekick = Booting | Working(mem: State) | Finished(mem: State, dropped: bool) | Stopped

  datatype Event = Started(job: string) | Succeeded(job: string) | FailedEvent(job: string) | ResetEvent(job: string)

  /** `lock`, `job` and `state` are the files; `used`, `spawned` and `recovered` record the past. */
  datatype World = World(
    lock: bool,
    job: Option<string>,
    state: StateFile,
    containers: map<string, Sidekick>,
    watchdogs: set<string>,
    events: seq<Event>,
    used: set<string>,
    spawned: set<string>,
    recovered: set<string>)

  const FRESH := World(false, None, Missing, map[], {}, [], {}, {}, {})

  /** `sidekickContainerName` */
  function SidekickName(job: string): string {
    "swirl-deploy-agent-" + if |job| > 8 then job[..8] else job
  }

  predicate Running(w: World, name: string) {
    name in w.containers && !w.containers[name].Stopped?
  }

  /** What a call to Docker comes to: there is no client, or there is one (making it contacts nobody)
      whose daemon does or does not answer. */
  datatype Docker = Absent | Silent | Answering

  /** An inspection that finds the container running; one that fails finds nothing. */
  predicate Seen(w: World, d: Docker, name: string) {
    d.Answering? && Running(w, name)
  }

  predicate Unfinished(w: World, name: string) {
    Running(w, name) && !w.containers[name].Finished?
  }

  /** A sidekick that has written its result and has not exited yet. */
  predicate Lingering(w: World, name: string) {
    Running(w, name) && w.containers[name].Finished?
  }

  // ---------- the primary ----------

  function Fail(w: World, job: string): World {
    w.(state := Stored(State(job, Failed, false)))
  }

  /** `reclaimStaleLock`: without a client it spares the lock, without an answer it does not. */
  function Reclaim(w: World, d: Docker): (World, bool) {
    if !w.lock then (w, false)
    else if !w.state.Stored? || !InProgress(w.state.st.phase) then (w.(lock := false), true)
    else
      var job := w.state.st.job;
      if job == "" || d.Absent? || Seen(w, d, SidekickName(job)) then (w, false)
      else (Fail(w, job).(lock := false), true)
  }

  function Cleanup(w: World): World {
    w.(containers := map n | n in w.containers && !w.containers[n].Stopped? :: w.containers[n])
  }

  /** `cleanupExitedSidekicks` */
  function Swept(w: World, d: Docker): World {
    if d.Answering? then Cleanup(w) else w
  }

  /** What the surroundings do to a `TriggerDeploy`: how Docker takes the inspection and the sweep,
      whether the three files can be written, how the spawn goes. */
  datatype Spawn = Spawns | CannotCreate | CannotStart
  datatype Env = Env(docker: Docker, locks: bool, jobWritten: bool, stateWritten: bool, again: Docker, spawn: Spawn)

  const SMOOTH := Env(Answering, true, true, true, Answering, Spawns)

  /** The states a `TriggerDeploy` passes through once it holds the lock, in order. */
  function Spawning(w: World, id: string, env: Env): seq<World> {
    var locked := w.(lock := true);
    if !env.jobWritten then [locked, w]
    else
      var described := locked.(job := Some(id));
      if !env.stateWritten then [locked, described, described.(lock := false)]
      else
        var pending := described.(state := Stored(State(id, Pending, false)));
        if env.again.Absent? then [locked, described, pending, pending.(lock := false)]
        else [locked, described, pending] + Launching(Swept(pending, env.again), id, env.spawn)
  }

  function Launching(w: World, id: string, spawn: Spawn): seq<World> {
    var name := SidekickName(id);
    var created := w.(containers := w.containers[name := Stopped]);
    match spawn
    case CannotCreate => [w] + SpawnFailed(w, id)
    case CannotStart =>
      var removed := w.(containers := w.containers - {name});
      [w, created, removed] + SpawnFailed(removed, id)
    case Spawns =>
      var started := w.(containers := w.containers[name := Booting], spawned := w.spawned + {id});
      var watched := started.(watchdogs := started.watchdogs + {id});
      [w, created, started, watched, watched.(events := watched.events + [Started(id)])]
  }

  function SpawnFailed(w: World, id: string): seq<World> {
    var failed := Fail(w, id);
    var told := failed.(events := failed.events + [FailedEvent(id)]);
    [failed, told, told.(lock := false)]
  }

  /** What a `TriggerDeploy` finds when it reaches for the lock: without a client it reclaims nothing. */
  function Ready(w: World, d: Docker): World {
    if d.Absent? then w else Reclaim(w, d).0
  }

  /** All the states of a `TriggerDeploy`; the last one is where it returns. */
  function Stages(w: World, id: string, env: Env): (s: seq<World>)
    ensures |s| > 0
  {
    var ready := Ready(w, env.docker).(used := w.used + {id});
    if ready.lock || !env.locks then [ready] else [ready] + Spawning(ready, id, env)
  }

  /** The primary goes down; its watchdogs go with it. */
  function Crash(w: World): World { w.(watchdogs := {}) }

  /** `watchSidekickBoot`, after the timeout. */
  function Watch(w: World, id: string, d: Docker): World {
    var done := w.(watchdogs := w.watchdogs - {id});
    if id !in w.watchdogs || !w.state.Stored? || w.state.st.job != id || w.state.st.phase != Pending then done
    else if Seen(w, d, SidekickName(id)) then done
    else Fail(done, id).(lock := false)
  }

  /** `publishTerminalEvent` */
  function Publish(w: World): World {
    if !w.state.Stored? || w.state.st.published || !Terminal(w.state.st.phase) then w
    else
      var st := w.state.st;
      w.(events := w.events + [if st.phase == Success then Succeeded(st.job) else FailedEvent(st.job)],
         state := Stored(st.(published := true)))
  }

  /** What `Status` shows as `CanReset`: it asks for the sidekick of `state.json`. */
  predicate CanReset(w: World, d: Docker) {
    && w.state.Stored? && w.state.st.job != "" && InProgress(w.state.st.phase)
    && !Seen(w, d, SidekickName(w.state.st.job))
  }

  /** `ResetLock` turns down a request while it sees the sidekick of `job.json` run. */
  predicate ResetRefused(w: World, d: Docker) {
    w.job.Some? && w.job.value != "" && Seen(w, d, SidekickName(w.job.value))
  }

  /** `ResetLock`, with what Docker does in its two inspections. */
  function Reset(w: World, d: Docker, again: Docker): World {
    if ResetRefused(w, d) then w
    else
      var r := Reclaim(w, again).0;
      r.(events := r.events + [ResetEvent(if r.job.Some? then r.job.value else "")])
  }

  /** The boot hook of a new primary: the inspection, then the sweep. */
  function Restart(w: World, d: Docker, again: Docker): World {
    Swept(Reclaim(Crash(w), d).0, again)
  }

  // ---------- the sidekick ----------

  function Become(w: World, name: string, c: Sidekick): World {
    w.(containers := w.containers[name := c])
  }

  /** The sidekick reads `job.json` and writes its first state, or gives up. */
  function Boot(w: World, name: string): World {
    if name !in w.containers || !w.containers[name].Booting? then w
    else if w.job.None? || w.job.value == "" then Become(w, name, Stopped)
    else
      var st := State(w.job.value, Pending, false);
      Become(w, name, Working(st)).(state := Stored(st))
  }

  /** The next phase, in memory only. */
  function Advance(w: World, name: string): World {
    if name !in w.containers || !w.containers[name].Working? then w
    else
      var mem := w.containers[name].mem;
      Become(w, name, Working(mem.(phase := NextPhase(mem.phase))))
  }

  /** The state in memory reaches `state.json`. */
  function Flush(w: World, name: string): World {
    if name !in w.containers || w.containers[name].Booting? || w.containers[name].Stopped? then w
    else w.(state := Stored(w.containers[name].mem))
  }

  /** The pipeline ends and says so at once. */
  function End(w: World, name: string, end: Phase): World {
    if name !in w.containers || !w.containers[name].Working? || !CanEnd(w.containers[name].mem.phase, end) then w
    else
      var mem := w.containers[name].mem.(phase := end);
      Become(w, name, Finished(mem, false))
        .(state := Stored(mem), recovered := if end == Recovery then w.recovered + {mem.job} else w.recovered)
  }

  /** `os.Remove(lockPath)`, whoever holds it. */
  function Unlock(w: World, name: string): World {
    if name !in w.containers || !w.containers[name].Finished? || w.containers[name].dropped then w
    else Become(w, name, w.containers[name].(dropped := true)).(lock := false)
  }

  /** The process exits or is killed. */
  function Halt(w: World, name: string): World {
    if name !in w.containers then w else Become(w, name, Stopped)
  }

  // ---------- runs ----------

  datatype Step =
    | Trigger(id: string, env: Env)
    | TriggerCrashes(id: string, env: Env, at: nat)
    | WatchStep(id: string, docker: Docker)
    | PollStep
    | ResetStep(docker: Docker, again: Docker)
    | RestartStep(docker: Docker, again: Docker)
    | BootStep(name: string)
    | AdvanceStep(name: string)
    | FlushStep(name: string)
    | EndStep(name: string, end: Phase)
    | UnlockStep(name: string)
    | HaltStep(name: string)

  function Last(s: seq<World>): World
    requires |s| > 0
  {
    s[|s| - 1]
  }

  function Perform(w: World, s: Step): World {
    match s
    case Trigger(id, env) => Last(Stages(w, id, env))
    case TriggerCrashes(id, env, at) =>
      var stages := Stages(w, id, env);
      Crash(if at < |stages| then stages[at] else Last(stages))
    case WatchStep(id, d) => Watch(w, id, d)
    case PollStep => Publish(w)
    case ResetStep(d, again) => Reset(w, d, again)
    case RestartStep(d, again) => Restart(w, d, again)
    case BootStep(name) => Boot(w, name)
    case AdvanceStep(name) => Advance(w, name)
    case FlushStep(name) => Flush(w, name)
    case EndStep(name, end) => End(w, name, end)
    case UnlockStep(name) => Unlock(w, name)
    case HaltStep(name) => Halt(w, name)
  }

  function Play(w: World, steps: seq<Step>): World
    decreases |steps|
  {
    if steps == [] then w else Play(Perform(w, steps[0]), steps[1..])
  }

  /** `createId` makes eight-character ids; a new one is one not made before. */
  predicate NewId(w: World, id: string) { |id| == 8 && id !in w.used }

  /** New jobs have new ids, and a reset has one client for both its inspections. */
  predicate Legal(w: World, s: Step) {
    match s
    case ResetStep(d, again) => d.Absent? == again.Absent?
    case Trigger(id, _) => NewId(w, id)
    case TriggerCrashes(id, _, _) => NewId(w, id)
    case _ => true
  }
}
