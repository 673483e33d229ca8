/** The primary's side of a self-deploy, step by step on the shared files and containers. */
module SelfDeploy {
  import opened Wrappers
  import opened SelfDeploySpec

  datatype Outcome = Done | Refused | CannotWrite | NoClient | SpawnError

  /** Locked, described and pending. */
  function Described(w: World, id: string): World {
    w.(lock := true, job := Some(id), state := Stored(State(id, Pending, false)))
  }

  /** How a `TriggerDeploy` returns: the first thing that goes wrong, if anything does. */
  function Verdict(w: World, env: Env): Outcome {
    if Ready(w, env.docker).lock then Refused
    else if !env.locks || !env.jobWritten || !env.stateWritten then CannotWrite
    else if env.again.Absent? then NoClient
    else if !env.spawn.Spawns? then SpawnError
    else Done
  }

  /** What a watchdog finds when its sidekick has not moved. */
  predicate GivenUp(f: StateFile, id: string) { f.Stored? && f.st.job == id && f.st.phase == Pending }

  /** Where a deploy ends, for every way it can return. */
  lemma LastStage(w: World, id: string, env: Env)
    ensures var w', outcome, name := Last(Stages(w, id, env)), Verdict(w, env), SidekickName(id);
      && (outcome == Done ==>
           && w'.lock && w'.job == Some(id) && w'.state == Stored(State(id, Pending, false))
           && w'.watchdogs == w.watchdogs + {id} && w'.events == w.events + [Started(id)]
           && name in w'.containers && w'.containers[name] == Booting)
      && (outcome == SpawnError ==>
           && !w'.lock && w'.job == Some(id) && w'.state == Stored(State(id, Failed, false))
           && w'.events == w.events + [FailedEvent(id)] && w'.watchdogs == w.watchdogs)
      && (outcome == NoClient ==> !w'.lock && w'.job == Some(id) && w'.state == Stored(State(id, Pending, false)))
      && (outcome == Refused ==> w'.lock && w'.job == w.job && w'.state == w.state)
      && (outcome == CannotWrite ==> !w'.lock)
      && (outcome in {NoClient, Refused, CannotWrite} ==>
           w'.events == w.events && w'.watchdogs == w.watchdogs && w'.containers == w.containers)
  {
  }

  lemma Regroup(a: seq<World>, b: seq<World>, c: seq<World>)
    ensures a + b + c == a + (b + c)
  {
  }

  class SelfDeployBiz {
    var lock: bool
    var job: Option<string>
    var state: StateFile
    var containers: map<string, Sidekick>
    var watchdogs: set<string>
    var events: seq<Event>
    ghost var used: set<string>
    ghost var spawned: set<string>
    ghost var recovered: set<string>
    ghost var trail: seq<World>

    ghost function View(): World
      reads this
    {
      World(lock, job, state, containers, watchdogs, events, used, spawned, recovered)
    }

    predicate IsRunning(name: string)
      reads this
      ensures IsRunning(name) == Running(View(), name)
    {
      name in containers && !containers[name].Stopped?
    }

    constructor ()
      ensures View() == FRESH
    {
      lock, job, state, containers, watchdogs, events := false, None, Missing, map[], {}, [];
      used, spawned, recovered := {}, {}, {};
    }

    /** `acquireSelfDeployLock`: `O_CREATE|O_EXCL`, where `opens` tells that a new file can be made. */
    method AcquireLock(opens: bool) returns (answer: Outcome)
      modifies `lock
      ensures answer == Done <==> !old(lock) && opens
      ensures answer == Refused <==> old(lock)
      ensures answer in {Done, Refused, CannotWrite} && lock == (old(lock) || opens)
    {
      if lock {
        return Refused;
      }
      if !opens {
        return CannotWrite;
      }
      lock := true;
      return Done;
    }

    /** An inspection of a container, answered or not. */
    predicate Inspect(d: Docker, name: string)
      reads this
      ensures Inspect(d, name) == Seen(View(), d, name)
    {
      d.Answering? && IsRunning(name)
    }

    method ReclaimStaleLock(docker: Docker) returns (reclaimed: bool)
      modifies `lock, `state
      ensures (View(), reclaimed) == Reclaim(old(View()), docker)
      ensures reclaimed == (old(lock) && !lock)
      ensures state == if reclaimed && old(state).Stored?
          && old(state).st.phase in {Pending, Stopping, Pulling, Starting, HealthCheck, Recovery}
        then Stored(State(old(state).st.job, Failed, false)) else old(state)
    {
      if !lock {
        return false;
      }
      match state
      case Unreadable =>
        lock := false;
        return true;
      case Missing =>
        lock := false;
        return true;
      case Stored(st) =>
        if !InProgress(st.phase) {
          lock := false;
          return true;
        }
        if st.job == "" || docker.Absent? {
          return false;
        }
        if Inspect(docker, SidekickName(st.job)) {
          return false;
        }
        state := Stored(State(st.job, Failed, false));
        lock := false;
        return true;
    }

    /** `cleanupExitedSidekicks`: every sidekick that does not run goes, one by one. */
    method CleanupExitedSidekicks(docker: Docker)
      modifies `containers
      ensures View() == Swept(old(View()), docker)
      ensures forall n :: n in containers <==>
        n in old(containers) && !(docker.Answering? && old(containers)[n].Stopped?)
      ensures forall n :: n in containers ==> containers[n] == old(containers)[n]
    {
      if !docker.Answering? {
        return;
      }
      var was := containers;
      var left := containers.Keys;
      while left != {}
        invariant left <= was.Keys
        invariant containers == map n | n in was && (n in left || !was[n].Stopped?) :: was[n]
      {
        var n :| n in left;
        left := left - {n};
        if containers[n].Stopped? {
          containers := containers - {n};
        }
      }
    }

    /** A state that a crash of the primary would leave behind. */
    ghost method Note()
      modifies `trail
      ensures trail == old(trail) + [View()]
    {
      trail := trail + [View()];
    }

    /** `spawnSidekick`: create, then start; a container that does not start is removed. */
    method SpawnSidekick(id: string, spawn: Spawn) returns (ok: bool)
      modifies `containers, `spawned, `trail
      ensures ok == spawn.Spawns?
      ensures var name, w := SidekickName(id), old(View());
        var created := w.(containers := w.containers[name := Stopped]);
        match spawn
        case CannotCreate => View() == w && trail == old(trail)
        case CannotStart =>
          && View() == w.(containers := w.containers - {name})
          && trail == old(trail) + [created, View()]
        case Spawns =>
          && View() == w.(containers := w.containers[name := Booting], spawned := w.spawned + {id})
          && trail == old(trail) + [created, View()]
    {
      var name := SidekickName(id);
      if spawn.CannotCreate? {
        return false;
      }
      containers := containers[name := Stopped];
      Note();
      if spawn.CannotStart? {
        containers := containers - {name};
        Note();
        return false;
      }
      containers := containers[name := Booting];
      spawned := spawned + {id};
      Note();
      return true;
    }

    /** The spawn has failed: say so in both places, then let go of the lock. */
    method GiveUp(id: string)
      modifies `state, `events, `lock, `trail
      ensures trail == old(trail) + SpawnFailed(old(View()), id) && View() == Last(SpawnFailed(old(View()), id))
    {
      state := Stored(State(id, Failed, false));
      Note();
      events := events + [FailedEvent(id)];
      Note();
      lock := false;
      Note();
    }

    /** The watchdog and the event of a sidekick that has been started. */
    method Announce(id: string)
      modifies `watchdogs, `events, `trail
      ensures var watched := old(View()).(watchdogs := old(watchdogs) + {id});
        var told := watched.(events := watched.events + [Started(id)]);
        View() == told && trail == old(trail) + [watched, told]
    {
      watchdogs := watchdogs + {id};
      Note();
      events := events + [Started(id)];
      Note();
    }

    /** What `TriggerDeploy` does once it holds the lock and both files are written. */
    method LaunchSidekick(id: string, docker: Docker, spawn: Spawn) returns (ok: bool)
      modifies this
      ensures ok == spawn.Spawns?
      ensures var stages := Launching(Swept(old(View()), docker), id, spawn);
        trail == old(trail) + stages && View() == Last(stages)
    {
      ghost var was, before := View(), trail;
      CleanupExitedSidekicks(docker);
      Note();
      ghost var noted := trail;
      ok := SpawnSidekick(id, spawn);
      ghost var spawned := trail[|noted|..];
      Regroup(before, [Swept(was, docker)], spawned);
      if !ok {
        ghost var w := View();
        GiveUp(id);
        Regroup(before, [Swept(was, docker)] + spawned, SpawnFailed(w, id));
      } else {
        Announce(id);
        assert trail == before + Launching(Swept(was, docker), id, spawn);
      }
    }

    /** `TriggerDeploy`, after `prepareJob`. Each state it goes through is on the trail. */
    method TriggerDeploy(id: string, env: Env) returns (outcome: Outcome)
      modifies this
      ensures var stages := Stages(old(View()), id, env);
        trail == old(trail) + stages && View() == Last(stages)
      ensures outcome == Verdict(old(View()), env)
      ensures outcome == Done ==> lock && job == Some(id) && state == Stored(State(id, Pending, false))
      ensures outcome == Done ==> watchdogs == old(watchdogs) + {id} && events == old(events) + [Started(id)]
      ensures outcome == Done ==> SidekickName(id) in containers && containers[SidekickName(id)] == Booting
      ensures outcome == SpawnError ==> !lock && job == Some(id) && state == Stored(State(id, Failed, false))
      ensures outcome == SpawnError ==> events == old(events) + [FailedEvent(id)] && watchdogs == old(watchdogs)
      ensures outcome == NoClient ==> !lock && job == Some(id) && state == Stored(State(id, Pending, false))
      ensures env.docker.Absent? ==> (outcome == Refused <==> old(lock))
      ensures !env.docker.Absent? ==> (outcome == Refused <==> Reclaim(old(View()), env.docker).0.lock)
      ensures outcome == Refused ==> lock && job == old(job) && state == old(state)
      ensures outcome == CannotWrite ==> !lock
      ensures outcome in {NoClient, Refused, CannotWrite} ==>
        events == old(events) && watchdogs == old(watchdogs) && containers == old(containers)
    {
      ghost var before := trail;
      LastStage(View(), id, env);
      if !env.docker.Absent? {
        var _ := ReclaimStaleLock(env.docker);
      }
      used := used + {id};
      Note();
      ghost var ready := View();
      var answer := AcquireLock(env.locks);
      if answer != Done {
        return answer;
      }
      outcome := DescribeAndLaunch(id, env, ready);
      Regroup(before, [ready], Spawning(ready, id, env));
    }

    /** The part of `TriggerDeploy` that holds the lock. */
    method DescribeAndLaunch(id: string, env: Env, ghost ready: World) returns (outcome: Outcome)
      requires View() == ready.(lock := true) && !ready.lock
      modifies this
      ensures trail == old(trail) + Spawning(ready, id, env) && View() == Last(Spawning(ready, id, env))
      ensures outcome == Verdict(ready, env.(docker := Absent, locks := true))
      ensures outcome == Done ==> lock && state == Stored(State(id, Pending, false)) && id in watchdogs
    {
      ghost var before := trail;
      outcome := Describe(id, env, ready);
      if outcome != Done {
        return;
      }
      var ok := LaunchSidekick(id, env.again, env.spawn);
      Regroup(before, [ready.(lock := true), ready.(lock := true, job := Some(id)), Described(ready, id)],
        Launching(Swept(Described(ready, id), env.again), id, env.spawn));
      return if ok then Done else SpawnError;
    }

    /** Both files are written and there is a client, or the lock is let go. */
    method Describe(id: string, env: Env, ghost ready: World) returns (outcome: Outcome)
      requires View() == ready.(lock := true) && !ready.lock
      modifies `lock, `job, `state, `trail
      ensures outcome == if !env.jobWritten || !env.stateWritten then CannotWrite
        else if env.again.Absent? then NoClient else Done
      ensures outcome == Done ==> View() == Described(ready, id)
      ensures outcome == Done ==>
        trail == old(trail) + [ready.(lock := true), ready.(lock := true, job := Some(id)), Described(ready, id)]
      ensures outcome != Done ==> trail == old(trail) + Spawning(ready, id, env)
      ensures outcome != Done ==> View() == Last(Spawning(ready, id, env))
    {
      Note();
      if !env.jobWritten {
        lock := false;
        Note();
        return CannotWrite;
      }
      job := Some(id);
      Note();
      if !env.stateWritten {
        lock := false;
        Note();
        return CannotWrite;
      }
      state := Stored(State(id, Pending, false));
      Note();
      if env.again.Absent? {
        lock := false;
        Note();
        return NoClient;
      }
      return Done;
    }

    /** `watchSidekickBoot`, once its time is up. */
    method WatchSidekickBoot(id: string, docker: Docker)
      requires id in watchdogs
      modifies `watchdogs, `state, `lock
      ensures View() == Watch(old(View()), id, docker)
      ensures watchdogs == old(watchdogs) - {id}
      ensures var gone := GivenUp(old(state), id) && !(docker.Answering? && Running(View(), SidekickName(id)));
        && lock == (old(lock) && !gone)
        && state == if gone then Stored(State(id, Failed, false)) else old(state)
    {
      watchdogs := watchdogs - {id};
      match state
      case Stored(st) =>
        if st.job != id || st.phase != Pending {
          return;
        }
        if Inspect(docker, SidekickName(id)) {
          return;
        }
        state := Stored(State(id, Failed, false));
        lock := false;
      case _ =>
    }

    method PublishTerminalEvent()
      modifies `events, `state
      ensures View() == Publish(old(View()))
      ensures var st := if old(state).Stored? then Some(old(state).st) else None;
        if st.Some? && !st.value.published && st.value.phase in {Success, Failed, RolledBack, Recovery} then
          && state == Stored(st.value.(published := true))
          && events == old(events) +
            [if st.value.phase == Success then Succeeded(st.value.job) else FailedEvent(st.value.job)]
        else state == old(state) && events == old(events)
    {
      match state
      case Stored(st) =>
        if st.published || !Terminal(st.phase) {
          return;
        }
        events := events + [if st.phase == Success then Succeeded(st.job) else FailedEvent(st.job)];
        state := Stored(st.(published := true));
      case _ =>
    }

    /** `Status`: publishes first, then reports. An unreadable file is an error. */
    method Status(docker: Docker) returns (ok: bool, phase: Option<Phase>, alive: bool, canReset: bool)
      modifies `events, `state
      ensures View() == Publish(old(View()))
      ensures ok == !old(state).Unreadable?
      ensures phase == if old(state).Stored? then Some(old(state).st.phase) else None
      ensures alive <==> state.Stored? && state.st.job != "" && Seen(View(), docker, SidekickName(state.st.job))
      ensures canReset == CanReset(View(), docker)
      ensures canReset ==> state.Stored? && state.st.job != "" && !alive
      ensures state.Stored? && state.st.job != "" && !alive ==>
        (canReset <==> state.st.phase in {Pending, Stopping, Pulling, Starting, HealthCheck, Recovery})
    {
      ok, phase, alive, canReset := state != Unreadable, None, false, false;
      if !state.Stored? {
        return;
      }
      PublishTerminalEvent();
      phase := Some(state.st.phase);
      if state.st.job != "" {
        alive := Inspect(docker, SidekickName(state.st.job));
        canReset := !alive && InProgress(state.st.phase);
      }
    }

    /** `ResetLock`, with its two inspections. */
    method ResetLock(docker: Docker, again: Docker) returns (refused: bool, reclaimed: bool)
      modifies `lock, `state, `events
      ensures View() == Reset(old(View()), docker, again)
      ensures refused == ResetRefused(old(View()), docker)
      ensures reclaimed == (!refused && Reclaim(old(View()), again).1)
      ensures refused <==>
        docker.Answering? && job.Some? && job.value != "" && Running(old(View()), SidekickName(job.value))
      ensures refused ==> lock == old(lock) && state == old(state) && events == old(events)
      ensures !refused ==> events == old(events) + [ResetEvent(if job.Some? then job.value else "")]
      ensures !refused ==> var w := Reclaim(old(View()), again).0; lock == w.lock && state == w.state
    {
      if !docker.Absent? && job.Some? && job.value != "" {
        if Inspect(docker, SidekickName(job.value)) {
          return true, false;
        }
      }
      reclaimed := ReclaimStaleLock(again);
      events := events + [ResetEvent(if job.Some? then job.value else "")];
      return false, reclaimed;
    }

    /** The boot hook of `NewSelfDeploy`, in a primary that has just come up. */
    method BootHook(docker: Docker, again: Docker)
      modifies `watchdogs, `lock, `state, `containers
      ensures View() == Restart(old(View()), docker, again)
      ensures watchdogs == {}
      ensures var w := Reclaim(old(View()), docker).0; lock == w.lock && state == w.state
      ensures forall n :: n in containers <==>
        n in old(containers) && !(again.Answering? && old(containers)[n].Stopped?)
    {
      watchdogs := {};
      var _ := ReclaimStaleLock(docker);
      CleanupExitedSidekicks(again);
    }
  }
}
