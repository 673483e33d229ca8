/** The sidekick's side of a self-deploy: its state writer and its life from start to exit. */
module DeployAgent {
  import opened Wrappers
  import opened SelfDeploySpec
  import opened SelfDeploy

  /** Keeps the state in memory and brings it to `state.json`. `shared` is what the sidekick
      shares with the primary; its own container is the one called `name`. */
  class StateWriter {
    const shared: SelfDeployBiz
    const name: string
    var st: State
    var dirty: bool
    /** The phases it has been through, oldest first. */
    ghost var passed: seq<Phase>

    /** The container holds this state and has not been taken for finished or stopped. */
    ghost predicate Lives()
      reads this, shared
    {
      name in shared.containers && shared.containers[name] == Working(st) && st.job != ""
    }

    /** The container holds this state, with its result in. */
    ghost predicate Ended(dropped: bool)
      reads this, shared
    {
      name in shared.containers && shared.containers[name] == Finished(st, dropped) && st.job != ""
    }

    /** `newStateWriter`, for the job just read from `job.json`: the first state is written at once. */
    constructor (shared: SelfDeployBiz, name: string, job: string)
      requires name in shared.containers && shared.containers[name] == Booting
      requires shared.job == Some(job) && job != ""
      modifies shared`containers, shared`state
      ensures this.shared == shared && this.name == name && st == State(job, Pending, false)
      ensures shared.state == Stored(State(job, Pending, false)) && shared.lock == old(shared.lock)
      ensures Lives() && !dirty && passed == [Pending] && shared.View() == Boot(old(shared.View()), name)
    {
      this.shared, this.name, st, dirty := shared, name, State(job, Pending, false), false;
      passed := [Pending];
      new;
      shared.containers := shared.containers[name := Working(st)];
      shared.state := Stored(st);
    }

    /** `flushLocked`: a state that names no job would not be written. */
    method WriteOut()
      requires st.job != ""
      modifies `dirty, shared`state
      ensures !dirty && shared.state == Stored(st)
    {
      shared.state := Stored(st);
      dirty := false;
    }

    /** `SetPhase`: in memory, until the flusher comes by. */
    method SetPhase(phase: Phase)
      requires Lives() && phase == NextPhase(st.phase)
      modifies `st, `dirty, `passed, shared`containers
      ensures Lives() && dirty && st == old(st).(phase := phase) && passed == old(passed) + [phase]
      ensures shared.View() == Advance(old(shared.View()), name) && shared.state == old(shared.state)
    {
      st := st.(phase := phase);
      passed := passed + [phase];
      dirty := true;
      shared.containers := shared.containers[name := Working(st)];
    }

    /** One tick of `flusherLoop`. */
    method FlushIfDirty()
      requires Lives()
      modifies `dirty, shared`state
      ensures Lives() && !dirty && st == old(st)
      ensures shared.state == if old(dirty) then Stored(st) else old(shared.state)
      ensures shared.View() == if old(dirty) then Flush(old(shared.View()), name) else old(shared.View())
    {
      if dirty {
        WriteOut();
      }
    }

    /** `Fail`, `Succeed`, `MarkRolledBack` and `MarkRecovery`: the result is written at once. */
    method Finish(end: Phase)
      requires Lives() && CanEnd(st.phase, end)
      modifies this, shared`containers, shared`state, shared`recovered
      ensures Ended(false) && st == old(st).(phase := end) && shared.state == Stored(st)
      ensures shared.View() == End(old(shared.View()), name, end)
    {
      st := st.(phase := end);
      shared.containers := shared.containers[name := Finished(st, false)];
      if end == Recovery {
        shared.recovered := shared.recovered + {st.job};
      }
      WriteOut();
    }

    /** `os.Remove(lockPath)`, whoever holds it. */
    method DropLock()
      requires Ended(false)
      modifies shared`lock, shared`containers
      ensures Ended(true) && !shared.lock && shared.View() == Unlock(old(shared.View()), name)
    {
      shared.lock := false;
      shared.containers := shared.containers[name := Finished(st, true)];
    }

    /** `rotateHistory` and `Close` write once more, whatever the file holds by then. */
    method Close()
      requires Ended(true)
      modifies `dirty, shared`state
      ensures Ended(true) && shared.state == Stored(st) && shared.View() == Flush(old(shared.View()), name)
    {
      WriteOut();
    }
  }

  /** The place of a phase in the course of a deploy. */
  function Rank(p: Phase): nat {
    match p
    case Pending => 0
    case Stopping => 1
    case Pulling => 2
    case Starting => 3
    case HealthCheck => 4
    case _ => 5
  }

  const COURSE := [Pending, Stopping, Pulling, Starting, HealthCheck]

  lemma NextInCourse(p: Phase)
    requires Rank(p) < 4
    ensures Rank(NextPhase(p)) == Rank(p) + 1
    ensures COURSE[..Rank(p) + 1] + [NextPhase(p)] == COURSE[..Rank(NextPhase(p)) + 1]
  {
  }

  /** The phases of `runDeploy`, one after the other, up to the one it reaches. */
  method Proceed(sw: StateWriter, reached: Phase)
    requires sw.Lives() && sw.st.phase == Pending && sw.passed == [Pending] && Rank(reached) < 5
    modifies sw, sw.shared`containers, sw.shared`state
    ensures sw.Lives() && sw.st == old(sw.st).(phase := reached)
    ensures sw.passed == COURSE[..Rank(reached) + 1]
    ensures sw.shared.containers == old(sw.shared.containers)[sw.name := Working(sw.st)]
  {
    while sw.st.phase != reached
      invariant sw.Lives() && sw.st == old(sw.st).(phase := sw.st.phase)
      invariant Rank(sw.st.phase) <= Rank(reached) && sw.passed == COURSE[..Rank(sw.st.phase) + 1]
      invariant sw.shared.containers == old(sw.shared.containers)[sw.name := Working(sw.st)]
      decreases Rank(reached) - Rank(sw.st.phase)
    {
      NextInCourse(sw.st.phase);
      sw.SetPhase(NextPhase(sw.st.phase));
      sw.FlushIfDirty();
    }
  }

  /** The result, the lock, and the last write. */
  method WrapUp(sw: StateWriter, end: Phase)
    requires sw.Lives() && CanEnd(sw.st.phase, end)
    modifies sw, sw.shared`containers, sw.shared`state, sw.shared`recovered, sw.shared`lock
    ensures sw.Ended(true) && sw.st == old(sw.st).(phase := end)
    ensures sw.shared.containers == old(sw.shared.containers)[sw.name := Finished(sw.st, true)]
    ensures !sw.shared.lock && sw.shared.state == Stored(sw.st)
  {
    sw.Finish(end);
    sw.DropLock();
    sw.Close();
  }

  /** `runWithIO`, undisturbed: without a job it stops at once; with one it goes to `reached`, ends
      there with `end`, gives up the lock and exits. What it leaves is its result, unpublished. */
  method RunAgent(shared: SelfDeployBiz, name: string, reached: Phase, end: Phase)
    requires name in shared.containers && shared.containers[name] == Booting
    requires CanEnd(reached, end)
    modifies shared
    ensures shared.containers == old(shared.containers)[name := Stopped]
    ensures shared.job == old(shared.job) && shared.events == old(shared.events)
    ensures shared.watchdogs == old(shared.watchdogs)
    ensures var job := old(shared.job);
      if job.None? || job.value == ""
      then shared.lock == old(shared.lock) && shared.state == old(shared.state)
      else !shared.lock && shared.state == Stored(State(job.value, end, false))
  {
    if shared.job.None? || shared.job.value == "" {
      shared.containers := shared.containers[name := Stopped];
      return;
    }
    var sw := new StateWriter(shared, name, shared.job.value);
    Proceed(sw, reached);
    WrapUp(sw, end);
    shared.containers := shared.containers[name := Stopped];
  }
}
