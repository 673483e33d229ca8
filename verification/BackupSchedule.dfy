/** Which backups a tick runs, and how often that can be. */
module BackupSchedule {
  import opened Wrappers

  /** `hour` is missing when the time does not parse, `days` when none are configured. */
  datatype Schedule = Schedule(
    enabled: bool, hour: Option<int>, days: Option<seq<int>>, retention: int, lastRunAt: Option<int>)

  /** The local calendar of the scheduler, on clock readings. */
  datatype Calendar = Calendar(day: int -> int, hour: int -> int, weekday: int -> int, monthDay: int -> int)

  ghost predicate Lawful(cal: Calendar) {
    && (forall t, t' :: t <= t' ==> cal.day(t) <= cal.day(t'))
    && (forall t :: 0 <= cal.hour(t) < 24)
  }

  const DAILY := "daily"
  const WEEKLY := "weekly"
  const MONTHLY := "monthly"

  /** The hour and the day are those of an enabled schedule. */
  predicate Wanted(cal: Calendar, id: string, s: Schedule, now: int) {
    && s.enabled && s.hour == Some(cal.hour(now)) && s.days.Some?
    && (if id == DAILY || id == WEEKLY then cal.weekday(now) in s.days.value
        else id == MONTHLY && cal.monthDay(now) in s.days.value)
  }

  /** `ShouldRun` */
  predicate ShouldRun(cal: Calendar, id: string, s: Schedule, now: int) {
    Wanted(cal, id, s, now) && (s.lastRunAt.Some? ==> cal.day(s.lastRunAt.value) != cal.day(now))
  }

  /** `validateSchedule` */
  predicate Valid(id: string, s: Schedule) {
    && id in {DAILY, WEEKLY, MONTHLY} && s.hour.Some? && 0 <= s.hour.value < 24 && s.days.Some?
  }

  /** A tick, what it ran, and when each run finished. */
  datatype Tick = Tick(now: int, ran: map<string, int>)

  /** `clock` is the latest reading, `ticks` the past. */
  datatype Plan = Plan(schedules: map<string, Schedule>, clock: int, ticks: seq<Tick>)

  /** A tick that starts at `now`; runs succeed for the schedules in `finish`, at that time. */
  function Due(cal: Calendar, schedules: map<string, Schedule>, now: int, finish: map<string, int>): set<string> {
    set id | id in schedules && id in finish && ShouldRun(cal, id, schedules[id], now)
  }

  function Touched(schedules: map<string, Schedule>, ran: set<string>, finish: map<string, int>)
    : map<string, Schedule>
  {
    map id | id in schedules ::
      if id in ran && id in finish then schedules[id].(lastRunAt := Some(finish[id])) else schedules[id]
  }

  function RunTick(cal: Calendar, p: Plan, now: int, finish: map<string, int>, end: int): Plan {
    var ran := Due(cal, p.schedules, now, finish);
    Plan(Touched(p.schedules, ran, finish), end, p.ticks + [Tick(now, map id | id in ran :: finish[id])])
  }

  /** `SaveSchedule` */
  function Saved(schedules: map<string, Schedule>, id: string, s: Schedule): map<string, Schedule> {
    if !Valid(id, s) then schedules
    else
      var kept := if s.retention < 0 then s.(retention := 0) else s;
      schedules[id :=
        if id in schedules && s.lastRunAt.None? then kept.(lastRunAt := schedules[id].lastRunAt) else kept]
  }

  datatype Op =
    | TickOp(now: int, finish: map<string, int>, end: int)
    | SaveOp(id: string, schedule: Schedule)
    | DeleteOp(id: string)

  function Apply(cal: Calendar, p: Plan, op: Op): Plan {
    match op
    case TickOp(now, finish, end) => RunTick(cal, p, now, finish, end)
    case SaveOp(id, s) => p.(schedules := Saved(p.schedules, id, s))
    case DeleteOp(id) => p.(schedules := p.schedules - {id})
  }

  /** The clock does not go back, and each run finishes between the start and the end of its tick. */
  predicate Timely(p: Plan, op: Op) {
    op.TickOp? ==>
      && p.clock <= op.now <= op.end
      && forall id :: id in op.finish ==> op.now <= op.finish[id] <= op.end
  }

  function Run(cal: Calendar, p: Plan, ops: seq<Op>): Plan
    decreases |ops|
  {
    if ops == [] then p else Run(cal, Apply(cal, p, ops[0]), ops[1..])
  }

  /** What a tick runs: the enabled schedules whose hour and day it is, that have not run on that day and
      whose export succeeds. */
  lemma TickRunsExactly(cal: Calendar, p: Plan, op: Op, id: string)
    requires op.TickOp?
    ensures id in Apply(cal, p, op).ticks[|p.ticks|].ran <==>
      && id in p.schedules && id in op.finish
      && var s := p.schedules[id];
         && s.enabled && s.hour == Some(cal.hour(op.now)) && s.days.Some?
         && (s.lastRunAt.None? || cal.day(s.lastRunAt.value) != cal.day(op.now))
         && (if id == "monthly" then cal.monthDay(op.now) in s.days.value
             else id in {"daily", "weekly"} && cal.weekday(op.now) in s.days.value)
    ensures forall x :: x in Apply(cal, p, op).ticks[|p.ticks|].ran ==>
      Apply(cal, p, op).schedules[x] == p.schedules[x].(lastRunAt := Some(op.finish[x]))
    ensures Apply(cal, p, op).schedules.Keys == p.schedules.Keys
    ensures forall x :: x in p.schedules && x !in Apply(cal, p, op).ticks[|p.ticks|].ran ==>
      Apply(cal, p, op).schedules[x] == p.schedules[x]
  {
  }

  // ---------- at most once a day ----------

  /** A run of the schedule started on that day. */
  predicate StartedOn(cal: Calendar, ticks: seq<Tick>, id: string, day: int) {
    exists i :: 0 <= i < |ticks| && id in ticks[i].ran && cal.day(ticks[i].now) == day
  }

  /** Saves leave the last run alone, and a schedule is not deleted on a day on which it has run. */
  predicate Calm(cal: Calendar, p: Plan, op: Op) {
    match op
    case TickOp(_, _, _) => Timely(p, op)
    case SaveOp(_, s) => s.lastRunAt.None?
    case DeleteOp(id) => !StartedOn(cal, p.ticks, id, cal.day(p.clock))
  }

  predicate CalmRun(cal: Calendar, p: Plan, ops: seq<Op>)
    decreases |ops|
  {
    ops == [] || (Calm(cal, p, ops[0]) && CalmRun(cal, Apply(cal, p, ops[0]), ops[1..]))
  }

  /** Each schedule runs at most once per calendar day, by the day its tick started. */
  predicate OnceADay(cal: Calendar, ticks: seq<Tick>) {
    forall i, j :: 0 <= i < j < |ticks| ==>
      forall id :: id in ticks[i].ran && id in ticks[j].ran ==> cal.day(ticks[i].now) != cal.day(ticks[j].now)
  }

  /** Every run is past its day, or its schedule remembers a time no earlier than the day it started. */
  predicate RunIsRemembered(cal: Calendar, p: Plan, i: int, id: string)
    requires 0 <= i < |p.ticks|
  {
    && p.ticks[i].now <= p.clock
    && (cal.day(p.ticks[i].now) < cal.day(p.clock) ||
        (&& id in p.schedules && p.schedules[id].lastRunAt.Some?
         && p.schedules[id].lastRunAt.value <= p.clock
         && cal.day(p.ticks[i].now) <= cal.day(p.schedules[id].lastRunAt.value)))
  }

  predicate Remembered(cal: Calendar, p: Plan) {
    forall i :: 0 <= i < |p.ticks| ==> forall id :: id in p.ticks[i].ran ==> RunIsRemembered(cal, p, i, id)
  }

  /** A schedule that is due has no run on that day. */
  lemma DueIsFirst(cal: Calendar, p: Plan, op: Op, i: nat, id: string)
    requires Lawful(cal) && Remembered(cal, p) && Timely(p, op) && op.TickOp?
    requires i < |p.ticks| && id in p.ticks[i].ran && id in Due(cal, p.schedules, op.now, op.finish)
    ensures cal.day(p.ticks[i].now) < cal.day(op.now)
  {
    assert cal.day(p.clock) <= cal.day(op.now);
    if cal.day(p.ticks[i].now) >= cal.day(p.clock) {
      assert cal.day(p.schedules[id].lastRunAt.value) <= cal.day(p.clock);
    }
  }

  lemma TickKeeps(cal: Calendar, p: Plan, op: Op)
    requires Lawful(cal) && OnceADay(cal, p.ticks) && Remembered(cal, p) && Timely(p, op) && op.TickOp?
    ensures OnceADay(cal, Apply(cal, p, op).ticks) && Remembered(cal, Apply(cal, p, op))
  {
    var p', n := Apply(cal, p, op), |p.ticks|;
    TickRemembers(cal, p, op);
    forall i, j, id | 0 <= i < j < |p'.ticks| && id in p'.ticks[i].ran && id in p'.ticks[j].ran
      ensures cal.day(p'.ticks[i].now) != cal.day(p'.ticks[j].now)
    {
      assert p'.ticks[i] == p.ticks[i];
      if j == n {
        DueIsFirst(cal, p, op, i, id);
      } else {
        assert p'.ticks[j] == p.ticks[j];
      }
    }
  }

  lemma TickRemembers(cal: Calendar, p: Plan, op: Op)
    requires Lawful(cal) && Remembered(cal, p) && Timely(p, op) && op.TickOp?
    ensures Remembered(cal, Apply(cal, p, op))
  {
    var p', n := Apply(cal, p, op), |p.ticks|;
    assert cal.day(p.clock) <= cal.day(op.now) <= cal.day(p'.clock);
    forall i, id | 0 <= i < |p'.ticks| && id in p'.ticks[i].ran
      ensures RunIsRemembered(cal, p', i, id)
    {
      if i < n {
        assert p'.ticks[i] == p.ticks[i] && RunIsRemembered(cal, p, i, id);
        if id in Due(cal, p.schedules, op.now, op.finish) {
          DueIsFirst(cal, p, op, i, id);
        }
      } else {
        assert cal.day(op.now) <= cal.day(op.finish[id]);
      }
    }
  }

  lemma {:induction false} AtMostOnceADay(cal: Calendar, p: Plan, ops: seq<Op>)
    requires Lawful(cal) && OnceADay(cal, p.ticks) && Remembered(cal, p) && CalmRun(cal, p, ops)
    ensures OnceADay(cal, Run(cal, p, ops).ticks)
    decreases |ops|
  {
    if ops != [] {
      if ops[0].TickOp? { TickKeeps(cal, p, ops[0]); }
      if ops[0].DeleteOp? { DeleteKeeps(cal, p, ops[0].id); }
      AtMostOnceADay(cal, Apply(cal, p, ops[0]), ops[1..]);
    }
  }

  lemma DeleteKeeps(cal: Calendar, p: Plan, id: string)
    requires Lawful(cal) && Remembered(cal, p) && !StartedOn(cal, p.ticks, id, cal.day(p.clock))
    ensures Remembered(cal, Apply(cal, p, DeleteOp(id)))
  {
    forall i | 0 <= i < |p.ticks| && id in p.ticks[i].ran
      ensures cal.day(p.ticks[i].now) < cal.day(p.clock)
    {
      assert cal.day(p.ticks[i].now) != cal.day(p.clock);
    }
  }

  /** A schedule saved anew that wants the present hour. */
  function Anew(cal: Calendar, id: string, now: int): Schedule {
    Schedule(true, Some(cal.hour(now)), Some([if id == MONTHLY then cal.monthDay(now) else cal.weekday(now)]), 0, None)
  }

  function RunAgain(cal: Calendar, id: string, now: int): seq<Op> {
    [SaveOp(id, Anew(cal, id, now))] + ([TickOp(now, map[id := now], now)] + [])
  }

  /** A schedule deleted on a day on which it has run, and saved again, can run a second time. */
  lemma DeletedScheduleRunsAgain(cal: Calendar, p: Plan, id: string)
    requires Lawful(cal) && id in {DAILY, WEEKLY, MONTHLY} && StartedOn(cal, p.ticks, id, cal.day(p.clock))
    ensures var p', ops := Apply(cal, p, DeleteOp(id)), RunAgain(cal, id, p.clock);
      CalmRun(cal, p', ops) && !OnceADay(cal, Run(cal, p', ops).ticks)
  {
    var now, p' := p.clock, Apply(cal, p, DeleteOp(id));
    var save, tick := SaveOp(id, Anew(cal, id, now)), TickOp(now, map[id := now], now);
    var p1 := Apply(cal, p', save);
    var p2 := Apply(cal, p1, tick);
    OneOp(cal, p1, tick, []);
    OneOp(cal, p', save, [tick] + []);
    assert p1.schedules[id] == Anew(cal, id, now);
    var i :| 0 <= i < |p.ticks| && id in p.ticks[i].ran && cal.day(p.ticks[i].now) == cal.day(now);
    assert p2.ticks[i] == p.ticks[i] && p2.ticks[|p.ticks|].now == now && id in p2.ticks[|p.ticks|].ran;
  }

  lemma OneOp(cal: Calendar, p: Plan, op: Op, rest: seq<Op>)
    ensures Run(cal, p, [op] + rest) == Run(cal, Apply(cal, p, op), rest)
    ensures CalmRun(cal, p, [op] + rest) <==> Calm(cal, p, op) && CalmRun(cal, Apply(cal, p, op), rest)
  {
    assert ([op] + rest)[1..] == rest;
  }

  /** The condition on deletions is exact. */
  lemma CalmIsExact(cal: Calendar, p: Plan, id: string)
    requires Lawful(cal) && OnceADay(cal, p.ticks) && Remembered(cal, p) && id in {DAILY, WEEKLY, MONTHLY}
    ensures Calm(cal, p, DeleteOp(id)) <==>
      forall ops :: CalmRun(cal, Apply(cal, p, DeleteOp(id)), ops) ==>
        OnceADay(cal, Run(cal, Apply(cal, p, DeleteOp(id)), ops).ticks)
  {
    if Calm(cal, p, DeleteOp(id)) {
      DeleteKeeps(cal, p, id);
      forall ops | CalmRun(cal, Apply(cal, p, DeleteOp(id)), ops)
        ensures OnceADay(cal, Run(cal, Apply(cal, p, DeleteOp(id)), ops).ticks)
      {
        AtMostOnceADay(cal, Apply(cal, p, DeleteOp(id)), ops);
      }
    } else {
      DeletedScheduleRunsAgain(cal, p, id);
    }
  }

  // ---------- every configured day ----------

  /** Saves leave the last run alone and nothing is deleted. */
  predicate Modest(p: Plan, op: Op) {
    match op
    case TickOp(_, _, _) => Timely(p, op)
    case SaveOp(_, s) => s.lastRunAt.None?
    case DeleteOp(_) => false
  }

  predicate ModestRun(cal: Calendar, p: Plan, ops: seq<Op>)
    decreases |ops|
  {
    ops == [] || (Modest(p, ops[0]) && ModestRun(cal, Apply(cal, p, ops[0]), ops[1..]))
  }

  /** A run of the schedule ended on that day. */
  predicate FinishedOn(cal: Calendar, ticks: seq<Tick>, id: string, day: int) {
    exists i :: 0 <= i < |ticks| && id in ticks[i].ran && cal.day(ticks[i].ran[id]) == day
  }

  /** A run of the schedule started on an earlier day and ended on that one. */
  predicate Overran(cal: Calendar, ticks: seq<Tick>, id: string, day: int) {
    exists i :: 0 <= i < |ticks| && id in ticks[i].ran && cal.day(ticks[i].now) < day == cal.day(ticks[i].ran[id])
  }

  /** No run of a schedule ended after the one it remembers, */
  ghost predicate NoLaterEnd(p: Plan) {
    forall i, id :: 0 <= i < |p.ticks| && id in p.ticks[i].ran ==>
      && id in p.schedules && p.schedules[id].lastRunAt.Some?
      && p.ticks[i].now <= p.ticks[i].ran[id] <= p.schedules[id].lastRunAt.value <= p.clock
  }

  /** and there was one that ended then. */
  predicate EndedThen(p: Plan, id: string, t: int) {
    exists i :: 0 <= i < |p.ticks| && id in p.ticks[i].ran && p.ticks[i].ran[id] == t
  }

  ghost predicate LatestEnd(p: Plan) {
    && NoLaterEnd(p)
    && forall id :: id in p.schedules && p.schedules[id].lastRunAt.Some? ==>
      EndedThen(p, id, p.schedules[id].lastRunAt.value)
  }

  /** A run starts on a later day than all earlier runs of its schedule ended on. */
  ghost predicate Apart(cal: Calendar, ticks: seq<Tick>) {
    forall i, j, id :: 0 <= i < j < |ticks| && id in ticks[i].ran && id in ticks[j].ran ==>
      cal.day(ticks[i].ran[id]) < cal.day(ticks[j].now)
  }

  /** A tick passes over a wanted schedule whose export would succeed exactly if a run of it has already
      ended on that day. */
  lemma WantedRuns(cal: Calendar, p: Plan, op: Op, id: string)
    requires Lawful(cal) && LatestEnd(p) && op.TickOp? && Timely(p, op)
    requires id in p.schedules && id in op.finish && Wanted(cal, id, p.schedules[id], op.now)
    ensures id in Apply(cal, p, op).ticks[|p.ticks|].ran <==> !FinishedOn(cal, p.ticks, id, cal.day(op.now))
  {
    var day := cal.day(op.now);
    if FinishedOn(cal, p.ticks, id, day) {
      var i :| 0 <= i < |p.ticks| && id in p.ticks[i].ran && cal.day(p.ticks[i].ran[id]) == day;
      var last := p.schedules[id].lastRunAt.value;
      assert cal.day(p.ticks[i].ran[id]) <= cal.day(last) <= day;
    } else if p.schedules[id].lastRunAt.Some? {
      assert EndedThen(p, id, p.schedules[id].lastRunAt.value);
    }
  }

  /** What a tick does to a plan. */
  predicate Extends(p: Plan, p': Plan, t: Tick) {
    && p'.ticks == p.ticks + [t] && p'.schedules.Keys == p.schedules.Keys && p.clock <= t.now <= p'.clock
    && (forall id :: id in t.ran ==>
      id in p'.schedules && t.now <= t.ran[id] <= p'.clock && p'.schedules[id].lastRunAt == Some(t.ran[id]))
    && (forall id :: id in p.schedules && id !in t.ran ==> p'.schedules[id] == p.schedules[id])
  }

  lemma TickExtends(cal: Calendar, p: Plan, op: Op)
    requires op.TickOp? && Timely(p, op)
    ensures var p' := Apply(cal, p, op); Extends(p, p', p'.ticks[|p.ticks|])
  {
  }

  lemma EndsStay(p: Plan, p': Plan, t: Tick)
    requires Extends(p, p', t) && NoLaterEnd(p)
    ensures NoLaterEnd(p')
  {
    forall i, id | 0 <= i < |p'.ticks| && id in p'.ticks[i].ran
      ensures id in p'.schedules && p'.schedules[id].lastRunAt.Some?
      ensures p'.ticks[i].now <= p'.ticks[i].ran[id] <= p'.schedules[id].lastRunAt.value <= p'.clock
    {
      if i < |p.ticks| {
        assert p'.ticks[i] == p.ticks[i];
        assert id in p.schedules && p.ticks[i].ran[id] <= p.clock;
      }
    }
  }

  lemma EndsAreMet(p: Plan, p': Plan, t: Tick, id: string)
    requires Extends(p, p', t) && LatestEnd(p) && id in p'.schedules && p'.schedules[id].lastRunAt.Some?
    ensures EndedThen(p', id, p'.schedules[id].lastRunAt.value)
  {
    if id in t.ran {
      assert p'.ticks[|p.ticks|] == t;
    } else {
      assert id in p.schedules && EndedThen(p, id, p.schedules[id].lastRunAt.value);
      var i :| 0 <= i < |p.ticks| && id in p.ticks[i].ran && p.ticks[i].ran[id] == p.schedules[id].lastRunAt.value;
      assert p'.ticks[i] == p.ticks[i];
    }
  }

  /** A schedule that runs has no earlier run that ended on that day or later. */
  lemma RunsAfterEnds(cal: Calendar, p: Plan, op: Op, i: nat, id: string)
    requires Lawful(cal) && NoLaterEnd(p) && op.TickOp? && Timely(p, op)
    requires i < |p.ticks| && id in p.ticks[i].ran && id in Due(cal, p.schedules, op.now, op.finish)
    ensures cal.day(p.ticks[i].ran[id]) < cal.day(op.now)
  {
    var last := p.schedules[id].lastRunAt.value;
    assert cal.day(p.ticks[i].ran[id]) <= cal.day(last) <= cal.day(op.now);
  }

  lemma TickKeepsEnds(cal: Calendar, p: Plan, op: Op)
    requires Lawful(cal) && LatestEnd(p) && Apart(cal, p.ticks) && op.TickOp? && Timely(p, op)
    ensures LatestEnd(Apply(cal, p, op)) && Apart(cal, Apply(cal, p, op).ticks)
  {
    var p', n := Apply(cal, p, op), |p.ticks|;
    var t := p'.ticks[n];
    TickExtends(cal, p, op);
    EndsStay(p, p', t);
    forall id | id in p'.schedules && p'.schedules[id].lastRunAt.Some?
      ensures EndedThen(p', id, p'.schedules[id].lastRunAt.value)
    {
      EndsAreMet(p, p', t, id);
    }
    forall i, j, id | 0 <= i < j < |p'.ticks| && id in p'.ticks[i].ran && id in p'.ticks[j].ran
      ensures cal.day(p'.ticks[i].ran[id]) < cal.day(p'.ticks[j].now)
    {
      assert p'.ticks[i] == p.ticks[i];
      if j == n {
        RunsAfterEnds(cal, p, op, i, id);
      } else {
        assert p'.ticks[j] == p.ticks[j];
      }
    }
  }

  lemma SaveKeepsEnds(p: Plan, id: string, s: Schedule)
    requires LatestEnd(p) && s.lastRunAt.None?
    ensures LatestEnd(p.(schedules := Saved(p.schedules, id, s)))
  {
    var p' := p.(schedules := Saved(p.schedules, id, s));
    forall x | x in p'.schedules && p'.schedules[x].lastRunAt.Some?
      ensures EndedThen(p', x, p'.schedules[x].lastRunAt.value)
    {
      assert x in p.schedules && EndedThen(p, x, p.schedules[x].lastRunAt.value);
    }
  }

  lemma {:induction false} RunKeepsEnds(cal: Calendar, p: Plan, ops: seq<Op>)
    requires Lawful(cal) && LatestEnd(p) && Apart(cal, p.ticks) && ModestRun(cal, p, ops)
    ensures LatestEnd(Run(cal, p, ops)) && Apart(cal, Run(cal, p, ops).ticks)
    decreases |ops|
  {
    if ops != [] {
      if ops[0].TickOp? { TickKeepsEnds(cal, p, ops[0]); }
      if ops[0].SaveOp? { SaveKeepsEnds(p, ops[0].id, ops[0].schedule); }
      RunKeepsEnds(cal, Apply(cal, p, ops[0]), ops[1..]);
    }
  }

  function Empty(clock: int): Plan { Plan(map[], clock, []) }

  /** Which ticks run, after any modest run: on a wanted hour of a wanted day, with an export that
      succeeds, a schedule runs if and only if no run of it has ended on that day. */
  lemma ConfiguredTickRuns(cal: Calendar, start: int, ops: seq<Op>, op: Op, id: string)
    requires Lawful(cal) && ModestRun(cal, Empty(start), ops)
    requires var p := Run(cal, Empty(start), ops);
      && op.TickOp? && Timely(p, op)
      && id in p.schedules && id in op.finish && Wanted(cal, id, p.schedules[id], op.now)
    ensures var p := Run(cal, Empty(start), ops);
      id in Apply(cal, p, op).ticks[|p.ticks|].ran <==> !FinishedOn(cal, p.ticks, id, cal.day(op.now))
  {
    RunKeepsEnds(cal, Empty(start), ops);
    WantedRuns(cal, Run(cal, Empty(start), ops), op, id);
  }

  /** Which configured days get their backup: after such a tick a run has started on its day, if and
      only if no run of an earlier day ended in it. */
  lemma ConfiguredDayIsServed(cal: Calendar, start: int, ops: seq<Op>, op: Op, id: string)
    requires Lawful(cal) && ModestRun(cal, Empty(start), ops)
    requires var p := Run(cal, Empty(start), ops);
      && op.TickOp? && Timely(p, op)
      && id in p.schedules && id in op.finish && Wanted(cal, id, p.schedules[id], op.now)
    ensures var p, day := Run(cal, Empty(start), ops), cal.day(op.now);
      StartedOn(cal, Apply(cal, p, op).ticks, id, day) <==> !Overran(cal, p.ticks, id, day)
  {
    RunKeepsEnds(cal, Empty(start), ops);
    DayIsServed(cal, Run(cal, Empty(start), ops), op, id);
  }

  lemma DayIsServed(cal: Calendar, p: Plan, op: Op, id: string)
    requires Lawful(cal) && LatestEnd(p) && Apart(cal, p.ticks) && op.TickOp? && Timely(p, op)
    requires id in p.schedules && id in op.finish && Wanted(cal, id, p.schedules[id], op.now)
    ensures StartedOn(cal, Apply(cal, p, op).ticks, id, cal.day(op.now)) <==>
            !Overran(cal, p.ticks, id, cal.day(op.now))
  {
    var day := cal.day(op.now);
    WantedRuns(cal, p, op, id);
    StartedNext(cal, p.ticks, Apply(cal, p, op).ticks[|p.ticks|], id, day);
    if Overran(cal, p.ticks, id, day) {
      OverrunTakesTheDay(cal, p, id, day);
    } else if FinishedOn(cal, p.ticks, id, day) {
      EndedMeansStarted(cal, p, id, day);
    }
  }

  lemma StartedNext(cal: Calendar, ticks: seq<Tick>, t: Tick, id: string, day: int)
    ensures StartedOn(cal, ticks + [t], id, day) <==>
      StartedOn(cal, ticks, id, day) || (id in t.ran && cal.day(t.now) == day)
  {
    var more := ticks + [t];
    assert more[|ticks|] == t && forall i :: 0 <= i < |ticks| ==> more[i] == ticks[i];
    if StartedOn(cal, ticks, id, day) {
      var i :| 0 <= i < |ticks| && id in ticks[i].ran && cal.day(ticks[i].now) == day;
      assert id in more[i].ran;
    }
  }

  /** A run does not end on a day before the one it started on. */
  lemma EndsNoEarlier(cal: Calendar, p: Plan, i: nat, id: string)
    requires Lawful(cal) && NoLaterEnd(p) && i < |p.ticks| && id in p.ticks[i].ran
    ensures cal.day(p.ticks[i].now) <= cal.day(p.ticks[i].ran[id])
  {
    var start, end := p.ticks[i].now, p.ticks[i].ran[id];
    assert id in p.schedules && start <= end;
    assert cal.day(start) <= cal.day(end);
  }

  lemma OverrunTakesTheDay(cal: Calendar, p: Plan, id: string, day: int)
    requires Lawful(cal) && NoLaterEnd(p) && Apart(cal, p.ticks) && Overran(cal, p.ticks, id, day)
    ensures FinishedOn(cal, p.ticks, id, day) && !StartedOn(cal, p.ticks, id, day)
  {
    var k :| 0 <= k < |p.ticks| && id in p.ticks[k].ran && cal.day(p.ticks[k].now) < day == cal.day(p.ticks[k].ran[id]);
    forall i | 0 <= i < |p.ticks| && id in p.ticks[i].ran
      ensures cal.day(p.ticks[i].now) != day
    {
      EndsNoEarlier(cal, p, i, id);
      if k < i {
        assert cal.day(p.ticks[k].ran[id]) < cal.day(p.ticks[i].now);
      } else if i < k {
        assert cal.day(p.ticks[i].ran[id]) < cal.day(p.ticks[k].now);
      }
    }
  }

  lemma EndedMeansStarted(cal: Calendar, p: Plan, id: string, day: int)
    requires Lawful(cal) && NoLaterEnd(p) && FinishedOn(cal, p.ticks, id, day) && !Overran(cal, p.ticks, id, day)
    ensures StartedOn(cal, p.ticks, id, day)
  {
    var i :| 0 <= i < |p.ticks| && id in p.ticks[i].ran && cal.day(p.ticks[i].ran[id]) == day;
    EndsNoEarlier(cal, p, i, id);
  }

  /** A run that finishes after midnight uses up the next day: no tick of that day runs the
      schedule, whatever saves come between. */
  lemma LateFinishSkipsNextDay(cal: Calendar, p: Plan, id: string, op: Op, s: Schedule, later: int)
    requires op.TickOp? && id in op.finish && id in p.schedules && ShouldRun(cal, id, p.schedules[id], op.now)
    requires cal.day(op.finish[id]) > cal.day(op.now) && cal.day(later) == cal.day(op.finish[id]) && s.lastRunAt.None?
    ensures var p1 := Apply(cal, p, op);
      var p2 := Apply(cal, p1, SaveOp(id, s));
      && id in p1.ticks[|p.ticks|].ran && id in p2.schedules
      && !ShouldRun(cal, id, p1.schedules[id], later) && !ShouldRun(cal, id, p2.schedules[id], later)
  {
  }
}
