/** Recurring jobs and the tick that runs the due ones (scheduler/service.py, scheduler/models.py). */
module Scheduler {
  import opened Wrappers
  import Plans

  const KINDS := {"briefing", "tool"}
  const MIN_INTERVAL_SECONDS := 60
  const MAX_INTERVAL_SECONDS_CEILING := 7 * 24 * 3600

  datatype Status = Never | Succeeded | Failed

  datatype Schedule = Schedule(
    id: string,
    name: string,
    kind: string,
    toolId: string,  // of the payload; "" when there is none
    intervalSeconds: int,
    enabled: bool,
    lastRunAt: Option<real>,
    nextRunAt: real,
    lastStatus: Status)

  // Schedule.validate, for a known kind.
  predicate ValidSchedule(s: Schedule) {
    && !Plans.Blank(s.id) && !Plans.Blank(s.name)
    && MIN_INTERVAL_SECONDS <= s.intervalSeconds <= MAX_INTERVAL_SECONDS_CEILING
    && s.kind in KINDS && (s.kind == "tool" ==> !Plans.Blank(s.toolId))
  }

  ghost predicate AllValid(schedules: seq<Schedule>) {
    && (forall i :: 0 <= i < |schedules| ==> ValidSchedule(schedules[i]))
    && (forall i, j :: 0 <= i < j < |schedules| ==> schedules[i].id != schedules[j].id)
  }

  // What a kind's handler does with a schedule: its verdict, or an exception.
  datatype Run = Verdict(ok: bool) | Raised

  type Handlers = map<string, Schedule -> Run>

  predicate Due(s: Schedule, at: real) {
    s.enabled && s.nextRunAt <= at
  }

  function StatusOf(s: Schedule, handlers: Handlers): Status {
    if s.kind in handlers && handlers[s.kind](s) == Verdict(true) then Succeeded else Failed
  }

  // The schedule saved after a run.
  function AfterRun(s: Schedule, at: real, handlers: Handlers): Schedule {
    s.(lastRunAt := Some(at), nextRunAt := at + s.intervalSeconds as real, lastStatus := StatusOf(s, handlers))
  }

  function Ticked(schedules: seq<Schedule>, at: real, handlers: Handlers): seq<Schedule> {
    seq(|schedules|, i requires 0 <= i < |schedules| =>
      if Due(schedules[i], at) then AfterRun(schedules[i], at, handlers) else schedules[i])
  }

  // The ids that a tick runs, in the order of the list.
  function DueIds(schedules: seq<Schedule>, at: real): seq<string> {
    if schedules == [] then [] else
      var s := schedules[|schedules| - 1];
      DueIds(schedules[..|schedules| - 1], at) + if Due(s, at) then [s.id] else []
  }

  lemma {:induction false} DueIdsMember(schedules: seq<Schedule>, at: real, id: string)
    ensures id in DueIds(schedules, at) <==>
      exists i :: 0 <= i < |schedules| && schedules[i].id == id && Due(schedules[i], at)
  {
    if schedules != [] {
      var n := |schedules| - 1;
      DueIdsMember(schedules[..n], at, id);
      if id in DueIds(schedules[..n], at) {
        var i :| 0 <= i < n && schedules[..n][i].id == id && Due(schedules[..n][i], at);
        assert schedules[i].id == id;
      }
      if i :| 0 <= i < |schedules| && schedules[i].id == id && Due(schedules[i], at) {
        assert i < n ==> schedules[..n][i] == schedules[i];
      }
    }
  }

  /** After a tick no enabled schedule is due. */
  lemma NoneLeftDue(schedules: seq<Schedule>, at: real, handlers: Handlers, i: nat)
    requires AllValid(schedules) && i < |schedules|
    ensures !Due(Ticked(schedules, at, handlers)[i], at)
  {
  }

  // --- one schedule over any series of ticks

  datatype Tick = Tick(at: real, handlers: Handlers)

  function Times(s: Schedule, ticks: seq<Tick>): seq<real>
    decreases |ticks|
  {
    if ticks == [] then []
    else if Due(s, ticks[0].at) then [ticks[0].at] + Times(AfterRun(s, ticks[0].at, ticks[0].handlers), ticks[1..])
    else Times(s, ticks[1..])
  }

  lemma MoreIntervals(k: nat, interval: real)
    ensures ((k + 1) as real) * interval == interval + (k as real) * interval
  {
  }

  /** The k-th run is at least k intervals after the time the schedule first becomes due, whatever the times of
      the ticks are, and even when the clock is set back. */
  lemma {:induction false} RunsAfter(s: Schedule, ticks: seq<Tick>, k: nat)
    requires ValidSchedule(s) && k < |Times(s, ticks)|
    ensures Times(s, ticks)[k] >= s.nextRunAt + (k as real) * s.intervalSeconds as real
    decreases |ticks|
  {
    if Due(s, ticks[0].at) {
      if k > 0 {
        RunsAfter(AfterRun(s, ticks[0].at, ticks[0].handlers), ticks[1..], k - 1);
        MoreIntervals(k - 1, s.intervalSeconds as real);
      }
    } else {
      RunsAfter(s, ticks[1..], k);
    }
  }

  // The first tick from index `from` on that is not before `due`.
  ghost predicate FirstTickFrom(ticks: seq<Tick>, due: real, from: int, k: int) {
    0 <= from <= k < |ticks| && ticks[k].at >= due && forall j :: from <= j < k ==> ticks[j].at < due
  }

  ghost predicate NoTickFrom(ticks: seq<Tick>, due: real, from: int) {
    0 <= from <= |ticks| && forall j :: from <= j < |ticks| ==> ticks[j].at < due
  }

  /** A schedule due at `due` runs at the first tick that is not before, then again at the first one that is not before
      that run plus the interval, and so on; these are all its runs. */
  ghost predicate RunsAtFirstTicks(ticks: seq<Tick>, due: real, interval: real, picks: seq<int>) {
    if picks == [] then NoTickFrom(ticks, due, 0)
    else
      && (forall i :: 0 <= i < |picks| ==> 0 <= picks[i] < |ticks|) && FirstTickFrom(ticks, due, 0, picks[0])
      && (forall i :: 0 < i < |picks| ==>
            FirstTickFrom(ticks, ticks[picks[i - 1]].at + interval, picks[i - 1] + 1, picks[i]))
      && NoTickFrom(ticks, ticks[picks[|picks| - 1]].at + interval, picks[|picks| - 1] + 1)
  }

  function Later(picks: seq<int>): (r: seq<int>)
    ensures |r| == |picks| && forall i :: 0 <= i < |picks| ==> r[i] == picks[i] + 1
  {
    seq(|picks|, i requires 0 <= i < |picks| => picks[i] + 1)
  }

  lemma OneTickLater(ticks: seq<Tick>, due: real, from: int, k: int)
    requires ticks != []
    ensures FirstTickFrom(ticks[1..], due, from, k) ==> FirstTickFrom(ticks, due, from + 1, k + 1)
    ensures FirstTickFrom(ticks[1..], due, 0, k) && ticks[0].at < due ==> FirstTickFrom(ticks, due, 0, k + 1)
    ensures NoTickFrom(ticks[1..], due, from) ==> NoTickFrom(ticks, due, from + 1)
    ensures NoTickFrom(ticks[1..], due, 0) && ticks[0].at < due ==> NoTickFrom(ticks, due, 0)
  {
    assert forall j :: 0 < j < |ticks| ==> ticks[j] == ticks[1..][j - 1];
  }

  // A tick at which nothing is due comes first.
  lemma RunsNotYet(ticks: seq<Tick>, due: real, interval: real, later: seq<int>)
    requires ticks != [] && ticks[0].at < due && RunsAtFirstTicks(ticks[1..], due, interval, later)
    ensures RunsAtFirstTicks(ticks, due, interval, Later(later))
  {
    hide FirstTickFrom, NoTickFrom;
    OneTickLater(ticks, due, 0, 0);
    if later != [] {
      OneTickLater(ticks, due, 0, later[0]);
      RunsShifted(ticks, interval, later);
    }
  }

  lemma RunsShifted(ticks: seq<Tick>, interval: real, later: seq<int>)
    requires ticks != [] && later != [] && forall i :: 0 <= i < |later| ==> 0 <= later[i] < |ticks[1..]|
    requires forall i :: 0 < i < |later| ==>
      FirstTickFrom(ticks[1..], ticks[1..][later[i - 1]].at + interval, later[i - 1] + 1, later[i])
    requires NoTickFrom(ticks[1..], ticks[1..][later[|later| - 1]].at + interval, later[|later| - 1] + 1)
    ensures
      var picks := Later(later);
      && (forall i :: 0 <= i < |picks| ==> 0 <= picks[i] < |ticks|)
      && (forall i :: 0 < i < |picks| ==>
            FirstTickFrom(ticks, ticks[picks[i - 1]].at + interval, picks[i - 1] + 1, picks[i]))
      && NoTickFrom(ticks, ticks[picks[|picks| - 1]].at + interval, picks[|picks| - 1] + 1)
  {
    hide FirstTickFrom, NoTickFrom;
    var picks := Later(later);
    forall i | 0 < i < |picks|
      ensures FirstTickFrom(ticks, ticks[picks[i - 1]].at + interval, picks[i - 1] + 1, picks[i])
    {
      OneTickLater(ticks, ticks[picks[i - 1]].at + interval, later[i - 1] + 1, later[i]);
    }
    OneTickLater(ticks, ticks[picks[|picks| - 1]].at + interval, later[|later| - 1] + 1, 0);
  }

  lemma FirstTickIsFirst(ticks: seq<Tick>, due: real)
    requires ticks != [] && ticks[0].at >= due
    ensures FirstTickFrom(ticks, due, 0, 0)
  {
  }

  // The first tick is a run.
  lemma RunsFirst(ticks: seq<Tick>, due: real, interval: real, later: seq<int>)
    requires ticks != [] && ticks[0].at >= due
    requires RunsAtFirstTicks(ticks[1..], ticks[0].at + interval, interval, later)
    ensures RunsAtFirstTicks(ticks, due, interval, [0] + Later(later))
  {
    hide FirstTickFrom, NoTickFrom;
    var picks := [0] + Later(later);
    FirstTickIsFirst(ticks, due);
    OneTickLater(ticks, ticks[0].at + interval, 0, 0);
    if later != [] {
      OneTickLater(ticks, ticks[0].at + interval, 0, later[0]);
      RunsShifted(ticks, interval, later);
      forall i | 0 < i < |picks|
        ensures FirstTickFrom(ticks, ticks[picks[i - 1]].at + interval, picks[i - 1] + 1, picks[i])
      {
        if i > 1 {
          assert picks[i] == Later(later)[i - 1] && picks[i - 1] == Later(later)[i - 2];
        }
      }
      assert picks[|picks| - 1] == Later(later)[|later| - 1];
    }
  }

  /** An enabled schedule runs at exactly these ticks; a disabled one never does. */
  lemma {:induction false} RunsWhenDue(s: Schedule, ticks: seq<Tick>) returns (picks: seq<int>)
    ensures |picks| == |Times(s, ticks)|
    ensures forall i :: 0 <= i < |picks| ==> 0 <= picks[i] < |ticks| && Times(s, ticks)[i] == ticks[picks[i]].at
    ensures s.enabled ==> RunsAtFirstTicks(ticks, s.nextRunAt, s.intervalSeconds as real, picks)
    ensures !s.enabled ==> picks == []
    decreases |ticks|
  {
    hide RunsAtFirstTicks;
    if ticks == [] {
      picks := [];
      NoTicks(s.nextRunAt, s.intervalSeconds as real);
    } else if Due(s, ticks[0].at) {
      var later := RunsWhenDue(AfterRun(s, ticks[0].at, ticks[0].handlers), ticks[1..]);
      picks := [0] + Later(later);
      RunsFirst(ticks, s.nextRunAt, s.intervalSeconds as real, later);
    } else {
      var later := RunsWhenDue(s, ticks[1..]);
      picks := Later(later);
      if s.enabled {
        RunsNotYet(ticks, s.nextRunAt, s.intervalSeconds as real, later);
      }
    }
  }

  lemma NoTicks(due: real, interval: real)
    ensures RunsAtFirstTicks([], due, interval, [])
  {
  }

  /** What a tick leaves of each schedule: a due, enabled one has run now, is due again one interval later, and
      remembers whether its handler was there and said yes; any other is as it was. */
  lemma TickTells(schedules: seq<Schedule>, at: real, handlers: Handlers, i: nat)
    requires i < |schedules|
    ensures |Ticked(schedules, at, handlers)| == |schedules|
    ensures
      var s, t := schedules[i], Ticked(schedules, at, handlers)[i];
      if s.enabled && s.nextRunAt <= at then
        && t.lastRunAt == Some(at) && t.nextRunAt - at == s.intervalSeconds as real
        && (t.lastStatus == Succeeded <==> s.kind in handlers && handlers[s.kind](s) == Verdict(true))
        && (t.lastStatus == Failed <==> !(s.kind in handlers && handlers[s.kind](s) == Verdict(true)))
        && (t.id, t.name, t.kind, t.toolId, t.intervalSeconds, t.enabled)
             == (s.id, s.name, s.kind, s.toolId, s.intervalSeconds, s.enabled)
      else t == s
  {
  }

  /** Two runs of a schedule that are k runs apart are at least k intervals apart. */
  lemma {:induction false} RunsSpaced(s: Schedule, ticks: seq<Tick>, i: nat, j: nat)
    requires ValidSchedule(s) && i < j < |Times(s, ticks)|
    ensures Times(s, ticks)[j] - Times(s, ticks)[i] >= ((j - i) as real) * s.intervalSeconds as real
    decreases |ticks|
  {
    if Due(s, ticks[0].at) {
      var next := AfterRun(s, ticks[0].at, ticks[0].handlers);
      if i == 0 {
        RunsAfter(next, ticks[1..], j - 1);
        MoreIntervals(j - 1, s.intervalSeconds as real);
      } else {
        RunsSpaced(next, ticks[1..], i - 1, j - 1);
      }
    } else {
      RunsSpaced(s, ticks[1..], i, j);
    }
  }

  // --- all schedules over a series of ticks

  /** The times at which the service ran a given id. */
  function RunsOf(schedules: seq<Schedule>, ticks: seq<Tick>, id: string): seq<real>
    decreases |ticks|
  {
    if ticks == [] then [] else
      (if id in DueIds(schedules, ticks[0].at) then [ticks[0].at] else [])
      + RunsOf(Ticked(schedules, ticks[0].at, ticks[0].handlers), ticks[1..], id)
  }

  lemma TickedValid(schedules: seq<Schedule>, at: real, handlers: Handlers)
    requires AllValid(schedules)
    ensures AllValid(Ticked(schedules, at, handlers))
  {
  }

  /** Schedules do not disturb each other. */
  lemma {:induction false} RunsAreTimes(schedules: seq<Schedule>, ticks: seq<Tick>, i: nat)
    requires AllValid(schedules) && i < |schedules|
    ensures RunsOf(schedules, ticks, schedules[i].id) == Times(schedules[i], ticks)
    decreases |ticks|
  {
    if ticks != [] {
      var t, s := ticks[0], schedules[i];
      var next := Ticked(schedules, t.at, t.handlers);
      TickedValid(schedules, t.at, t.handlers);
      RunsAreTimes(next, ticks[1..], i);
      DueIdsMember(schedules, t.at, s.id);
      if s.id in DueIds(schedules, t.at) {
        var j :| 0 <= j < |schedules| && schedules[j].id == s.id && Due(schedules[j], t.at);
        assert j == i;
      }
    }
  }

  /** In any series of ticks of the service, runs of one schedule that are k runs apart are at least k intervals
      apart. */
  lemma ServiceRunsSpaced(schedules: seq<Schedule>, ticks: seq<Tick>, n: nat, i: nat, j: nat)
    requires AllValid(schedules) && n < |schedules| && i < j < |RunsOf(schedules, ticks, schedules[n].id)|
    ensures
      var runs := RunsOf(schedules, ticks, schedules[n].id);
      runs[j] - runs[i] >= ((j - i) as real) * schedules[n].intervalSeconds as real
  {
    RunsAreTimes(schedules, ticks, n);
    RunsSpaced(schedules[n], ticks, i, j);
  }

  // The list when the first i schedules have been dealt with.
  ghost function Partly(schedules: seq<Schedule>, i: nat, at: real, handlers: Handlers): seq<Schedule>
    requires i <= |schedules|
  {
    Ticked(schedules, at, handlers)[..i] + schedules[i..]
  }

  lemma NothingSaved(schedules: seq<Schedule>, at: real, handlers: Handlers)
    ensures Partly(schedules, 0, at, handlers) == schedules && DueIds(schedules[..0], at) == []
  {
  }

  lemma SaveNext(schedules: seq<Schedule>, i: nat, at: real, handlers: Handlers)
    requires i < |schedules|
    ensures |Partly(schedules, i, at, handlers)| == |schedules|
    ensures Partly(schedules, i + 1, at, handlers) ==
      if Due(schedules[i], at) then Partly(schedules, i, at, handlers)[i := AfterRun(schedules[i], at, handlers)]
      else Partly(schedules, i, at, handlers)
  {
  }

  lemma DueIdsNext(schedules: seq<Schedule>, i: nat, at: real)
    requires i < |schedules|
    ensures DueIds(schedules[..i + 1], at) ==
      DueIds(schedules[..i], at) + if Due(schedules[i], at) then [schedules[i].id] else []
  {
    assert schedules[..i + 1][..i] == schedules[..i];
  }

  lemma PartlyDone(schedules: seq<Schedule>, at: real, handlers: Handlers)
    ensures Partly(schedules, |schedules|, at, handlers) == Ticked(schedules, at, handlers)
    ensures |Ticked(schedules, at, handlers)| == |schedules|
  {
  }

  // --- the service

  class SchedulerService {
    var schedules: seq<Schedule>
    const maxSchedules: nat

    ghost predicate Valid()
      reads this
    {
      AllValid(schedules)
    }

    constructor (maxSchedules: nat)
      ensures Valid() && schedules == [] && this.maxSchedules == maxSchedules
    {
      this.maxSchedules := maxSchedules;
      schedules := [];
    }

    /** add: a schedule with a fresh id, due at once, unless the kind is unknown, there is no room, or it is not
        valid. */
    method Add(id: string, name: string, kind: string, toolId: string, intervalSeconds: int, enabled: bool, now: real)
        returns (ok: bool)
      requires Valid() && forall i :: 0 <= i < |schedules| ==> schedules[i].id != id
      modifies this
      ensures Valid()
      ensures
        var s := Schedule(id, name, kind, toolId, intervalSeconds, enabled, None, now, Never);
        && (ok <==>
              && |old(schedules)| < maxSchedules && kind in {"briefing", "tool"}
              && !Plans.Blank(id) && !Plans.Blank(name) && 60 <= intervalSeconds <= 7 * 24 * 3600
              && (kind == "tool" ==> !Plans.Blank(toolId)))
        && schedules == (if ok then old(schedules) + [s] else old(schedules))
    {
      if kind !in KINDS {
        return false;
      }
      if |schedules| >= maxSchedules {
        return false;
      }
      var s := Schedule(id, name, kind, toolId, intervalSeconds, enabled, None, now, Never);
      if !ValidSchedule(s) {
        return false;
      }
      schedules := schedules + [s];
      ok := true;
    }

    /** tick: every due, enabled schedule runs once and none is left due; a missing handler, a failure and an
        exception all count as a run. */
    method RunDue(at: real, handlers: Handlers) returns (ran: seq<string>)
      requires Valid()
      modifies this
      ensures Valid() && schedules == Ticked(old(schedules), at, handlers) && ran == DueIds(old(schedules), at)
      ensures forall i :: 0 <= i < |schedules| ==> !Due(schedules[i], at)
    {
      hide Partly, Ticked, DueIds, Due, AllValid;
      var listed := schedules;
      ran := [];
      NothingSaved(listed, at, handlers);
      var i := 0;
      TickedValid(listed, at, handlers);
      while i < |listed|
        invariant i <= |listed| && ran == DueIds(listed[..i], at)
        invariant schedules == Partly(listed, i, at, handlers)
      {
        var s := listed[i];
        SaveNext(listed, i, at, handlers);
        DueIdsNext(listed, i, at);
        if Due(s, at) {
          schedules := schedules[i := AfterRun(s, at, handlers)];  // save
          ran := ran + [s.id];
        }
        i := i + 1;
      }
      PartlyDone(listed, at, handlers);
      assert listed[..|listed|] == listed;
      forall k | 0 <= k < |listed| ensures !Due(schedules[k], at) {
        NoneLeftDue(listed, at, handlers, k);
      }
    }
  }
}
