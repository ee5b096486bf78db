/** One delegation from request to stored result, and the results that are kept (delegation/manager.py, _run). */
module DelegationManager {
  import opened Wrappers
  import opened DelegationModels
  import opened DelegationRuns
  import opened DelegationMonitor

  // --- the stored results, oldest first

  datatype Stored = Stored(id: string, result: DelegationResult)

  ghost predicate DistinctIds(s: seq<Stored>) {
    forall i, j :: 0 <= i < j < |s| ==> s[i].id != s[j].id
  }

  // d[id] = result: a known key keeps its place.
  function Put(s: seq<Stored>, e: Stored): seq<Stored> {
    if s == [] then [e]
    else if s[0].id == e.id then [e] + s[1..]
    else [s[0]] + Put(s[1..], e)
  }

  function Newest<T>(s: seq<T>, n: nat): seq<T> {
    if |s| <= n then s else s[|s| - n..]
  }

  /** Storing one more result. */
  function Keep(s: seq<Stored>, e: Stored): seq<Stored> {
    Newest(Put(s, e), RESULTS_KEEP)
  }

  lemma {:induction false} PutKnown(s: seq<Stored>, e: Stored, i: nat)
    requires DistinctIds(s) && i < |s| && s[i].id == e.id
    ensures Put(s, e) == s[i := e]
  {
    if s[0].id != e.id {
      assert i > 0;
      PutKnown(s[1..], e, i - 1);
      assert [s[0]] + s[1..][i - 1 := e] == s[i := e];
    } else {
      assert i == 0;
    }
  }

  lemma {:induction false} PutNew(s: seq<Stored>, e: Stored)
    requires forall i :: 0 <= i < |s| ==> s[i].id != e.id
    ensures Put(s, e) == s + [e]
  {
    if s != [] {
      PutNew(s[1..], e);
      assert [s[0]] + (s[1..] + [e]) == s + [e];
    }
  }

  /** At most 25 results are kept, one per task, and the one just stored is among them, also for a task id that
      is used again. */
  lemma KeepsNew(s: seq<Stored>, e: Stored)
    requires DistinctIds(s) && |s| <= RESULTS_KEEP
    ensures |Keep(s, e)| <= 25 && DistinctIds(Keep(s, e)) && e in Keep(s, e)
    ensures forall x :: x in s && x.id != e.id && x !in Keep(s, e) ==> x == s[0] && |s| == 25
  {
    if i :| 0 <= i < |s| && s[i].id == e.id {
      PutKnown(s, e, i);
      assert s[i := e][i] == e;
      forall x | x in s && x.id != e.id ensures x in s[i := e] {
        var j :| 0 <= j < |s| && s[j] == x;
        assert s[i := e][j] == x;
      }
    } else {
      PutNew(s, e);
      var all := s + [e];
      assert all[|s|] == e && |all| == |s| + 1;
      if |s| == RESULTS_KEEP {
        assert Keep(s, e) == all[1..];
        assert all[1..][|s| - 1] == e;
        forall x | x in s && x != s[0] ensures x in all[1..] {
          var j :| 0 <= j < |s| && s[j] == x;
          assert all[1..][j - 1] == x;
        }
      }
    }
  }

  function KeepAll(history: seq<Stored>): seq<Stored> {
    if history == [] then [] else Keep(KeepAll(history[..|history| - 1]), history[|history| - 1])
  }

  lemma NewestOfNewest<T>(s: seq<T>, e: T, n: nat)
    requires n > 0
    ensures Newest(Newest(s, n) + [e], n) == Newest(s + [e], n)
  {
  }

  /** For tasks that are all different, the kept results are the newest 25 of everything that ever ran. */
  lemma {:induction false} KeptAreNewest(history: seq<Stored>)
    requires DistinctIds(history)
    ensures KeepAll(history) == Newest(history, RESULTS_KEEP)
  {
    hide Put;
    if history != [] {
      var front, e := history[..|history| - 1], history[|history| - 1];
      KeptAreNewest(front);
      var kept := Newest(front, RESULTS_KEEP);
      forall i | 0 <= i < |kept| ensures kept[i].id != e.id {
        assert kept[i] == front[|front| - |kept| + i];
      }
      PutNew(kept, e);
      assert history == front + [e];
      NewestOfNewest(front, e, RESULTS_KEEP);
    }
  }

  // The tasks in the order in which they entered the results. A task whose result is still kept keeps its place; one
  // whose result was dropped enters again.
  function Entered(history: seq<Stored>): seq<string> {
    if history == [] then [] else
      var before, id := Entered(history[..|history| - 1]), history[|history| - 1].id;
      if id in Newest(before, RESULTS_KEEP) then before else before + [id]
  }

  ghost predicate Latest(history: seq<Stored>, e: Stored) {
    exists k :: 0 <= k < |history| && history[k] == e && forall j :: k < j < |history| ==> history[j].id != e.id
  }

  ghost predicate HoldsLatest(kept: seq<Stored>, tasks: seq<string>, history: seq<Stored>) {
    |kept| == |tasks| && forall i :: 0 <= i < |kept| ==> kept[i].id == tasks[i] && Latest(history, kept[i])
  }

  lemma LatestStays(front: seq<Stored>, e: Stored, x: Stored)
    ensures Latest(front + [e], e)
    ensures Latest(front, x) && x.id != e.id ==> Latest(front + [e], x)
  {
    assert (front + [e])[|front|] == e;
    if Latest(front, x) && x.id != e.id {
      var k :| 0 <= k < |front| && front[k] == x && forall j :: k < j < |front| ==> front[j].id != x.id;
      assert (front + [e])[k] == x;
    }
  }

  // One result more, for kept results that are as they should be.
  lemma KeepStep(kept: seq<Stored>, tasks: seq<string>, front: seq<Stored>, e: Stored)
    requires DistinctIds(kept) && HoldsLatest(kept, Newest(tasks, RESULTS_KEEP), front)
    ensures HoldsLatest(Keep(kept, e),
                        Newest(if e.id in Newest(tasks, RESULTS_KEEP) then tasks else tasks + [e.id], RESULTS_KEEP),
                        front + [e])
  {
    hide Latest, Put;
    var ids := Newest(tasks, RESULTS_KEEP);
    forall x ensures Latest(front + [e], e) && (Latest(front, x) && x.id != e.id ==> Latest(front + [e], x)) {
      LatestStays(front, e, x);
    }
    if e.id in ids {
      var i :| 0 <= i < |ids| && ids[i] == e.id;
      PutKnown(kept, e, i);
      assert kept[i].id == e.id;
    } else {
      PutNew(kept, e);
      NewestOfNewest(tasks, e.id, RESULTS_KEEP);
    }
  }

  lemma NothingKept()
    ensures DistinctIds([]) && HoldsLatest([], Newest([], RESULTS_KEEP), [])
  {
  }

  /** Task ids that are used again: the results are those of the 25 tasks that entered last, in that order, and each
      is the latest one of its task. */
  lemma {:induction false} KeptAreLatest(history: seq<Stored>)
    ensures DistinctIds(KeepAll(history)) && |KeepAll(history)| <= RESULTS_KEEP
    ensures HoldsLatest(KeepAll(history), Newest(Entered(history), RESULTS_KEEP), history)
  {
    hide Keep, Latest, DistinctIds, HoldsLatest, Newest;
    if history == [] {
      NothingKept();
    } else {
      var front, e := history[..|history| - 1], history[|history| - 1];
      KeptAreLatest(front);
      KeepsNew(KeepAll(front), e);
      KeepStep(KeepAll(front), Entered(front), front, e);
      assert history == front + [e];
    }
  }

  // --- one run

  // create_session's answer (None when it raises), whether the prompt raises, and the session's environment.
  datatype Executor = Executor(session: Option<string>, promptFails: bool, env: Environment)

  /** What a run amounts to when `busy` delegations are already running. A session that was created is disposed
      exactly once, as the last thing that happens to it. */
  ghost predicate RunOk(x: Executor, limits: DelegationLimits, started: real, busy: nat, result: DelegationResult,
                        calls: seq<SessionCall>, log: seq<Entry>)
  {
    if busy >= limits.maxSessionCount then
      result == DelegationResult(Failed, Some(SessionCount), 0, 0) && calls == [] && log == []
    else if x.session.None? then
      result == DelegationResult(Failed, Some(SessionCreateFailed), 0, 0) && calls == [] && log == []
    else
      && calls == [Create(x.session.value), SendPrompt]
           + (if result.state == DelegationState.Completed then [] else AbortCalls(x.session))
           + [Dispose(x.session.value)]
      && if x.promptFails then result == DelegationResult(Failed, Some(PromptSendFailed), 0, 0) && log == []
         else
           && Closed(x.env, limits, started + limits.maxWallTimeSeconds, log, result)
           && WithinBounds(x.env, limits.maxWallTimeSeconds, log)
  }

  /** A session is created first and disposed last, each once; it is aborted, before that, exactly when the executor
      did not complete and it has an id. */
  lemma AbortedUnlessCompleted(x: Executor, limits: DelegationLimits, started: real, busy: nat,
                               result: DelegationResult, calls: seq<SessionCall>, log: seq<Entry>)
    requires RunOk(x, limits, started, busy, result, calls, log) && calls != []
    ensures busy < limits.maxSessionCount && x.session.Some? && |calls| >= 3
    ensures calls[0] == Create(x.session.value) && calls[1] == SendPrompt
    ensures calls[|calls| - 1] == Dispose(x.session.value)
    ensures |calls| == 4 <==> result.state != DelegationState.Completed && x.session.value != ""
    ensures |calls| == 4 ==> calls[2] == Abort(x.session.value)
    ensures |calls| <= 4
  {
    hide Closed, WithinBounds;
  }

  lemma EndedRun(env: Environment, limits: DelegationLimits, deadline: real, session: string,
                 status: DelegationRunStatus, log: seq<Entry>, end: Ending)
    requires Ended(env, limits, deadline, session, status, log, end)
    ensures IsTerminal(end.result.state) && Closed(env, limits, deadline, log, end.result)
    ensures end.calls == if end.result.state == DelegationState.Completed then [] else AbortCalls(Some(session))
  {
  }

  // What RunSession puts together is a whole run.
  lemma SessionOk(x: Executor, limits: DelegationLimits, started: real, busy: nat, session: string, end: Ending,
                  log: seq<Entry>)
    requires x.session == Some(session) && busy < limits.maxSessionCount
    requires end.calls == (if end.result.state == DelegationState.Completed then [] else AbortCalls(Some(session)))
    requires if x.promptFails then
               end.result == DelegationResult(Failed, Some(PromptSendFailed), 0, 0) && log == []
             else
               && Closed(x.env, limits, started + limits.maxWallTimeSeconds, log, end.result)
               && WithinBounds(x.env, limits.maxWallTimeSeconds, log)
    ensures RunOk(x, limits, started, busy, end.result,
                  [Create(session), SendPrompt] + end.calls + [Dispose(session)], log)
  {
    hide Closed, WithinBounds, AbortCalls;
  }

  lemma AddedAndRemoved(m: map<string, DelegationRunStatus>, id: string, status: DelegationRunStatus)
    ensures m[id := status] - {id} == m - {id}
  {
  }

  class Manager {
    var running: map<string, DelegationRunStatus>
    var results: seq<Stored>

    ghost predicate Valid()
      reads this
    {
      DistinctIds(results) && |results| <= RESULTS_KEEP
    }

    constructor ()
      ensures Valid() && running == map[] && results == []
    {
      running, results := map[], [];
    }

    /** _run */
    method Run(id: string, x: Executor, limits: DelegationLimits, started: real)
        returns (result: DelegationResult, calls: seq<SessionCall>, log: seq<Entry>)
      requires Valid() && limits.Valid() && ClockRuns(x.env) && x.env.entered >= started
      modifies this
      ensures Valid() && RunOk(x, limits, started, |old(running)|, result, calls, log)
      ensures IsTerminal(result.state)
      ensures results == Keep(old(results), Stored(id, result))
      ensures |old(running)| >= limits.maxSessionCount ==>
        result == DelegationResult(Failed, Some(SessionCount), 0, 0) && calls == [] && running == old(running)
      ensures running ==
        if |old(running)| < limits.maxSessionCount && x.session.Some? && !x.promptFails then old(running) - {id}
        else old(running)
    {
      hide Closed, WithinBounds, Ended, Keep, DistinctIds, LegalPath;
      var status := new DelegationRunStatus();
      status.Transition(Starting);
      calls, log := [], [];
      var end;
      if |running| >= limits.maxSessionCount {
        end := FailResult(status, None, SessionCount);
      } else if x.session.None? {
        end := FailResult(status, None, SessionCreateFailed);
      } else {
        end, calls, log := RunSession(id, x, limits, started, x.session.value, status);
      }
      result := end.result;
      Store(id, result);
    }

    // From the created session to its disposal.
    method RunSession(id: string, x: Executor, limits: DelegationLimits, started: real, session: string,
                      status: DelegationRunStatus)
        returns (end: Ending, calls: seq<SessionCall>, log: seq<Entry>)
      requires limits.Valid() && ClockRuns(x.env) && x.env.entered >= started
      requires x.session == Some(session) && |running| < limits.maxSessionCount
      requires status.Valid() && status.state == Starting && status.permissionRequests == status.outputBytes == 0
      modifies this`running, status
      ensures RunOk(x, limits, started, |old(running)|, end.result, calls, log) && IsTerminal(end.result.state)
      ensures running == if x.promptFails then old(running) else old(running) - {id}
    {
      hide Closed, WithinBounds, Ended, LegalPath, Keep, DistinctIds, RunOk, ClockRuns, Events, SweepCount, AbortCalls;
      log := [];
      status.Transition(Running);
      calls := [Create(session), SendPrompt];
      if x.promptFails {
        end := FailResult(status, Some(session), PromptSendFailed);
      } else {
        running := running[id := status];
        end, log := Monitor(x.env, limits, session, status, started);
        AddedAndRemoved(old(running), id, status);
        EndedRun(x.env, limits, started + limits.maxWallTimeSeconds, session, status, log, end);
        running := running - {id};
      }
      calls := calls + end.calls + [Dispose(session)];
      SessionOk(x, limits, started, |old(running)|, session, end, log);
    }

    method Store(id: string, result: DelegationResult)
      requires Valid()
      modifies this`results
      ensures Valid() && results == Keep(old(results), Stored(id, result))
    {
      KeepsNew(results, Stored(id, result));
      results := Put(results, Stored(id, result));
      while |results| > RESULTS_KEEP
        invariant Newest(results, RESULTS_KEEP) == Keep(old(results), Stored(id, result))
      {
        results := results[1..];
      }
    }
  }
}
