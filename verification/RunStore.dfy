/** The store of finished runs (agent/history.py, AgentRunStore). */
module RunStore {
  import opened Wrappers
  import opened TextOrder
  import opened RunHistory
  import opened RunReplacements
  import IsoTime

  const MAX_RUNS := 500

  // --- what 500 rows are enough for

  ghost predicate Timed(r: Run) {
    exists t :: FinishedAt(r, t)
  }

  /** All finishing times are texts of times in UTC. */
  ghost predicate InUtc(history: seq<Run>) {
    forall i :: 0 <= i < |history| ==> Timed(history[i])
  }

  /** Whatever was recorded, as long as the deficit is at most d, the first `limit` rows are right. */
  ghost predicate AlwaysListedRight(d: nat, limit: nat) {
    forall history {:trigger Deficit(history)} ::
      InUtc(history) && Deficit(history) <= d ==> ListedRight(history, MAX_RUNS, limit)
  }

  // Some time of the first of January 2024.
  function Stamp(micro: nat): IsoTime.DateTime {
    IsoTime.MIDNIGHT.(micro := micro)
  }

  // A run that finished at such a time; the id has as many letters as the number says.
  function RunAt(number: nat, micro: nat): Run {
    Run(seq(number, _ => 'x'), IsoTime.IsoFormat(Stamp(micro)), "")
  }

  // One run more than the table holds, a microsecond apart.
  function FullTable(): (history: seq<Run>)
    ensures |history| == MAX_RUNS + 1 && forall i :: 0 <= i <= MAX_RUNS ==> history[i] == RunAt(i, 1000 + i)
  {
    seq(MAX_RUNS + 1, i requires 0 <= i <= MAX_RUNS => RunAt(i, 1000 + i))
  }

  lemma InOrder(a: nat, b: nat)
    requires a < b < 10000
    ensures Before(IsoTime.IsoFormat(Stamp(a)), IsoTime.IsoFormat(Stamp(b)))
  {
    hide Before, IsoTime.IsoFormat;
    IsoTime.TextOrderIsTimeOrder(Stamp(a), Stamp(b));
  }

  lemma StampIsTime(r: Run, micro: nat)
    requires micro < 10000 && r.finishedAt == IsoTime.IsoFormat(Stamp(micro))
    ensures Timed(r)
  {
    hide IsoTime.IsoFormat;
    assert FinishedAt(r, Stamp(micro));
  }

  lemma FullTableDistinct()
    ensures DistinctIds(FullTable()) && MAX_RUNS < |Ranked(FullTable())| && InUtc(FullTable())
  {
    hide Ranked, Timed, IsoTime.IsoFormat;
    RankedLength(FullTable());
    forall i | 0 <= i <= MAX_RUNS ensures Timed(FullTable()[i]) {
      StampIsTime(FullTable()[i], 1000 + i);
    }
    forall i, j | 0 <= i < j <= MAX_RUNS ensures FullTable()[i].taskId != FullTable()[j].taskId {
      assert |FullTable()[i].taskId| == i && |FullTable()[j].taskId| == j;
    }
  }

  // The d latest of them can be recorded again, each with an earlier time.
  lemma RecordedAgain(d: nat) returns (again: seq<Run>)
    requires d <= MAX_RUNS && DistinctIds(FullTable()) && MAX_RUNS < |Ranked(FullTable())| && InUtc(FullTable())
    ensures Demoting(FullTable(), again) && |again| == d && InUtc(FullTable() + again)
  {
    hide Ranked, Timed, IsoTime.IsoFormat, Before, DistinctIds;
    var history := FullTable();
    again := seq(d, i requires 0 <= i < d =>
      Run(Ranked(history)[i].taskId, IsoTime.IsoFormat(Stamp(999 - i)), ""));
    forall i | 0 <= i < d ensures Timed(again[i]) {
      StampIsTime(again[i], 999 - i);
    }
    assert forall i :: 0 <= i < |history + again| ==> Timed((history + again)[i]);
    forall i {:trigger again[i]} | 0 <= i < d ensures EarlierThanAll(again[i], history + again[..i]) {
      var runs := history + again[..i];
      forall k | 0 <= k < |runs| ensures Before(again[i].finishedAt, runs[k].finishedAt) {
        if k <= MAX_RUNS {
          InOrder(999 - i, 1000 + k);
        } else {
          InOrder(999 - i, 999 - (k - |history|));
        }
      }
    }
  }

  /** A list of `limit` rows is right for every history in UTC with a deficit of at most d exactly when the table has
      room for both. */
  lemma AlwaysListedRightIff(d: nat, limit: nat)
    requires 1 <= limit <= MAX_RUNS
    ensures AlwaysListedRight(d, limit) <==> d + limit <= MAX_RUNS
  {
    hide ListedRight, Deficit, Demotions, Ranked, Demoting, DistinctIds, InUtc;
    if d + limit <= MAX_RUNS {
      forall history {:trigger Deficit(history)} | InUtc(history) && Deficit(history) <= d
        ensures ListedRight(history, MAX_RUNS, limit)
      {
        WithinDeficit(history, MAX_RUNS, limit);
      }
    } else {
      var lost := MAX_RUNS - limit + 1;
      FullTableDistinct();
      var again := RecordedAgain(lost);
      AfterDemotions(FullTable(), again, MAX_RUNS);
      DeficitAtMostDemotions(FullTable() + again);
      DemotedIff(FullTable(), again, MAX_RUNS, limit);
    }
  }

  lemma FirstOfDemoting(history: seq<Run>, again: Run)
    requires Demoting(history, [again])
    ensures EarlierThanAll(again, history) && Ranked(history) != [] && again.taskId == Ranked(history)[0].taskId
  {
    hide Ranked, DistinctIds, EarlierThanAll;
    assert [again][0] == again && history + [again][..0] == history;
  }

  /** A single run recorded again with an earlier time makes the table of 500 rows wrong: one of the newest 500 runs is
      missing. */
  lemma NewestMissing() returns (history: seq<Run>, missing: Run)
    ensures missing in Take(Ranked(Unpruned(history)), MAX_RUNS) && missing !in Recorded(history, MAX_RUNS)
    ensures Demotions(history) == 1 && InUtc(history)
  {
    hide Ranked, Unpruned, Recorded, Demotions, Demoting, DistinctIds, Before, InUtc, IsoTime.IsoFormat;
    FullTableDistinct();
    var demoted := RecordedAgain(1);
    var again := demoted[0];
    assert demoted == [again];
    history, missing := FullTable() + [again], Ranked(FullTable())[MAX_RUNS];
    AfterDemotions(FullTable(), demoted, MAX_RUNS);
    FirstOfDemoting(FullTable(), again);
    DroppedStaysDropped(FullTable(), again, MAX_RUNS);
  }

  class AgentRunStore {
    var table: seq<Run>             // in the order of the rowids
    ghost var recorded: seq<Run>    // every run ever recorded, in order of arrival

    ghost predicate Valid()
      reads this
    {
      table == Recorded(recorded, MAX_RUNS)
    }

    constructor ()
      ensures Valid() && recorded == []
    {
      table, recorded := [], [];
    }

    method Record(r: Run)
      requires Valid()
      modifies this
      ensures Valid() && recorded == old(recorded) + [r]
    {
      table := Put(table, r);
      table := Prune(table, MAX_RUNS);
      recorded := recorded + [r];
    }

    /** list: the newest runs ever recorded, although older ones are gone. */
    method List(limit: int) returns (r: Option<seq<Run>>)
      requires Valid()
      ensures r.Some? <==> 1 <= limit <= 200
      ensures r.Some? && NeverFallsOut(recorded, MAX_RUNS) ==> r.value == Take(Ranked(Unpruned(recorded)), limit)
      ensures r.Some? && Deficit(recorded) + limit <= MAX_RUNS ==> r.value == Take(Ranked(Unpruned(recorded)), limit)
      ensures r.Some? && DistinctIds(recorded) ==> r.value == Take(Ranked(recorded), limit)
      ensures r.Some? && (NeverFallsOut(recorded, MAX_RUNS) || Deficit(recorded) + limit <= MAX_RUNS) ==>
        exists picks :: NewestRuns(recorded, limit, r.value, picks)
    {
      if limit < 1 || limit > 200 {
        return None;
      }
      ghost var picks := NewestAt(recorded, limit);
      r := Some(Take(Ranked(table), limit));
      if NeverFallsOut(recorded, MAX_RUNS) {
        NewestSoFar(recorded, MAX_RUNS);
        TakeTake(Ranked(Unpruned(recorded)), limit, MAX_RUNS);
      }
      if DistinctIds(recorded) {
        DistinctUndemoted(recorded);
      }
      if Deficit(recorded) + limit <= MAX_RUNS {
        WithinDeficit(recorded, MAX_RUNS, limit);
      }
    }
  }
}
