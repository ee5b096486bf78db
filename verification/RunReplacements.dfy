/** The bounded table of runs when task ids are recorded again (agent/history.py, INSERT OR REPLACE). */
module RunReplacements {
  import opened TextOrder
  import opened RunHistory
  import IsoTime

  /** The table that is never pruned: the latest row of every id, in the order of the rowids. */
  function Unpruned(history: seq<Run>): seq<Run> {
    if history == [] then [] else Put(Unpruned(history[..|history| - 1]), history[|history| - 1])
  }

  // The list without its p-th run.
  function Dropped(s: seq<Run>, p: nat): seq<Run>
    requires p < |s|
  {
    s[..p] + s[p + 1..]
  }

  lemma KeepDrops(s: seq<Run>, ids: set<string>, p: nat)
    requires DistinctIds(s) && p < |s| && s[p].taskId !in ids
    requires forall x :: x in s && x.taskId != s[p].taskId ==> x.taskId in ids
    ensures Keep(s, ids) == Dropped(s, p)
  {
    hide Keep;
    var a, b := s[..p], s[p + 1..];
    assert s == a + ([s[p]] + b);
    KeepConcat(a, [s[p]] + b, ids);
    KeepConcat([s[p]], b, ids);
    KeepEverything(a, ids);
    KeepEverything(b, ids);
    KeepNothing([s[p]], ids);
  }

  lemma PutDistinct(rows: seq<Run>, r: Run)
    requires DistinctIds(rows)
    ensures DistinctIds(Put(rows, r))
  {
    hide Keep;
    var ids := Ids(rows) - {r.taskId};
    KeepDistinct(rows, ids);
    forall x | x in Keep(rows, ids) ensures x.taskId != r.taskId {
      KeepMember(rows, ids, x);
    }
  }

  lemma {:induction false} KeepDistinct(rows: seq<Run>, ids: set<string>)
    requires DistinctIds(rows)
    ensures DistinctIds(Keep(rows, ids))
  {
    if rows != [] {
      var front, r := rows[..|rows| - 1], rows[|rows| - 1];
      KeepDistinct(front, ids);
      forall x | x in Keep(front, ids) ensures x.taskId != r.taskId {
        KeepMember(front, ids, x);
      }
    }
  }

  lemma {:induction false} UnprunedDistinct(history: seq<Run>)
    ensures DistinctIds(Unpruned(history))
  {
    hide Put;
    if history != [] {
      UnprunedDistinct(history[..|history| - 1]);
      PutDistinct(Unpruned(history[..|history| - 1]), history[|history| - 1]);
    }
  }

  // The places of the rows with these ids.
  ghost predicate PlacesWith(rows: seq<Run>, ids: set<string>, places: seq<nat>) {
    && Increasing(places, |rows|) && forall k :: 0 <= k < |rows| ==> (k in places <==> rows[k].taskId in ids)
  }

  ghost predicate Increasing(places: seq<nat>, n: nat) {
    && (forall i :: 0 <= i < |places| ==> places[i] < n)
    && (forall i, j :: 0 <= i < j < |places| ==> places[i] < places[j])
  }

  lemma PlacesWithStep(front: seq<Run>, r: Run, ids: set<string>, before: seq<nat>)
    requires PlacesWith(front, ids, before)
    ensures PlacesWith(front + [r], ids, if r.taskId in ids then before + [|front|] else before)
  {
    var places := before + [|front|];
    assert places[|before|] == |front| && |front| !in before;
    assert forall k :: 0 <= k < |front| ==> (front + [r])[k] == front[k] && (k in places <==> k in before);
  }

  lemma {:induction false} KeepAt(rows: seq<Run>, ids: set<string>) returns (places: seq<nat>)
    ensures PlacesWith(rows, ids, places) && |Keep(rows, ids)| == |places|
    ensures forall i :: 0 <= i < |places| ==> places[i] < |rows| && Keep(rows, ids)[i] == rows[places[i]]
  {
    hide PlacesWith;
    if rows == [] {
      places := [];
      NoneWith(ids);
    } else {
      var front, r := rows[..|rows| - 1], rows[|rows| - 1];
      var before := KeepAt(front, ids);
      PlacesWithStep(front, r, ids, before);
      places := if r.taskId in ids then before + [|front|] else before;
      assert rows == front + [r];
    }
  }

  lemma NoneWith(ids: set<string>)
    ensures PlacesWith([], ids, [])
  {
  }

  // Nothing with this run's id was recorded after it.
  predicate IsLatest(history: seq<Run>, k: nat)
    requires k < |history|
  {
    forall m :: k < m < |history| ==> history[m].taskId != history[k].taskId
  }

  /** The places in the history where an id was recorded for the last time. */
  ghost predicate LatestPlaces(history: seq<Run>, places: seq<nat>) {
    && Increasing(places, |history|) && forall k :: 0 <= k < |history| ==> (k in places <==> IsLatest(history, k))
  }

  // The earlier places that stay, when the last run takes the place of an earlier one with its id.
  lemma LatestStep(front: seq<Run>, r: Run, before: seq<nat>, rows: seq<Run>, kept: seq<nat>) returns (places: seq<nat>)
    requires LatestPlaces(front, before) && |rows| == |before|
    requires forall i :: 0 <= i < |before| ==> before[i] < |front| && rows[i] == front[before[i]]
    requires PlacesWith(rows, Ids(rows) - {r.taskId}, kept)
    ensures LatestPlaces(front + [r], places) && |places| == |kept| + 1 && places[|kept|] == |front|
    ensures forall i :: 0 <= i < |kept| ==> kept[i] < |before| && places[i] == before[kept[i]]
  {
    hide IsLatest;
    var history := front + [r];
    var earlier := seq(|kept|, i requires 0 <= i < |kept| => before[kept[i]]);
    places := earlier + [|front|];
    forall k | 0 <= k < |history| ensures k in places <==> IsLatest(history, k) {
      LatestAfter(front, r, k);
      if k == |front| {
        assert places[|kept|] == k;
      } else {
        assert k in places <==> k in earlier;
        EarlierPlace(front, r, before, rows, kept, earlier, k);
      }
    }
  }

  lemma LatestAfter(front: seq<Run>, r: Run, k: nat)
    requires k <= |front|
    ensures IsLatest(front + [r], k) <==> k == |front| || (IsLatest(front, k) && front[k].taskId != r.taskId)
  {
    var history := front + [r];
    assert history[|front|] == r && forall m :: 0 <= m < |front| ==> history[m] == front[m];
  }

  lemma EarlierPlace(front: seq<Run>, r: Run, before: seq<nat>, rows: seq<Run>, kept: seq<nat>, earlier: seq<nat>,
                     k: nat)
    requires LatestPlaces(front, before) && |rows| == |before| && k < |front|
    requires forall i :: 0 <= i < |before| ==> before[i] < |front| && rows[i] == front[before[i]]
    requires PlacesWith(rows, Ids(rows) - {r.taskId}, kept) && |earlier| == |kept|
    requires forall i :: 0 <= i < |kept| ==> kept[i] < |before| && earlier[i] == before[kept[i]]
    ensures k in earlier <==> IsLatest(front, k) && front[k].taskId != r.taskId
  {
    hide IsLatest;
    if k in earlier {
      var i :| 0 <= i < |earlier| && earlier[i] == k;
      assert kept[i] in kept && k in before;
    }
    if IsLatest(front, k) && front[k].taskId != r.taskId {
      assert k in before;
      var j :| 0 <= j < |before| && before[j] == k;
      assert rows[j].taskId in Ids(rows) && j in kept;
      var i :| 0 <= i < |kept| && kept[i] == j;
      assert earlier[i] == k;
    }
  }

  /** The table that is never pruned holds, in order of arrival, the latest recording of every id. */
  lemma {:induction false} UnprunedAt(history: seq<Run>) returns (places: seq<nat>)
    ensures LatestPlaces(history, places) && |Unpruned(history)| == |places|
    ensures forall i :: 0 <= i < |places| ==> places[i] < |history| && Unpruned(history)[i] == history[places[i]]
  {
    hide LatestPlaces, PlacesWith, Keep, Ids;
    if history == [] {
      places := [];
      NoneLatest();
    } else {
      var front, r := history[..|history| - 1], history[|history| - 1];
      var before := UnprunedAt(front);
      var rows := Unpruned(front);
      var kept := KeepAt(rows, Ids(rows) - {r.taskId});
      places := LatestStep(front, r, before, rows, kept);
      assert history == front + [r];
    }
  }

  lemma NoneLatest()
    ensures LatestPlaces([], [])
  {
  }

  /** The runs recorded at these places: latest recordings of their ids, latest time first and of equal times the one
      recorded later, with all of the first `limit` and no more. */
  ghost predicate NewestRuns(history: seq<Run>, limit: nat, listed: seq<Run>, picks: seq<nat>) {
    && |listed| == |picks| <= limit
    && (forall i :: 0 <= i < |picks| ==>
          picks[i] < |history| && IsLatest(history, picks[i]) && listed[i] == history[picks[i]])
    && (forall i, j :: 0 <= i < j < |picks| ==> RanksFirst(history, picks[i], picks[j]))
    && (forall k :: 0 <= k < |history| && IsLatest(history, k) && k !in picks ==>
          |picks| == limit && forall i :: 0 <= i < |picks| ==> RanksFirst(history, picks[i], k))
  }

  // Ranking the latest rows ranks their places in the history.
  lemma PlacesRanked(history: seq<Run>, rows: seq<Run>, latest: seq<nat>, ranking: seq<nat>) returns (all: seq<nat>)
    requires LatestPlaces(history, latest) && |rows| == |latest| && Ranking(rows, ranking)
    requires forall i :: 0 <= i < |rows| ==> latest[i] < |history| && rows[i] == history[latest[i]]
    ensures |all| == |ranking| && forall i :: 0 <= i < |all| ==> ranking[i] < |latest| && all[i] == latest[ranking[i]]
    ensures forall i :: 0 <= i < |all| ==> IsLatest(history, all[i])
    ensures forall i, j :: 0 <= i < j < |all| ==> RanksFirst(history, all[i], all[j])
  {
    hide IsLatest, Before;
    all := seq(|ranking|, i requires 0 <= i < |ranking| => latest[ranking[i]]);
    forall i | 0 <= i < |all| ensures IsLatest(history, all[i]) {
      assert latest[ranking[i]] in latest;
    }
    forall i, j | 0 <= i < j < |all| ensures RanksFirst(history, all[i], all[j]) {
      assert RanksFirst(rows, ranking[i], ranking[j]);
    }
  }

  // Every row has a place in the ranking.
  lemma EveryRowRanked(rows: seq<Run>, ranking: seq<nat>, j: nat) returns (i: nat)
    requires DistinctIds(rows) && |ranking| == |Ranked(rows)| && j < |rows|
    requires forall i :: 0 <= i < |ranking| ==> ranking[i] < |rows| && Ranked(rows)[i] == rows[ranking[i]]
    ensures i < |ranking| && ranking[i] == j
  {
    hide Ranked;
    SameMembers(rows);
    assert rows[j] in Ranked(rows);
    i :| 0 <= i < |ranking| && Ranked(rows)[i] == rows[j];
  }

  lemma FirstOfAll(history: seq<Run>, limit: nat, ranked: seq<Run>, all: seq<nat>)
    requires |ranked| == |all|
    requires forall i :: 0 <= i < |all| ==>
      all[i] < |history| && IsLatest(history, all[i]) && ranked[i] == history[all[i]]
    requires forall i, j :: 0 <= i < j < |all| ==> RanksFirst(history, all[i], all[j])
    requires forall k :: 0 <= k < |history| && IsLatest(history, k) ==> k in all
    ensures NewestRuns(history, limit, Take(ranked, limit), if |all| <= limit then all else all[..limit])
  {
    hide IsLatest, RanksFirst;
    var picks := if |all| <= limit then all else all[..limit];
    forall k | 0 <= k < |history| && IsLatest(history, k) && k !in picks
      ensures |picks| == limit && forall i :: 0 <= i < |picks| ==> RanksFirst(history, picks[i], k)
    {
      var j :| 0 <= j < |all| && all[j] == k;
      assert forall i :: 0 <= i < |picks| ==> all[i] == picks[i] && picks[i] in picks && i != j;
      assert limit <= j;
    }
  }

  /** What the first rows of the ranking are, without the table and without the ranking. */
  lemma NewestAt(history: seq<Run>, limit: nat) returns (picks: seq<nat>)
    ensures NewestRuns(history, limit, Take(Ranked(Unpruned(history)), limit), picks)
  {
    hide Unpruned, Ranked, Take, IsLatest, RanksFirst, NewestRuns, Ranking;
    var rows := Unpruned(history);
    var latest := UnprunedAt(history);
    var ranking := RankedAt(rows);
    var all := PlacesRanked(history, rows, latest, ranking);
    UnprunedDistinct(history);
    forall k | 0 <= k < |history| && IsLatest(history, k) ensures k in all {
      var j :| 0 <= j < |latest| && latest[j] == k;
      var i := EveryRowRanked(rows, ranking, j);
      assert all[i] == k;
    }
    FirstOfAll(history, limit, Ranked(rows), all);
    picks := if |all| <= limit then all else all[..limit];
  }

  // The ranking after a row is recorded, for an id at place p of the ranking, or for a new id.
  lemma PutRanked(rows: seq<Run>, r: Run)
    requires DistinctIds(rows)
    ensures forall p {:trigger Dropped(Ranked(rows), p)} ::
      (0 <= p < |Ranked(rows)| && Ranked(rows)[p].taskId == r.taskId
       ==> Ranked(Put(rows, r)) == Insert(Dropped(Ranked(rows), p), r))
    ensures (forall x :: x in Ranked(rows) ==> x.taskId != r.taskId) ==> Ranked(Put(rows, r)) == Insert(Ranked(rows), r)
  {
    hide Keep, Insert, Ranked, Before, Dropped;
    var ids := Ids(rows) - {r.taskId};
    RankedOne(Keep(rows, ids), r);
    RankedKeep(rows, ids);
    RankedDistinct(rows);
    SameMembers(rows);
    IdsMember(rows);
    forall p | 0 <= p < |Ranked(rows)| && Ranked(rows)[p].taskId == r.taskId
      ensures Ranked(Put(rows, r)) == Insert(Dropped(Ranked(rows), p), r)
    {
      KeepDrops(Ranked(rows), ids, p);
    }
    if forall x :: x in Ranked(rows) ==> x.taskId != r.taskId {
      KeepEverything(Ranked(rows), ids);
    }
  }

  lemma SameMembers(rows: seq<Run>)
    ensures forall x :: x in Ranked(rows) <==> x in rows
  {
    hide Ranked;
    RankedIsSorted(rows);
    forall x ensures x in Ranked(rows) <==> x in rows {
      assert x in Ranked(rows) <==> x in multiset(Ranked(rows));
      assert x in rows <==> x in multiset(rows);
    }
  }

  /** r replaces the row at place p of the first n, and is ranked below the first row that was left out. */
  predicate FallsOut(ranked: seq<Run>, r: Run, n: nat, p: int) {
    0 <= p < n < |ranked| && ranked[p].taskId == r.taskId && Before(r.finishedAt, ranked[n].finishedAt)
  }

  ghost predicate NeverFallsOut(history: seq<Run>, n: nat) {
    forall m, p {:trigger FallsOut(Ranked(Unpruned(history[..m])), history[m], n, p)} ::
      0 <= m < |history| ==> !FallsOut(Ranked(Unpruned(history[..m])), history[m], n, p)
  }

  lemma {:induction false} InsertFront(a: seq<Run>, b: seq<Run>, r: Run)
    requires b != [] ==> !Before(r.finishedAt, b[0].finishedAt)
    ensures Insert(a + b, r) == Insert(a, r) + b && |Insert(a, r)| == |a| + 1
  {
    hide Before;
    if a == [] {
      assert a + b == b;
    } else {
      assert (a + b)[1..] == a[1..] + b;
      InsertFront(a[1..], b, r);
    }
  }

  // Cutting the ranking first makes no difference when the new row does not fall out.
  lemma PutTake(ranked: seq<Run>, r: Run, n: nat, p: nat)
    requires Descending(ranked) && p < |ranked| && ranked[p].taskId == r.taskId && !FallsOut(ranked, r, n, p)
    ensures if p < n then Take(Insert(Dropped(Take(ranked, n), p), r), n) == Take(Insert(Dropped(ranked, p), r), n)
            else Take(Insert(Take(ranked, n), r), n) == Take(Insert(Dropped(ranked, p), r), n)
  {
    hide Before, Insert, Descending;
    if p >= n {
      assert Take(Dropped(ranked, p), n) == Take(ranked, n);
      InsertTake(Dropped(ranked, p), r, n);
      InsertTake(Take(ranked, n), r, n);
    } else if n < |ranked| {
      var a, b := Dropped(ranked[..n], p), ranked[n..];
      assert Dropped(ranked, p) == a + b;
      InsertFront(a, b, r);
    }
  }

  lemma {:induction false} InsertBehind(a: seq<Run>, b: seq<Run>, r: Run)
    requires forall x :: x in a ==> Before(r.finishedAt, x.finishedAt)
    ensures Insert(a + b, r) == a + Insert(b, r)
  {
    hide Before;
    if a == [] {
      assert a + b == b;
    } else {
      assert (a + b)[1..] == a[1..] + b;
      InsertBehind(a[1..], b, r);
    }
  }

  lemma BeforeAtLeast(r: string, y: string, x: string)
    requires Before(r, y) && !Before(x, y)
    ensures Before(r, x)
  {
    hide Before;
    BeforeIsTotal(x, y);
    if x != y {
      BeforeIsTransitive(r, y, x);
    }
  }

  // When it falls out, the table keeps it instead of the row that should move up.
  lemma FallLoses(ranked: seq<Run>, r: Run, n: nat, p: nat)
    requires Descending(ranked) && FallsOut(ranked, r, n, p)
    ensures Take(Insert(Dropped(Take(ranked, n), p), r), n) != Take(Insert(Dropped(ranked, p), r), n)
  {
    hide Before, Insert, Descending;
    forall k | 0 <= k <= n ensures Before(r.finishedAt, ranked[k].finishedAt) {
      if k < n {
        DescendingAt(ranked, k, n);
        BeforeAtLeast(r.finishedAt, ranked[n].finishedAt, ranked[k].finishedAt);
      }
    }
    var a, next, rest := Dropped(ranked[..n], p), ranked[n], ranked[n + 1..];
    assert Dropped(Take(ranked, n), p) == a + [];
    InsertBehind(a, [], r);
    InsertOnly(r);
    assert Dropped(ranked, p) == (a + [next]) + rest;
    InsertBehind(a + [next], rest, r);
    assert Take(a + [r], n)[n - 1] == r && Take((a + [next]) + Insert(rest, r), n)[n - 1] == next;
    BeforeIsTotal(r.finishedAt, r.finishedAt);
  }

  lemma InsertOnly(r: Run)
    ensures Insert([], r) == [r]
  {
  }

  // --- the theorem

  /** At every moment of the history the table holds the newest n rows. */
  ghost predicate AlwaysNewest(history: seq<Run>, n: nat) {
    forall m {:trigger history[..m]} :: 0 <= m <= |history| ==>
      Ranked(Recorded(history[..m], n)) == Take(Ranked(Unpruned(history[..m])), n)
  }

  // One row more, when the table so far is right.
  lemma RecordedNext(front: seq<Run>, r: Run, n: nat)
    requires Ranked(Recorded(front, n)) == Take(Ranked(Unpruned(front)), n) && DistinctIds(Recorded(front, n))
    ensures Ranked(Recorded(front + [r], n)) == Take(Ranked(Put(Recorded(front, n), r)), n)
    ensures DistinctIds(Recorded(front + [r], n))
  {
    hide Put, Ranked, Take, Prune, Unpruned;
    var rows := Put(Recorded(front, n), r);
    assert (front + [r])[..|front|] == front;
    PutDistinct(Recorded(front, n), r);
    PruneRanked(rows, n);
    PruneDistinct(rows, n);
  }

  lemma PruneDistinct(rows: seq<Run>, n: nat)
    requires DistinctIds(rows)
    ensures DistinctIds(Prune(rows, n))
  {
    hide Keep, Ids, Take, Ranked;
    KeepDistinct(rows, Ids(Take(Ranked(rows), n)));
  }

  // What both tables' rankings become, in terms of the unpruned one.
  lemma StepRanked(front: seq<Run>, r: Run, n: nat)
    requires Ranked(Recorded(front, n)) == Take(Ranked(Unpruned(front)), n) && DistinctIds(Recorded(front, n))
    ensures
      var ranked := Ranked(Unpruned(front));
      && (forall p {:trigger Dropped(ranked, p)} :: (0 <= p < |ranked| && ranked[p].taskId == r.taskId ==>
            && Ranked(Unpruned(front + [r])) == Insert(Dropped(ranked, p), r)
            && Ranked(Put(Recorded(front, n), r))
                 == if p < n then Insert(Dropped(Take(ranked, n), p), r) else Insert(Take(ranked, n), r)))
      && ((forall x :: x in ranked ==> x.taskId != r.taskId) ==>
            && Ranked(Unpruned(front + [r])) == Insert(ranked, r)
            && Ranked(Put(Recorded(front, n), r)) == Insert(Take(ranked, n), r))
  {
    hide Put, Ranked, Prune, Before, Insert;
    var ranked := Ranked(Unpruned(front));
    assert (front + [r])[..|front|] == front;
    UnprunedDistinct(front);
    RankedDistinct(Unpruned(front));
    PutRanked(Unpruned(front), r);
    PutRanked(Recorded(front, n), r);
    forall p | 0 <= p < |ranked| && ranked[p].taskId == r.taskId
      ensures Ranked(Unpruned(front + [r])) == Insert(Dropped(ranked, p), r)
      ensures Ranked(Put(Recorded(front, n), r))
        == if p < n then Insert(Dropped(Take(ranked, n), p), r) else Insert(Take(ranked, n), r)
    {
      if p < n {
        assert Take(ranked, n)[p] == ranked[p];
      } else {
        assert forall k :: 0 <= k < n ==> Take(ranked, n)[k] == ranked[k];
      }
    }
  }

  // One row that does not fall out keeps the table right.
  lemma StepRight(front: seq<Run>, r: Run, n: nat)
    requires Ranked(Recorded(front, n)) == Take(Ranked(Unpruned(front)), n) && DistinctIds(Recorded(front, n))
    requires forall p :: !FallsOut(Ranked(Unpruned(front)), r, n, p)
    ensures Ranked(Recorded(front + [r], n)) == Take(Ranked(Unpruned(front + [r])), n)
    ensures DistinctIds(Recorded(front + [r], n))
  {
    hide Put, Ranked, Take, Recorded, Unpruned, Before, Insert, Dropped, FallsOut, Descending;
    var ranked := Ranked(Unpruned(front));
    RankedIsSorted(Unpruned(front));
    RecordedNext(front, r, n);
    StepRanked(front, r, n);
    if p :| 0 <= p < |ranked| && ranked[p].taskId == r.taskId {
      PutTake(ranked, r, n, p);
      assert Ranked(Unpruned(front + [r])) == Insert(Dropped(ranked, p), r);
    } else {
      InsertTake(ranked, r, n);
    }
  }

  lemma {:induction false} NewestSoFar(history: seq<Run>, n: nat)
    requires NeverFallsOut(history, n)
    ensures Ranked(Recorded(history, n)) == Take(Ranked(Unpruned(history)), n) && DistinctIds(Recorded(history, n))
  {
    hide Put, Prune, Ranked, Take, Before, FallsOut;
    if history == [] {
      NothingRecorded(n);
    } else {
      var front, r := history[..|history| - 1], history[|history| - 1];
      NeverFallsOutBefore(history, n, |front|);
      NewestSoFar(front, n);
      forall p ensures !FallsOut(Ranked(Unpruned(front)), r, n, p) {
        assert !FallsOut(Ranked(Unpruned(history[..|front|])), history[|front|], n, p);
      }
      assert history == front + [r];
      StepRight(front, r, n);
    }
  }

  lemma NeverFallsOutBefore(history: seq<Run>, n: nat, m: nat)
    requires NeverFallsOut(history, n) && m <= |history|
    ensures NeverFallsOut(history[..m], n)
  {
    hide Ranked, Unpruned, FallsOut;
    forall k, p {:trigger FallsOut(Ranked(Unpruned(history[..m][..k])), history[..m][k], n, p)} | 0 <= k < m
      ensures !FallsOut(Ranked(Unpruned(history[..m][..k])), history[..m][k], n, p)
    {
      assert history[..m][..k] == history[..k];
      assert !FallsOut(Ranked(Unpruned(history[..k])), history[k], n, p);
    }
  }

  // A row that falls out makes the table wrong.
  lemma StepWrong(front: seq<Run>, r: Run, n: nat, p: int)
    requires FallsOut(Ranked(Unpruned(front)), r, n, p)
    requires Ranked(Recorded(front, n)) == Take(Ranked(Unpruned(front)), n) && DistinctIds(Recorded(front, n))
    ensures Ranked(Recorded(front + [r], n)) != Take(Ranked(Unpruned(front + [r])), n)
  {
    hide Put, Ranked, Take, Recorded, Unpruned, Before, Insert, Dropped, Descending;
    var ranked := Ranked(Unpruned(front));
    RankedIsSorted(Unpruned(front));
    RecordedNext(front, r, n);
    StepRanked(front, r, n);
    FallLoses(ranked, r, n, p);
    assert Ranked(Unpruned(front + [r])) == Insert(Dropped(ranked, p), r);
  }

  lemma {:induction false} RecordedDistinct(history: seq<Run>, n: nat)
    ensures DistinctIds(Recorded(history, n))
  {
    hide Put, Prune;
    if history != [] {
      var front, r := history[..|history| - 1], history[|history| - 1];
      RecordedDistinct(front, n);
      PutDistinct(Recorded(front, n), r);
      PruneDistinct(Put(Recorded(front, n), r), n);
    }
  }

  lemma WrongAfter(history: seq<Run>, n: nat, m: nat, p: int)
    requires m < |history| && FallsOut(Ranked(Unpruned(history[..m])), history[m], n, p)
    requires Ranked(Recorded(history[..m], n)) == Take(Ranked(Unpruned(history[..m])), n)
    ensures Ranked(Recorded(history[..m + 1], n)) != Take(Ranked(Unpruned(history[..m + 1])), n)
  {
    hide Recorded, Ranked, Unpruned, Take;
    RecordedDistinct(history[..m], n);
    StepWrong(history[..m], history[m], n, p);
    assert history[..m + 1] == history[..m] + [history[m]];
  }

  /** The table of at most n rows always holds the newest ones exactly when no run that is among the first n is
      recorded again with a finishing time before that of the first run left out. */
  lemma AlwaysNewestIff(history: seq<Run>, n: nat)
    ensures AlwaysNewest(history, n) <==> NeverFallsOut(history, n)
  {
    hide Recorded, Ranked, Unpruned, Take, FallsOut;
    if NeverFallsOut(history, n) {
      forall m {:trigger history[..m]} | 0 <= m <= |history|
        ensures Ranked(Recorded(history[..m], n)) == Take(Ranked(Unpruned(history[..m])), n)
      {
        NeverFallsOutBefore(history, n, m);
        NewestSoFar(history[..m], n);
      }
    } else {
      var m, p :| 0 <= m < |history| && FallsOut(Ranked(Unpruned(history[..m])), history[m], n, p);
      if Ranked(Recorded(history[..m], n)) == Take(Ranked(Unpruned(history[..m])), n) {
        WrongAfter(history, n, m, p);
      }
    }
  }

  // --- how many of the newest rows are still listed

  // r replaces a row that has a later time.
  predicate Demotes(rows: seq<Run>, r: Run) {
    exists i :: 0 <= i < |rows| && rows[i].taskId == r.taskId && Before(r.finishedAt, rows[i].finishedAt)
  }

  predicate NewAndNewest(rows: seq<Run>, r: Run) {
    forall i :: 0 <= i < |rows| ==> rows[i].taskId != r.taskId && !Before(r.finishedAt, rows[i].finishedAt)
  }

  /** How often a run was recorded again with an earlier time. */
  function Demotions(history: seq<Run>): nat {
    if history == [] then 0 else
      var front := history[..|history| - 1];
      Demotions(front) + if Demotes(Unpruned(front), history[|history| - 1]) then 1 else 0
  }

  /** The same, where each new run that is newer than all others makes up for one of them. */
  function Deficit(history: seq<Run>): nat {
    if history == [] then 0 else
      var front, r := history[..|history| - 1], history[|history| - 1];
      if Demotes(Unpruned(front), r) then Deficit(front) + 1
      else if NewAndNewest(Unpruned(front), r) && Deficit(front) > 0 then Deficit(front) - 1
      else Deficit(front)
  }

  lemma {:induction false} DeficitAtMostDemotions(history: seq<Run>)
    ensures Deficit(history) <= Demotions(history)
  {
    hide Demotes, NewAndNewest, Unpruned;
    if history != [] {
      DeficitAtMostDemotions(history[..|history| - 1]);
    }
  }

  // The place of an id in the ranking, or the length.
  function PlaceOf(s: seq<Run>, id: string): (p: nat)
    ensures p <= |s| && (p < |s| ==> s[p].taskId == id)
    ensures forall i :: 0 <= i < p ==> s[i].taskId != id
  {
    if s == [] || s[0].taskId == id then 0 else 1 + PlaceOf(s[1..], id)
  }

  function Others(s: seq<Run>, id: string): seq<Run> {
    if PlaceOf(s, id) < |s| then Dropped(s, PlaceOf(s, id)) else s
  }

  lemma PutInRanking(rows: seq<Run>, r: Run)
    requires DistinctIds(rows)
    ensures Ranked(Put(rows, r)) == Insert(Others(Ranked(rows), r.taskId), r)
  {
    hide Put, Insert, Ranked, Dropped;
    PutRanked(rows, r);
    var p := PlaceOf(Ranked(rows), r.taskId);
    assert p < |Ranked(rows)| ==> Ranked(Put(rows, r)) == Insert(Dropped(Ranked(rows), p), r);
  }

  lemma SamePlace(a: seq<Run>, b: seq<Run>, id: string, k: nat)
    requires Take(a, k) == Take(b, k)
    ensures PlaceOf(a, id) < k && PlaceOf(a, id) < |a| ==> PlaceOf(b, id) == PlaceOf(a, id) < |b|
  {
    var p := PlaceOf(a, id);
    if p < k && p < |a| {
      assert Take(a, k)[p] == a[p];
      assert p < |Take(b, k)| && forall i :: 0 <= i <= p ==> b[i] == Take(b, k)[i] == Take(a, k)[i] == a[i];
    }
  }

  // Taking an id out of two lists with the same first k.
  lemma OthersAgree(a: seq<Run>, b: seq<Run>, id: string, k: nat)
    requires Take(a, k) == Take(b, k)
    ensures k > 0 ==> Take(Others(a, id), k - 1) == Take(Others(b, id), k - 1)
    ensures !(PlaceOf(b, id) < k && PlaceOf(b, id) < |b|) ==> Take(Others(a, id), k) == Take(Others(b, id), k)
  {
    SamePlace(a, b, id, k);
    SamePlace(b, a, id, k);
    OthersTake(a, id, k);
    OthersTake(b, id, k);
  }

  lemma OthersTake(s: seq<Run>, id: string, k: nat)
    ensures
      var p := PlaceOf(s, id);
      if p < k && p < |s| then k > 0 && Take(Others(s, id), k - 1) == Dropped(Take(s, k), p)
      else Take(Others(s, id), k) == Take(s, k) && (k > 0 ==> Take(Others(s, id), k - 1) == Take(Take(s, k), k - 1))
  {
    hide Take, Dropped;
    var p := PlaceOf(s, id);
    if p < |s| {
      DroppedTake(s, p, k);
    }
    if k > 0 {
      TakeTake(Others(s, id), k - 1, k);
      TakeTake(s, k - 1, k);
    }
  }

  lemma DroppedTake(s: seq<Run>, p: nat, k: nat)
    requires p < |s|
    ensures if p < k then p < |Take(s, k)| && Take(Dropped(s, p), k - 1) == Dropped(Take(s, k), p)
            else Take(Dropped(s, p), k) == Take(s, k)
  {
    if p < k && k < |s| {
      assert s[..k][p + 1..] == s[p + 1..][..k - 1 - p];
    }
  }

  lemma InsertAgrees(a: seq<Run>, b: seq<Run>, r: Run, k: nat)
    requires Take(a, k) == Take(b, k)
    ensures Take(Insert(a, r), k) == Take(Insert(b, r), k)
  {
    hide Take, Insert;
    InsertTake(a, r, k);
    InsertTake(b, r, k);
  }

  // Recording r in two tables whose first k rows are the same.
  lemma RecordingAgrees(a: seq<Run>, b: seq<Run>, r: Run, k: nat)
    requires Take(a, k) == Take(b, k)
    ensures k > 0 ==> Take(Insert(Others(a, r.taskId), r), k - 1) == Take(Insert(Others(b, r.taskId), r), k - 1)
    ensures Descending(a) && Descending(b) && !Demotes(b, r) ==>
      Take(Insert(Others(a, r.taskId), r), k) == Take(Insert(Others(b, r.taskId), r), k)
    ensures NewAndNewest(a, r) && NewAndNewest(b, r) ==>
      Take(Insert(Others(a, r.taskId), r), k + 1) == Take(Insert(Others(b, r.taskId), r), k + 1)
  {
    hide Take, Insert, Others, Descending, Before;
    OthersAgree(a, b, r.taskId, k);
    if k > 0 {
      InsertAgrees(Others(a, r.taskId), Others(b, r.taskId), r, k - 1);
    }
    if Descending(a) && Descending(b) && !Demotes(b, r) {
      var p := PlaceOf(b, r.taskId);
      if p < k && p < |b| {
        SamePlace(b, a, r.taskId, k);
        SameRow(a, b, k, p);
        NotFallingAgrees(a, r, k, p);
        NotFallingAgrees(b, r, k, p);
      } else {
        InsertAgrees(Others(a, r.taskId), Others(b, r.taskId), r, k);
      }
    }
    if NewAndNewest(a, r) && NewAndNewest(b, r) {
      InsertedFirst(a, r, k);
      InsertedFirst(b, r, k);
    }
  }

  lemma SameRow(a: seq<Run>, b: seq<Run>, k: nat, p: nat)
    requires Take(a, k) == Take(b, k) && p < k && p < |a| && p < |b|
    ensures a[p] == b[p]
  {
    assert Take(a, k)[p] == a[p] && Take(b, k)[p] == b[p];
  }

  lemma NotFallingAgrees(s: seq<Run>, r: Run, k: nat, p: nat)
    requires Descending(s) && p == PlaceOf(s, r.taskId) < |s| && p < k && !Before(r.finishedAt, s[p].finishedAt)
    ensures Take(Insert(Others(s, r.taskId), r), k) == Take(Insert(Dropped(Take(s, k), p), r), k)
  {
    hide Insert, Take, Before, Descending;
    if k < |s| {
      DescendingAt(s, p, k);
      AtLeastIsTransitive(r.finishedAt, s[p].finishedAt, s[k].finishedAt);
    }
    PutTake(s, r, k, p);
  }

  lemma InsertedFirst(s: seq<Run>, r: Run, k: nat)
    requires NewAndNewest(s, r)
    ensures Take(Insert(Others(s, r.taskId), r), k + 1) == [r] + Take(s, k)
  {
    hide Before;
    assert Others(s, r.taskId) == s && Insert(s, r) == [r] + s;
  }

  // --- the newest rows that a table keeps, whatever was recorded

  lemma {:induction false} RecordedWithin(history: seq<Run>, n: nat)
    ensures |Recorded(history, n)| <= n && forall x :: x in Recorded(history, n) ==> x in Unpruned(history)
  {
    hide Ranked, Put, Prune, Take;
    if history != [] {
      var front, r := history[..|history| - 1], history[|history| - 1];
      RecordedWithin(front, n);
      RecordedDistinct(front, n);
      var rows := Put(Recorded(front, n), r);
      PutDistinct(Recorded(front, n), r);
      PruneRanked(rows, n);
      RankedLength(Prune(rows, n));
      TakeLength(Ranked(rows), n);
      forall x | x in Prune(rows, n) ensures x in Put(Unpruned(front), r) {
        PruneMember(rows, n, x);
        PutMember(Recorded(front, n), r, x);
        PutMember(Unpruned(front), r, x);
      }
    }
  }

  lemma PruneMember(rows: seq<Run>, n: nat, x: Run)
    requires x in Prune(rows, n)
    ensures x in rows
  {
    KeepMember(rows, Ids(Take(Ranked(rows), n)), x);
  }

  lemma TakeLength(s: seq<Run>, n: nat)
    ensures |Take(s, n)| <= n
  {
  }

  lemma RankedLength(rows: seq<Run>)
    ensures |Ranked(rows)| == |rows|
  {
    hide Ranked, Descending;
    RankedIsSorted(rows);
    assert |multiset(Ranked(rows))| == |multiset(rows)|;
  }

  lemma PutMember(rows: seq<Run>, r: Run, x: Run)
    ensures x in Put(rows, r) <==> x == r || (x in rows && x.taskId != r.taskId)
  {
    hide Keep;
    KeepMember(rows, Ids(rows) - {r.taskId}, x);
    IdsMember(rows);
  }

  lemma SameChanges(rows: seq<Run>, ranked: seq<Run>, r: Run)
    requires forall x :: x in ranked ==> x in rows
    ensures Demotes(ranked, r) ==> Demotes(rows, r)
    ensures NewAndNewest(rows, r) ==> NewAndNewest(ranked, r)
  {
    hide Before;
    if i :| 0 <= i < |ranked| && ranked[i].taskId == r.taskId && Before(r.finishedAt, ranked[i].finishedAt) {
      assert ranked[i] in rows;
    }
    if NewAndNewest(rows, r) {
      forall i | 0 <= i < |ranked| ensures ranked[i].taskId != r.taskId && !Before(r.finishedAt, ranked[i].finishedAt) {
        assert ranked[i] in rows;
      }
    }
  }

  // One more recording, for tables whose first k rows are the same.
  lemma NextAgrees(front: seq<Run>, r: Run, n: nat, k: nat, next: nat)
    requires Take(Ranked(Recorded(front, n)), k) == Take(Ranked(Unpruned(front)), k) && k <= n && next <= n
    requires next < k || (next == k && !Demotes(Unpruned(front), r))
             || (next == k + 1 && NewAndNewest(Unpruned(front), r))
    ensures Take(Ranked(Recorded(front + [r], n)), next) == Take(Ranked(Unpruned(front + [r])), next)
  {
    hide Put, Prune, Take, Ranked, Insert, Others, Demotes, NewAndNewest, Unpruned, Recorded, Descending;
    var table, all := Recorded(front, n), Unpruned(front);
    RecordedDistinct(front, n);
    UnprunedDistinct(front);
    PutInRanking(table, r);
    PutInRanking(all, r);
    RankedIsSorted(table);
    RankedIsSorted(all);
    RecordedWithin(front, n);
    SameMembers(table);
    SameMembers(all);
    SameChanges(all, Ranked(table), r);
    SameChanges(all, Ranked(all), r);
    RecordingAgrees(Ranked(table), Ranked(all), r, k);
    RecordedOne(front, r, n);
    UnprunedOne(front, r);
    PutDistinct(table, r);
    PruneRanked(Put(table, r), n);
    TakeTake(Ranked(Put(table, r)), next, n);
    if next < k {
      TakeTake(Ranked(Put(table, r)), next, k - 1);
      TakeTake(Ranked(Put(all, r)), next, k - 1);
    }
  }

  lemma RecordedOne(front: seq<Run>, r: Run, n: nat)
    ensures Recorded(front + [r], n) == Prune(Put(Recorded(front, n), r), n)
  {
    hide Put, Prune;
    assert (front + [r])[..|front|] == front;
  }

  /** A table of n rows holds the newest ones, down to as many as its deficit leaves: each run recorded again with an
      earlier time costs at most one place, each new and newest run makes up for one. */
  lemma {:induction false} NewestKept(history: seq<Run>, n: nat)
    ensures Deficit(history) <= n ==>
      Take(Ranked(Recorded(history, n)), n - Deficit(history)) == Take(Ranked(Unpruned(history)), n - Deficit(history))
  {
    hide Put, Prune, Take, Ranked, Demotes, NewAndNewest, Unpruned, Recorded;
    if history == [] {
      NothingInTables(n);
    } else {
      var front, r := history[..|history| - 1], history[|history| - 1];
      assert history == front + [r];
      NewestKept(front, n);
      if Deficit(front) <= n && Deficit(history) <= n {
        NextAgrees(front, r, n, n - Deficit(front), n - Deficit(history));
      } else if Deficit(history) <= n {
        TakeTake(Ranked(Recorded(history, n)), 0, 0);
        TakeTake(Ranked(Unpruned(history)), 0, 0);
      }
    }
  }

  lemma NothingInTables(n: nat)
    ensures Ranked(Recorded([], n)) == Ranked(Unpruned([])) == []
  {
  }

  /** The first `limit` rows of the table are the newest of all. */
  ghost predicate ListedRight(history: seq<Run>, n: nat, limit: nat) {
    Take(Ranked(Recorded(history, n)), limit) == Take(Ranked(Unpruned(history)), limit)
  }

  lemma WithinDeficit(history: seq<Run>, n: nat, limit: nat)
    requires Deficit(history) + limit <= n
    ensures ListedRight(history, n, limit)
  {
    hide Take, Ranked, Unpruned, Recorded, Deficit;
    NewestKept(history, n);
    TakeTake(Ranked(Recorded(history, n)), limit, n - Deficit(history));
    TakeTake(Ranked(Unpruned(history)), limit, n - Deficit(history));
  }

  /** When no id repeats, nothing is ever demoted, and everything recorded counts. */
  lemma {:induction false} DistinctUndemoted(history: seq<Run>)
    requires DistinctIds(history)
    ensures Deficit(history) == 0 && Demotions(history) == 0 && Unpruned(history) == history
  {
    hide Put, NewAndNewest, Before;
    if history != [] {
      var front, r := history[..|history| - 1], history[|history| - 1];
      DistinctUndemoted(front);
      assert history == front + [r];
      PutNew(front, r);
    }
  }

  /** No row that is missing from the table is later than one that is listed. */
  lemma ListedAreNewest(history: seq<Run>, n: nat, limit: nat, listed: Run, missing: Run)
    requires Deficit(history) + limit <= n && listed in Take(Ranked(Recorded(history, n)), limit)
    requires missing in Unpruned(history) && missing !in Recorded(history, n)
    ensures !Before(listed.finishedAt, missing.finishedAt)
  {
    hide Before, Recorded, Unpruned, Ranked, Deficit, Descending;
    WithinDeficit(history, n, limit);
    RankedIsSorted(Unpruned(history));
    SameMembers(Unpruned(history));
    SameMembers(Recorded(history, n));
    var all := Ranked(Unpruned(history));
    var j :| 0 <= j < |all| && all[j] == missing;
    var i :| 0 <= i < |Take(all, limit)| && Take(all, limit)[i] == listed;
    if j < limit {
      assert Take(all, limit)[j] == missing && missing in Take(Ranked(Recorded(history, n)), limit);
      TakeMember(Ranked(Recorded(history, n)), limit, missing);
    }
    DescendingAt(all, i, j);
  }

  /** In terms of time: no missing run finished later than a listed one. */
  lemma ListedAreNewestInTime(history: seq<Run>, n: nat, limit: nat, listed: Run, s: IsoTime.DateTime, missing: Run,
                              t: IsoTime.DateTime)
    requires Deficit(history) + limit <= n && listed in Take(Ranked(Recorded(history, n)), limit)
    requires missing in Unpruned(history) && missing !in Recorded(history, n)
    requires FinishedAt(listed, s) && FinishedAt(missing, t)
    ensures IsoTime.Instant(s) >= IsoTime.Instant(t)
  {
    hide Before, FinishedAt, Recorded, Unpruned, Ranked, Deficit, Take, IsoTime.Instant;
    ListedAreNewest(history, n, limit, listed, missing);
    FinishedInOrder(listed, s, missing, t);
  }

  // --- histories that lose rows

  lemma UnprunedOne(front: seq<Run>, r: Run)
    ensures Unpruned(front + [r]) == Put(Unpruned(front), r)
  {
    hide Put;
    assert (front + [r])[..|front|] == front;
  }

  lemma PutNew(rows: seq<Run>, r: Run)
    requires forall x :: x in rows ==> x.taskId != r.taskId
    ensures Put(rows, r) == rows + [r]
  {
    hide Keep;
    KeepEverything(rows, Ids(rows) - {r.taskId});
  }

  predicate EarlierThanAll(r: Run, runs: seq<Run>) {
    forall i :: 0 <= i < |runs| ==> Before(r.finishedAt, runs[i].finishedAt)
  }

  /** After a history without repetitions, the runs that finished last are recorded again, one after the other, each
      with the earliest time so far. */
  ghost predicate Demoting(history: seq<Run>, again: seq<Run>) {
    && DistinctIds(history) && |again| <= |Ranked(history)|
    && (forall i {:trigger again[i]} :: 0 <= i < |again| ==>
          again[i].taskId == Ranked(history)[i].taskId && EarlierThanAll(again[i], history + again[..i]))
  }

  // The first row of a ranking is recorded again with the earliest time.
  lemma FirstDemoted(rows: seq<Run>, r: Run)
    requires DistinctIds(rows) && rows != [] && Ranked(rows) != [] && Ranked(rows)[0].taskId == r.taskId
    requires EarlierThanAll(r, Ranked(rows))
    ensures Ranked(Put(rows, r)) == Ranked(rows)[1..] + [r] && Demotes(rows, r)
  {
    hide Put, Ranked, Insert, Before;
    var ranked := Ranked(rows);
    PutInRanking(rows, r);
    assert Others(ranked, r.taskId) == Dropped(ranked, 0) == ranked[1..] + [];
    InsertBehind(ranked[1..], [], r);
    InsertOnly(r);
    SameMembers(rows);
    assert ranked[0] in rows;
  }

  lemma InRanking(history: seq<Run>, again: seq<Run>, r: Run, part: seq<Run>)
    requires EarlierThanAll(r, history + again) && forall x :: x in part ==> x in Ranked(history) || x in again
    ensures EarlierThanAll(r, part)
  {
    hide Ranked, Before;
    SameMembers(history);
    forall i | 0 <= i < |part| ensures Before(r.finishedAt, part[i].finishedAt) {
      assert part[i] in history + again;
    }
  }

  /** Both rankings, after d runs were demoted: the full one goes on with the run that the table lost. */
  lemma {:induction false} AfterDemotions(history: seq<Run>, again: seq<Run>, n: nat)
    requires Demoting(history, again) && |again| <= n < |history|
    ensures n < |Ranked(history)|
    ensures Ranked(Unpruned(history + again)) == Ranked(history)[|again|..] + again
    ensures Ranked(Recorded(history + again, n)) == Ranked(history)[|again|..n] + again
    ensures Demotions(history + again) == |again|
  {
    hide *;
    RankedLength(history);
    if again == [] {
      NothingDemoted(history, again, n);
    } else {
      var before, r := again[..|again| - 1], again[|again| - 1];
      OneFewer(history, again);
      AfterDemotions(history, before, n);
      DemotedOnce(history, before, r, n);
      assert history + again == (history + before) + [r] && again == before + [r];
    }
  }

  lemma NothingDemoted(history: seq<Run>, again: seq<Run>, n: nat)
    requires Demoting(history, again) && again == [] && n < |history|
    ensures Ranked(Unpruned(history + again)) == Ranked(history)[0..] + again
    ensures n < |Ranked(history)| && Ranked(Recorded(history + again, n)) == Ranked(history)[0..n] + again
    ensures Demotions(history + again) == 0
  {
    hide Ranked, Recorded, Unpruned, Demotions, DistinctIds;
    assert history + again == history;
    RankedLength(history);
    DistinctUndemoted(history);
    NewestKept(history, n);
    RecordedWithin(history, n);
    RankedLength(Recorded(history, n));
  }

  lemma OneFewer(history: seq<Run>, again: seq<Run>)
    requires Demoting(history, again) && again != []
    ensures
      var before, r := again[..|again| - 1], again[|again| - 1];
      Demoting(history, before) && |before| < |Ranked(history)| && r.taskId == Ranked(history)[|before|].taskId
      && EarlierThanAll(r, history + before)
  {
    hide Ranked, DistinctIds, EarlierThanAll;
    var before := again[..|again| - 1];
    assert forall i :: 0 <= i < |before| ==> before[i] == again[i] && before[..i] == again[..i];
  }

  lemma DemotedOnce(history: seq<Run>, before: seq<Run>, r: Run, n: nat)
    requires |before| < n < |Ranked(history)|
    requires Demotions(history + before) == |before|
    requires Ranked(Unpruned(history + before)) == Ranked(history)[|before|..] + before
    requires Ranked(Recorded(history + before, n)) == Ranked(history)[|before|..n] + before
    requires r.taskId == Ranked(history)[|before|].taskId && EarlierThanAll(r, history + before)
    ensures Ranked(Unpruned(history + before + [r])) == Ranked(history)[|before| + 1..] + (before + [r])
    ensures Ranked(Recorded(history + before + [r], n)) == Ranked(history)[|before| + 1..n] + (before + [r])
    ensures Demotions(history + before + [r]) == |before| + 1
  {
    hide Ranked, Recorded, Unpruned, Before, Demotes, EarlierThanAll, Put, Prune, Demotions;
    var h, d, ranked := history + before, |before|, Ranked(history);
    var all, table := Unpruned(h), Recorded(h, n);
    UnprunedDistinct(h);
    RecordedDistinct(h, n);
    InRanking(history, before, r, Ranked(all));
    InRanking(history, before, r, Ranked(table));
    RankedLength(all);
    RankedLength(table);
    FirstDemoted(all, r);
    FirstDemoted(table, r);
    UnprunedOne(h, r);
    RecordedOne(h, r, n);
    PutDistinct(table, r);
    PruneRanked(Put(table, r), n);
    assert ranked[d..n][1..] == ranked[d + 1..n] && ranked[d..][1..] == ranked[d + 1..];
    DemotionsOne(h, r);
  }

  lemma DemotionsOne(front: seq<Run>, r: Run)
    ensures Demotions(front + [r]) == Demotions(front) + if Demotes(Unpruned(front), r) then 1 else 0
  {
    hide Demotes, Unpruned;
    assert (front + [r])[..|front|] == front;
  }

  /** How far such a table can be trusted, exactly: d demotions leave the first n - d rows right, and no more. */
  lemma DemotedIff(history: seq<Run>, again: seq<Run>, n: nat, limit: nat)
    requires Demoting(history, again) && |again| <= n < |history| && n > 0
    ensures ListedRight(history + again, n, limit) <==> |again| + limit <= n
  {
    hide Ranked, Recorded, Unpruned, Before, Demotions, EarlierThanAll, DistinctIds, Take;
    AfterDemotions(history, again, n);
    var ranked, d := Ranked(history), |again|;
    var all, table := ranked[d..] + again, ranked[d..n] + again;
    if d + limit > n {
      RankedDistinct(history);
      if d > 0 {
        assert again[0].taskId == ranked[0].taskId;
        FirstAndLast(ranked, n);
        assert table[n - d] == again[0];
      }
      assert all[n - d] == ranked[n];
      TakeDiffers(table, all, limit, n - d);
    } else {
      TakeShort(ranked[d..n], again, limit);
      TakeShort(ranked[d..], again, limit);
      assert ranked[d..n][..limit] == ranked[d..][..limit];
    }
  }

  lemma TakeDiffers(a: seq<Run>, b: seq<Run>, limit: nat, k: nat)
    requires k < limit && k < |b| && (k < |a| ==> a[k] != b[k])
    ensures Take(a, limit) != Take(b, limit)
  {
    assert Take(b, limit)[k] == b[k];
    assert k < |a| ==> Take(a, limit)[k] == a[k];
  }

  lemma TakeShort(a: seq<Run>, b: seq<Run>, limit: nat)
    requires limit <= |a|
    ensures Take(a + b, limit) == a[..limit]
  {
  }

  lemma FirstAndLast(s: seq<Run>, n: nat)
    requires DistinctIds(s) && 0 < n < |s|
    ensures s[0].taskId != s[n].taskId
  {
  }

  /** A single run recorded again with the earliest time: the run that was just outside the table is now among the
      newest n, and is not in the table. */
  lemma DroppedStaysDropped(history: seq<Run>, again: Run, n: nat)
    requires DistinctIds(history) && 0 < n < |history| && Ranked(history) != []
    requires again.taskId == Ranked(history)[0].taskId && EarlierThanAll(again, history)
    ensures n < |Ranked(history)| && Ranked(history)[n] in Take(Ranked(Unpruned(history + [again])), n)
    ensures Ranked(history)[n] !in Recorded(history + [again], n)
    ensures !AlwaysNewest(history + [again], n)
  {
    hide Ranked, Recorded, Unpruned, Before, EarlierThanAll, Demotions;
    assert [again][..0] == [] && history + [] == history;
    assert Demoting(history, [again]);
    AfterDemotions(history, [again], n);
    RankedDistinct(history);
    var ranked, table := Ranked(history), Ranked(Recorded(history + [again], n));
    assert (ranked[1..] + [again])[n - 1] == ranked[n] == Take(ranked[1..] + [again], n)[n - 1];
    SameMembers(Recorded(history + [again], n));
    assert ranked[n] !in table by {
      forall i | 0 <= i < |table| ensures table[i].taskId != ranked[n].taskId {
        assert table[i] == if i < n - 1 then ranked[i + 1] else again;
      }
    }
    assert (history + [again])[..|history| + 1] == history + [again];
    TakeIsNot(table, Ranked(Unpruned(history + [again])), n, ranked[n]);
  }

  lemma TakeIsNot(table: seq<Run>, all: seq<Run>, n: nat, x: Run)
    requires x in Take(all, n) && x !in table
    ensures table != Take(all, n)
  {
  }
}
