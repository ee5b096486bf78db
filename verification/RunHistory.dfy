/** The bounded table of finished agent runs (agent/history.py). */
module RunHistory {
  import opened TextOrder
  import IsoTime

  // finishedAt is the stored text of the time; details stands for the other columns.
  datatype Run = Run(taskId: string, finishedAt: string, details: string)

  predicate DistinctIds(runs: seq<Run>) {
    forall i, j :: 0 <= i < j < |runs| ==> runs[i].taskId != runs[j].taskId
  }

  // --- ORDER BY finished_at DESC, rowid DESC, for rows given in the order of their rowids

  // r has the greatest rowid, so it comes before every row that did not finish later.
  function Insert(ranked: seq<Run>, r: Run): seq<Run> {
    if ranked == [] then [r]
    else if Before(r.finishedAt, ranked[0].finishedAt) then [ranked[0]] + Insert(ranked[1..], r)
    else [r] + ranked
  }

  function Ranked(rows: seq<Run>): seq<Run> {
    if rows == [] then [] else Insert(Ranked(rows[..|rows| - 1]), rows[|rows| - 1])
  }

  function Take(s: seq<Run>, n: nat): seq<Run> {
    if |s| <= n then s else s[..n]
  }

  function Ids(runs: seq<Run>): set<string> {
    set i | 0 <= i < |runs| :: runs[i].taskId
  }

  function Keep(runs: seq<Run>, ids: set<string>): seq<Run> {
    if runs == [] then [] else
      var r := runs[|runs| - 1];
      Keep(runs[..|runs| - 1], ids) + if r.taskId in ids then [r] else []
  }

  /** DELETE of every row that is not among the first n. */
  function Prune(rows: seq<Run>, n: nat): seq<Run> {
    Keep(rows, Ids(Take(Ranked(rows), n)))
  }

  // INSERT OR REPLACE: the new row has the greatest rowid.
  function Put(rows: seq<Run>, r: Run): seq<Run> {
    Keep(rows, Ids(rows) - {r.taskId}) + [r]
  }

  function Recorded(history: seq<Run>, n: nat): seq<Run> {
    if history == [] then [] else Prune(Put(Recorded(history[..|history| - 1], n), history[|history| - 1]), n)
  }

  // --- the ranking

  lemma AtLeastIsTransitive(a: string, b: string, c: string)
    requires !Before(a, b) && !Before(b, c)
    ensures !Before(a, c)
  {
  }

  ghost predicate AtLeastAll(t: string, runs: seq<Run>) {
    forall r :: r in runs ==> !Before(t, r.finishedAt)
  }

  ghost predicate Descending(s: seq<Run>) {
    s == [] || (AtLeastAll(s[0].finishedAt, s[1..]) && Descending(s[1..]))
  }

  lemma {:induction false} InsertElements(s: seq<Run>, r: Run)
    ensures multiset(Insert(s, r)) == multiset(s) + multiset{r}
  {
    if s != [] {
      assert s == [s[0]] + s[1..];
      InsertElements(s[1..], r);
    }
  }

  lemma InsertMember(s: seq<Run>, r: Run, x: Run)
    ensures x in Insert(s, r) <==> x == r || x in s
  {
  }

  lemma {:induction false} InsertKeepsOrder(s: seq<Run>, r: Run)
    requires Descending(s)
    ensures Descending(Insert(s, r))
  {
    hide Before;
    if s != [] {
      if Before(r.finishedAt, s[0].finishedAt) {
        InsertKeepsOrder(s[1..], r);
        BeforeIsTotal(r.finishedAt, s[0].finishedAt);
        forall x | x in Insert(s[1..], r) ensures !Before(s[0].finishedAt, x.finishedAt) {
          InsertMember(s[1..], r, x);
        }
        assert Insert(s, r)[1..] == Insert(s[1..], r);
      } else {
        forall x | x in s ensures !Before(r.finishedAt, x.finishedAt) {
          if x in s[1..] {
            AtLeastIsTransitive(r.finishedAt, s[0].finishedAt, x.finishedAt);
          }
        }
        assert Insert(s, r)[1..] == s;
      }
    }
  }

  /** The ranking holds every row, in descending order of the finishing time. */
  lemma {:induction false} RankedIsSorted(rows: seq<Run>)
    ensures Descending(Ranked(rows)) && multiset(Ranked(rows)) == multiset(rows)
  {
    hide Before, Insert;
    if rows != [] {
      var front, r := rows[..|rows| - 1], rows[|rows| - 1];
      RankedIsSorted(front);
      InsertKeepsOrder(Ranked(front), r);
      InsertElements(Ranked(front), r);
      assert rows == front + [r];
    }
  }

  /** Of two rows that finished at the same time, the one recorded later is ranked first. */
  lemma {:induction false} LaterRowFirst(ranked: seq<Run>, r: Run) returns (i: nat)
    requires Descending(ranked)
    ensures i <= |ranked| && Insert(ranked, r) == ranked[..i] + [r] + ranked[i..]
    ensures forall j :: 0 <= j < |ranked| ==> (j < i <==> Before(r.finishedAt, ranked[j].finishedAt))
  {
    hide Before;
    if ranked == [] || !Before(r.finishedAt, ranked[0].finishedAt) {
      i := 0;
      forall j | 0 <= j < |ranked| ensures !Before(r.finishedAt, ranked[j].finishedAt) {
        if j > 0 {
          assert ranked[j] in ranked[1..];
          AtLeastIsTransitive(r.finishedAt, ranked[0].finishedAt, ranked[j].finishedAt);
        }
      }
    } else {
      i := LaterRowFirst(ranked[1..], r);
      assert forall j :: 0 < j < |ranked| ==> ranked[j] == ranked[1..][j - 1];
      i := i + 1;
    }
  }

  /** The places of the rows, latest time first, and of equal times the row recorded later. */
  ghost predicate Ranking(rows: seq<Run>, places: seq<nat>) {
    && |places| == |rows| && (forall i :: 0 <= i < |places| ==> places[i] < |rows|)
    && (forall i, j :: 0 <= i < j < |places| ==> RanksFirst(rows, places[i], places[j]))
  }

  predicate RanksFirst(rows: seq<Run>, p: nat, q: nat)
    requires p < |rows| && q < |rows|
  {
    || Before(rows[q].finishedAt, rows[p].finishedAt)
    || (rows[q].finishedAt == rows[p].finishedAt && p > q)
  }

  lemma RankingStep(front: seq<Run>, r: Run, before: seq<nat>, i: nat)
    requires Ranking(front, before) && i <= |front|
    requires forall j :: 0 <= j < |front| ==> (j < i <==> Before(r.finishedAt, front[before[j]].finishedAt))
    ensures Ranking(front + [r], before[..i] + [|front|] + before[i..])
  {
    hide Before;
    var rows, places := front + [r], before[..i] + [|front|] + before[i..];
    forall j, k | 0 <= j < k < |places| ensures RanksFirst(rows, places[j], places[k]) {
      if k == i {
        assert Before(r.finishedAt, front[before[j]].finishedAt);
      } else if j == i {
        BeforeIsTotal(front[before[k - 1]].finishedAt, r.finishedAt);
      } else {
        assert RanksFirst(front, before[if j < i then j else j - 1], before[if k < i then k else k - 1]);
      }
    }
  }

  /** The ranking by place: every row once, in the order of times and, for equal times, of recording. */
  lemma {:induction false} RankedAt(rows: seq<Run>) returns (places: seq<nat>)
    ensures Ranking(rows, places) && |Ranked(rows)| == |places| == |rows|
    ensures forall i :: 0 <= i < |places| ==> places[i] < |rows| && Ranked(rows)[i] == rows[places[i]]
  {
    hide Before, Insert, Descending, RanksFirst;
    if rows == [] {
      places := [];
    } else {
      var front, r := rows[..|rows| - 1], rows[|rows| - 1];
      var before := RankedAt(front);
      RankedIsSorted(front);
      var i := LaterRowFirst(Ranked(front), r);
      RankingStep(front, r, before, i);
      places := before[..i] + [|front|] + before[i..];
      assert rows == front + [r];
    }
  }

  // --- pruning

  lemma TakeCons(x: Run, s: seq<Run>, n: nat)
    requires n > 0
    ensures Take([x] + s, n) == [x] + Take(s, n - 1)
  {
  }

  lemma TakeTake(s: seq<Run>, m: nat, n: nat)
    requires m <= n
    ensures Take(Take(s, n), m) == Take(s, m) && Take(s, 0) == [] && (s != [] && n > 0 ==> Take(s, n)[..1] == s[..1])
  {
  }

  /** Whether the list is cut before or after the insertion, its first n rows are the same. */
  lemma {:induction false} InsertTake(s: seq<Run>, r: Run, n: nat)
    ensures Take(Insert(Take(s, n), r), n) == Take(Insert(s, r), n)
  {
    hide Take, Before;
    TakeTake(s, if n > 0 then n - 1 else 0, n);
    TakeTake(Insert(s, r), 0, 0);
    TakeTake(Insert(Take(s, n), r), 0, 0);
    TakeTake([], 0, n);
    if s != [] && n > 0 {
      assert s == [s[0]] + s[1..];
      TakeCons(s[0], s[1..], n);
      if Before(r.finishedAt, s[0].finishedAt) {
        InsertTake(s[1..], r, n - 1);
        TakeCons(s[0], Insert(s[1..], r), n);
        TakeCons(s[0], Insert(Take(s[1..], n - 1), r), n);
        assert Take(s, n)[1..] == Take(s[1..], n - 1);
      } else {
        TakeCons(r, s, n);
        TakeCons(r, Take(s, n), n);
      }
    } else if s == [] {
      TakeNothing(n);
    }
  }

  lemma TakeNothing(n: nat)
    ensures Take([], n) == []
  {
  }

  lemma KeepOne(runs: seq<Run>, r: Run, ids: set<string>)
    ensures Keep(runs + [r], ids) == if r.taskId in ids then Keep(runs, ids) + [r] else Keep(runs, ids)
  {
  }

  lemma {:induction false} KeepConcat(a: seq<Run>, b: seq<Run>, ids: set<string>)
    ensures Keep(a + b, ids) == Keep(a, ids) + Keep(b, ids)
  {
    if b == [] {
      assert a + b == a;
    } else {
      var front, r := b[..|b| - 1], b[|b| - 1];
      assert a + b == (a + front) + [r] && b == front + [r];
      KeepConcat(a, front, ids);
      KeepOne(a + front, r, ids);
      KeepOne(front, r, ids);
    }
  }

  lemma {:induction false} KeepMember(runs: seq<Run>, ids: set<string>, x: Run)
    ensures x in Keep(runs, ids) <==> x in runs && x.taskId in ids
  {
    if runs != [] {
      var front, r := runs[..|runs| - 1], runs[|runs| - 1];
      KeepMember(front, ids, x);
      assert runs == front + [r];
    }
  }

  lemma {:induction false} KeepEverything(runs: seq<Run>, ids: set<string>)
    requires forall x :: x in runs ==> x.taskId in ids
    ensures Keep(runs, ids) == runs
  {
    if runs != [] {
      KeepEverything(runs[..|runs| - 1], ids);
      assert runs == runs[..|runs| - 1] + [runs[|runs| - 1]];
    }
  }

  lemma {:induction false} KeepNothing(runs: seq<Run>, ids: set<string>)
    requires forall x :: x in runs ==> x.taskId !in ids
    ensures Keep(runs, ids) == []
  {
    if runs != [] {
      KeepNothing(runs[..|runs| - 1], ids);
      assert runs == runs[..|runs| - 1] + [runs[|runs| - 1]];
    }
  }

  lemma {:induction false} InsertBetween(a: seq<Run>, b: seq<Run>, r: Run)
    requires forall x :: x in a ==> Before(r.finishedAt, x.finishedAt)
    requires b != [] ==> !Before(r.finishedAt, b[0].finishedAt)
    ensures Insert(a + b, r) == a + [r] + b
  {
    hide Before;
    if a == [] {
      assert a + b == b;
    } else {
      assert (a + b)[1..] == a[1..] + b;
      InsertBetween(a[1..], b, r);
    }
  }

  // Selecting rows and ranking them may be done in either order.
  lemma InsertKeep(ranked: seq<Run>, r: Run, ids: set<string>)
    requires Descending(ranked)
    ensures Keep(Insert(ranked, r), ids) == if r.taskId in ids then Insert(Keep(ranked, ids), r) else Keep(ranked, ids)
  {
    hide Before, Keep, Insert, Descending;
    var i := LaterRowFirst(ranked, r);
    var a, b := ranked[..i], ranked[i..];
    assert ranked == a + b;
    KeepConcat(a, b, ids);
    KeepConcat(a + [r], b, ids);
    KeepOne(a, r, ids);
    if r.taskId in ids {
      forall x | x in Keep(a, ids) ensures Before(r.finishedAt, x.finishedAt) {
        KeepMember(a, ids, x);
      }
      if Keep(b, ids) != [] {
        KeepMember(b, ids, Keep(b, ids)[0]);
      }
      InsertBetween(Keep(a, ids), Keep(b, ids), r);
    }
  }

  lemma {:induction false} RankedKeep(rows: seq<Run>, ids: set<string>)
    ensures Ranked(Keep(rows, ids)) == Keep(Ranked(rows), ids)
  {
    if rows != [] {
      RankedKeep(rows[..|rows| - 1], ids);
      RankedKeepOne(rows[..|rows| - 1], rows[|rows| - 1], ids);
      assert rows == rows[..|rows| - 1] + [rows[|rows| - 1]];
    }
  }

  lemma RankedKeepOne(front: seq<Run>, r: Run, ids: set<string>)
    requires Ranked(Keep(front, ids)) == Keep(Ranked(front), ids)
    ensures Ranked(Keep(front + [r], ids)) == Keep(Ranked(front + [r]), ids)
  {
    hide Before, Insert, Descending, Ranked, Keep;
    RankedIsSorted(front);
    RankedOne(front, r);
    InsertKeep(Ranked(front), r, ids);
    KeepOne(front, r, ids);
    if r.taskId in ids {
      RankedOne(Keep(front, ids), r);
    }
  }

  // --- distinct runs

  lemma IdsMember(runs: seq<Run>)
    ensures forall x :: x in runs ==> x.taskId in Ids(runs)
    ensures forall id :: id in Ids(runs) ==> exists x :: x in runs && x.taskId == id
  {
  }

  lemma InsertDistinct(ranked: seq<Run>, r: Run)
    requires Descending(ranked) && DistinctIds(ranked) && r.taskId !in Ids(ranked)
    ensures DistinctIds(Insert(ranked, r))
  {
    hide Before, Insert, Descending;
    var i := LaterRowFirst(ranked, r);
    IdsMember(ranked);
  }

  lemma {:induction false} RankedDistinct(rows: seq<Run>)
    requires DistinctIds(rows)
    ensures DistinctIds(Ranked(rows))
  {
    hide Before, Insert, Descending;
    if rows != [] {
      var front, r := rows[..|rows| - 1], rows[|rows| - 1];
      RankedDistinct(front);
      RankedIsSorted(front);
      IdsMember(Ranked(front));
      forall x | x in Ranked(front) ensures x.taskId != r.taskId {
        assert x in multiset(front);
      }
      InsertDistinct(Ranked(front), r);
    }
  }

  // The first n of a list of distinct runs are the ones with the ids of the first n.
  lemma KeepTake(s: seq<Run>, n: nat)
    requires DistinctIds(s)
    ensures Keep(s, Ids(Take(s, n))) == Take(s, n)
  {
    hide Keep;
    var a := Take(s, n);
    var b := s[|a|..];
    assert s == a + b;
    IdsMember(a);
    KeepConcat(a, b, Ids(a));
    KeepEverything(a, Ids(a));
    forall x | x in b ensures x.taskId !in Ids(a) {
      var j :| 0 <= j < |b| && b[j] == x;
      assert s[|a| + j] == x;
    }
    KeepNothing(b, Ids(a));
  }

  /** Pruning leaves exactly the first n of the ranking. */
  lemma PruneRanked(rows: seq<Run>, n: nat)
    requires DistinctIds(rows)
    ensures Ranked(Prune(rows, n)) == Take(Ranked(rows), n)
  {
    hide Before, Insert, Keep, Ranked, Take, Ids;
    RankedDistinct(rows);
    RankedKeep(rows, Ids(Take(Ranked(rows), n)));
    KeepTake(Ranked(rows), n);
  }

  lemma TakeMember(s: seq<Run>, n: nat, x: Run)
    requires x in Take(s, n)
    ensures x in s
  {
  }

  lemma RankedOne(rows: seq<Run>, r: Run)
    ensures Ranked(rows + [r]) == Insert(Ranked(rows), r)
  {
  }

  lemma NothingRecorded(n: nat)
    ensures Prune([], n) == [] && Ranked([]) == [] && Take([], n) == []
  {
  }

  lemma {:induction false} DescendingAt(s: seq<Run>, i: nat, j: nat)
    requires Descending(s) && i < j < |s|
    ensures !Before(s[i].finishedAt, s[j].finishedAt)
  {
    if i > 0 {
      DescendingAt(s[1..], i - 1, j - 1);
    } else {
      assert s[j] == s[1..][j - 1];
    }
  }

  // --- in terms of time

  // The stored text is that of a time in UTC, as it is for every finished run.
  predicate FinishedAt(r: Run, t: IsoTime.DateTime) {
    IsoTime.Valid(t) && t.offset == 0 && r.finishedAt == IsoTime.IsoFormat(t)
  }

  lemma FinishedInOrder(a: Run, s: IsoTime.DateTime, b: Run, t: IsoTime.DateTime)
    requires FinishedAt(a, s) && FinishedAt(b, t)
    ensures Before(a.finishedAt, b.finishedAt) <==> IsoTime.Instant(s) < IsoTime.Instant(t)
  {
    hide Before, IsoTime.IsoFormat, IsoTime.Instant, IsoTime.Valid;
    IsoTime.TextOrderIsTimeOrder(s, t);
  }

  /** The ranking is by time, latest first. */
  lemma RankedByTime(rows: seq<Run>, p: nat, q: nat, s: IsoTime.DateTime, t: IsoTime.DateTime)
    requires p < q < |Ranked(rows)| && FinishedAt(Ranked(rows)[p], s) && FinishedAt(Ranked(rows)[q], t)
    ensures IsoTime.Instant(s) >= IsoTime.Instant(t)
  {
    hide Before, FinishedAt, Ranked, IsoTime.Instant;
    RankedIsSorted(rows);
    DescendingAt(Ranked(rows), p, q);
    FinishedInOrder(Ranked(rows)[p], s, Ranked(rows)[q], t);
  }
}
