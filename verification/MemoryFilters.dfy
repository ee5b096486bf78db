/** The memory filter twice: as an SQL condition over stored text and as a Python predicate over records
    (memory/sqlite_repository.py, memory/service.py). */
module MemoryFilters {
  import opened Wrappers
  import opened TextOrder
  import opened IsoTime

  datatype Memory = Memory(
    memoryType: string,
    source: string,
    provenance: string,
    confidence: real,
    createdAt: DateTime,
    expiresAt: Option<DateTime>,
    sessionId: Option<string>,
    deletedAt: Option<DateTime>)

  datatype Filter = Filter(
    memoryType: Option<string>,
    source: Option<string>,
    provenance: Option<string>,
    createdAfter: Option<DateTime>,
    createdBefore: Option<DateTime>,
    expiresBefore: Option<DateTime>,
    minimumConfidence: Option<real>,
    sessionId: Option<string>,
    includeExpired: bool,
    includeDeleted: bool)

  /** _matches_filters */
  predicate Matches(m: Memory, f: Filter, now: DateTime) {
    && (f.memoryType.Some? ==> m.memoryType == f.memoryType.value)
    && (f.source.Some? ==> m.source == f.source.value)
    && (f.provenance.Some? ==> m.provenance == f.provenance.value)
    && (f.createdAfter.Some? ==> Instant(m.createdAt) > Instant(f.createdAfter.value))
    && (f.createdBefore.Some? ==> Instant(m.createdAt) < Instant(f.createdBefore.value))
    && (f.expiresBefore.Some? ==> m.expiresAt.Some? && Instant(m.expiresAt.value) < Instant(f.expiresBefore.value))
    && (f.minimumConfidence.Some? ==> m.confidence >= f.minimumConfidence.value)
    && (!f.includeDeleted ==> m.deletedAt.None?)
    && (!f.includeExpired && m.expiresAt.Some? ==> Instant(m.expiresAt.value) > Instant(now))
    && (f.sessionId.Some? ==> m.sessionId.None? || m.sessionId == f.sessionId)
  }

  /** The same with the texts of the times in place of the times. */
  predicate MatchesText(m: Memory, f: Filter, now: DateTime) {
    && (f.memoryType.Some? ==> m.memoryType == f.memoryType.value)
    && (f.source.Some? ==> m.source == f.source.value)
    && (f.provenance.Some? ==> m.provenance == f.provenance.value)
    && (f.createdAfter.Some? ==> TextBefore(f.createdAfter.value, m.createdAt))
    && (f.createdBefore.Some? ==> TextBefore(m.createdAt, f.createdBefore.value))
    && (f.expiresBefore.Some? ==> m.expiresAt.Some? && TextBefore(m.expiresAt.value, f.expiresBefore.value))
    && (f.minimumConfidence.Some? ==> m.confidence >= f.minimumConfidence.value)
    && (!f.includeDeleted ==> m.deletedAt.None?)
    && (!f.includeExpired && m.expiresAt.Some? ==> TextBefore(now, m.expiresAt.value))
    && (f.sessionId.Some? ==> m.sessionId.None? || m.sessionId == f.sessionId)
  }

  predicate TextBefore(a: DateTime, b: DateTime) {
    Before(IsoFormat(a), IsoFormat(b))
  }

  // --- the stored row and the WHERE clause

  datatype Row = Row(
    memoryType: string,
    source: string,
    provenance: string,
    confidence: real,
    createdAt: string,
    expiresAt: Option<string>,
    sessionId: Option<string>,
    deletedAt: Option<string>)

  function EncodeTime(t: Option<DateTime>): Option<string> {
    if t.Some? then Some(IsoFormat(t.value)) else None
  }

  function Encode(m: Memory): Row {
    Row(m.memoryType, m.source, m.provenance, m.confidence, IsoFormat(m.createdAt), EncodeTime(m.expiresAt),
        m.sessionId, EncodeTime(m.deletedAt))
  }

  // Each clause with its bound parameter.
  datatype Clause =
    | TypeIs(v: string)
    | SourceIs(v: string)
    | ProvenanceIs(v: string)
    | CreatedAfter(t: string)
    | CreatedBefore(t: string)
    | ExpiresBefore(t: string)      // expires_at IS NOT NULL AND expires_at < ?
    | ConfidenceAtLeast(c: real)
    | NotDeleted                    // deleted_at IS NULL
    | NotExpired(t: string)         // expires_at IS NULL OR expires_at > ?
    | SessionIs(v: string)          // session_id IS NULL OR session_id = ?

  /** SQL's three truth values. */
  datatype Truth = True | False | Unknown

  function Known(b: bool): Truth {
    if b then True else False
  }

  function And(a: Truth, b: Truth): (r: Truth)
    ensures (r.True? <==> a.True? && b.True?) && (r.Unknown? ==> a == Unknown || b == Unknown)
    ensures r.False? <==> a.False? || b.False?
  {
    if a.False? || b.False? then False else if a.Unknown? || b.Unknown? then Unknown else True
  }

  function Or(a: Truth, b: Truth): (r: Truth)
    ensures (r.False? <==> a.False? && b.False?) && (r.Unknown? ==> a == Unknown || b == Unknown)
    ensures r.True? <==> a.True? || b.True?
  {
    if a.True? || b.True? then True else if a.Unknown? || b.Unknown? then Unknown else False
  }

  // A comparison with NULL is unknown.
  function Compare(x: Option<string>, holds: string -> bool): Truth {
    if x.None? then Unknown else Known(holds(x.value))
  }

  function Eval(c: Clause, r: Row): Truth {
    match c
    case TypeIs(v) => Known(r.memoryType == v)
    case SourceIs(v) => Known(r.source == v)
    case ProvenanceIs(v) => Known(r.provenance == v)
    case CreatedAfter(t) => Known(Before(t, r.createdAt))
    case CreatedBefore(t) => Known(Before(r.createdAt, t))
    case ExpiresBefore(t) => And(Known(r.expiresAt.Some?), Compare(r.expiresAt, x => Before(x, t)))
    case ConfidenceAtLeast(v) => Known(r.confidence >= v)
    case NotDeleted => Known(r.deletedAt.None?)
    case NotExpired(t) => Or(Known(r.expiresAt.None?), Compare(r.expiresAt, x => Before(t, x)))
    case SessionIs(v) => Or(Known(r.sessionId.None?), Compare(r.sessionId, x => x == v))
  }

  // The clauses joined by AND; no clause at all selects everything.
  function Where(clauses: seq<Clause>, r: Row): Truth {
    if clauses == [] then True else And(Where(clauses[..|clauses| - 1], r), Eval(clauses[|clauses| - 1], r))
  }

  /** A row is selected when its condition is true, not when it is unknown. */
  predicate Selected(clauses: seq<Clause>, r: Row) {
    Where(clauses, r).True?
  }

  lemma {:induction false} SelectedConcat(a: seq<Clause>, b: seq<Clause>, r: Row)
    ensures Selected(a + b, r) <==> Selected(a, r) && Selected(b, r)
  {
    if b == [] {
      assert a + b == a;
    } else {
      assert (a + b)[..|a + b| - 1] == a + b[..|b| - 1];
      SelectedConcat(a, b[..|b| - 1], r);
    }
  }

  // The clause a part of the filter adds, when that part is set.
  function IfSet<T>(v: Option<T>, clause: T -> Clause): seq<Clause> {
    if v.Some? then [clause(v.value)] else []
  }

  function Always(b: bool, c: Clause): seq<Clause> {
    if b then [c] else []
  }

  function TypeClauses(f: Filter): seq<Clause> {
    IfSet(f.memoryType, v => TypeIs(v)) + IfSet(f.source, v => SourceIs(v)) + IfSet(f.provenance, v => ProvenanceIs(v))
  }

  function TimeClauses(f: Filter): seq<Clause> {
    IfSet(f.createdAfter, t => CreatedAfter(IsoFormat(t))) + IfSet(f.createdBefore, t => CreatedBefore(IsoFormat(t)))
    + IfSet(f.expiresBefore, t => ExpiresBefore(IsoFormat(t)))
  }

  function StateClauses(f: Filter, now: DateTime): seq<Clause> {
    IfSet(f.minimumConfidence, v => ConfidenceAtLeast(v)) + Always(!f.includeDeleted, NotDeleted)
    + Always(!f.includeExpired, NotExpired(IsoFormat(now))) + IfSet(f.sessionId, v => SessionIs(v))
  }

  function Clauses(f: Filter, now: DateTime): seq<Clause> {
    TypeClauses(f) + TimeClauses(f) + StateClauses(f, now)
  }

  /** _where_clause, with the current time it binds. */
  method WhereClause(f: Filter, now: DateTime) returns (clauses: seq<Clause>)
    ensures clauses == Clauses(f, now)
  {
    hide IsoFormat, Where, Eval;
    clauses := TypeConditions(f);
    var times := TimeConditions(f);
    var states := StateConditions(f, now);
    clauses := clauses + times + states;
  }

  method TypeConditions(f: Filter) returns (clauses: seq<Clause>)
    ensures clauses == TypeClauses(f)
  {
    clauses := [];
    if f.memoryType.Some? {
      clauses := clauses + [TypeIs(f.memoryType.value)];
    }
    if f.source.Some? {
      clauses := clauses + [SourceIs(f.source.value)];
    }
    if f.provenance.Some? {
      clauses := clauses + [ProvenanceIs(f.provenance.value)];
    }
  }

  method TimeConditions(f: Filter) returns (clauses: seq<Clause>)
    ensures clauses == TimeClauses(f)
  {
    hide IsoFormat;
    clauses := [];
    if f.createdAfter.Some? {
      clauses := clauses + [CreatedAfter(IsoFormat(f.createdAfter.value))];
    }
    if f.createdBefore.Some? {
      clauses := clauses + [CreatedBefore(IsoFormat(f.createdBefore.value))];
    }
    if f.expiresBefore.Some? {
      clauses := clauses + [ExpiresBefore(IsoFormat(f.expiresBefore.value))];
    }
  }

  method StateConditions(f: Filter, now: DateTime) returns (clauses: seq<Clause>)
    ensures clauses == StateClauses(f, now)
  {
    hide IsoFormat;
    clauses := [];
    if f.minimumConfidence.Some? {
      clauses := clauses + [ConfidenceAtLeast(f.minimumConfidence.value)];
    }
    if !f.includeDeleted {
      clauses := clauses + [NotDeleted];
    }
    if !f.includeExpired {
      clauses := clauses + [NotExpired(IsoFormat(now))];
    }
    if f.sessionId.Some? {
      clauses := clauses + [SessionIs(f.sessionId.value)];
    }
  }

  // --- what the SQL condition selects

  lemma SelectedOne(c: Clause, r: Row)
    ensures Selected([c], r) <==> Eval(c, r).True?
  {
    assert [c][..|[c]| - 1] == [];
    NothingSelectsAll(r);
  }

  lemma NothingSelectsAll(r: Row)
    ensures Selected([], r)
  {
  }

  lemma PartReads<T>(v: Option<T>, clause: T -> Clause, r: Row)
    ensures Selected(IfSet(v, clause), r) <==> (v.Some? ==> Eval(clause(v.value), r).True?)
  {
    NothingSelectsAll(r);
    if v.Some? {
      SelectedOne(clause(v.value), r);
    }
  }

  lemma TypesRead(m: Memory, f: Filter)
    ensures Selected(TypeClauses(f), Encode(m)) <==>
      ((f.memoryType.Some? ==> m.memoryType == f.memoryType.value)
       && (f.source.Some? ==> m.source == f.source.value)
       && (f.provenance.Some? ==> m.provenance == f.provenance.value))
  {
    hide IsoFormat, Before, Where;
    var r := Encode(m);
    var a, b, c := IfSet(f.memoryType, v => TypeIs(v)), IfSet(f.source, v => SourceIs(v)),
                   IfSet(f.provenance, v => ProvenanceIs(v));
    SelectedConcat(a + b, c, r);
    SelectedConcat(a, b, r);
    PartReads(f.memoryType, v => TypeIs(v), r);
    PartReads(f.source, v => SourceIs(v), r);
    PartReads(f.provenance, v => ProvenanceIs(v), r);
  }

  lemma TimesRead(m: Memory, f: Filter)
    ensures Selected(TimeClauses(f), Encode(m)) <==>
      ((f.createdAfter.Some? ==> TextBefore(f.createdAfter.value, m.createdAt))
       && (f.createdBefore.Some? ==> TextBefore(m.createdAt, f.createdBefore.value))
       && (f.expiresBefore.Some? ==> m.expiresAt.Some? && TextBefore(m.expiresAt.value, f.expiresBefore.value)))
  {
    hide IsoFormat, Before, Where;
    var r := Encode(m);
    var a, b := IfSet(f.createdAfter, t => CreatedAfter(IsoFormat(t))),
                IfSet(f.createdBefore, t => CreatedBefore(IsoFormat(t)));
    var c := IfSet(f.expiresBefore, t => ExpiresBefore(IsoFormat(t)));
    SelectedConcat(a + b, c, r);
    SelectedConcat(a, b, r);
    PartReads(f.createdAfter, t => CreatedAfter(IsoFormat(t)), r);
    PartReads(f.createdBefore, t => CreatedBefore(IsoFormat(t)), r);
    PartReads(f.expiresBefore, t => ExpiresBefore(IsoFormat(t)), r);
  }

  lemma StatesRead(m: Memory, f: Filter, now: DateTime)
    ensures Selected(StateClauses(f, now), Encode(m)) <==>
      ((f.minimumConfidence.Some? ==> m.confidence >= f.minimumConfidence.value)
       && (!f.includeDeleted ==> m.deletedAt.None?)
       && (!f.includeExpired && m.expiresAt.Some? ==> TextBefore(now, m.expiresAt.value))
       && (f.sessionId.Some? ==> m.sessionId.None? || m.sessionId == f.sessionId))
  {
    hide IsoFormat, Before, Where;
    var r := Encode(m);
    var a, b := IfSet(f.minimumConfidence, v => ConfidenceAtLeast(v)), Always(!f.includeDeleted, NotDeleted);
    var c, d := Always(!f.includeExpired, NotExpired(IsoFormat(now))), IfSet(f.sessionId, v => SessionIs(v));
    SelectedConcat(a + b + c, d, r);
    SelectedConcat(a + b, c, r);
    SelectedConcat(a, b, r);
    PartReads(f.minimumConfidence, v => ConfidenceAtLeast(v), r);
    PartReads(f.sessionId, v => SessionIs(v), r);
    NothingSelectsAll(r);
    SelectedOne(NotDeleted, r);
    SelectedOne(NotExpired(IsoFormat(now)), r);
  }

  /** The SQL condition, with its three truth values, is the Python predicate over texts. */
  lemma SelectedReads(m: Memory, f: Filter, now: DateTime)
    ensures Selected(Clauses(f, now), Encode(m)) <==> MatchesText(m, f, now)
  {
    hide IsoFormat, Before, Where, TypeClauses, TimeClauses, StateClauses, Selected, Encode, TextBefore;
    SelectedConcat(TypeClauses(f) + TimeClauses(f), StateClauses(f, now), Encode(m));
    SelectedConcat(TypeClauses(f), TimeClauses(f), Encode(m));
    TypesRead(m, f);
    TimesRead(m, f);
    StatesRead(m, f, now);
  }

  // --- agreement

  predicate ValidIfSet(t: Option<DateTime>) {
    t.Some? ==> Valid(t.value)
  }

  predicate ValidTimes(m: Memory, f: Filter) {
    && Valid(m.createdAt) && ValidIfSet(m.expiresAt)
    && ValidIfSet(f.createdAfter) && ValidIfSet(f.createdBefore) && ValidIfSet(f.expiresBefore)
  }

  // The UTC offsets of the times that may be compared.
  datatype Offsets = Offsets(
    created: int, expires: Option<int>, after: Option<int>, before: Option<int>, expiresBefore: Option<int>)

  function OffsetIfSet(t: Option<DateTime>): Option<int> {
    if t.Some? then Some(t.value.offset) else None
  }

  function OffsetsOf(m: Memory, f: Filter): Offsets {
    Offsets(m.createdAt.offset, OffsetIfSet(m.expiresAt), OffsetIfSet(f.createdAfter), OffsetIfSet(f.createdBefore),
            OffsetIfSet(f.expiresBefore))
  }

  /** Each comparison is between times of one offset (the current time is in UTC), or none matters because the filter
      asks for an expiry and there is none. */
  predicate Comparable(o: Offsets, includeExpired: bool) {
    || (o.expiresBefore.Some? && o.expires.None?)
    || (&& (o.after.Some? ==> o.after.value == o.created)
        && (o.before.Some? ==> o.before.value == o.created)
        && (o.expiresBefore.Some? && o.expires.Some? ==> o.expiresBefore == o.expires)
        && (!includeExpired && o.expires.Some? ==> o.expires.value == 0))
  }

  /** When the compared times share their offsets, the SQL condition selects exactly the memories the Python filter
      accepts. */
  lemma FiltersAgree(m: Memory, f: Filter, now: DateTime)
    requires ValidTimes(m, f) && Valid(now) && now.offset == 0
    requires Comparable(OffsetsOf(m, f), f.includeExpired)
    ensures Selected(Clauses(f, now), Encode(m)) <==> Matches(m, f, now)
  {
    hide IsoFormat, Before, Instant, Valid, Selected, Clauses, Encode;
    SelectedReads(m, f, now);
    if !(f.expiresBefore.Some? && m.expiresAt.None?) {
      if f.createdAfter.Some? {
        TextOrderIsTimeOrder(f.createdAfter.value, m.createdAt);
      }
      if f.createdBefore.Some? {
        TextOrderIsTimeOrder(m.createdAt, f.createdBefore.value);
      }
      if f.expiresBefore.Some? {
        TextOrderIsTimeOrder(m.expiresAt.value, f.expiresBefore.value);
      }
      if !f.includeExpired && m.expiresAt.Some? {
        TextOrderIsTimeOrder(now, m.expiresAt.value);
      }
    }
  }

  /** The two filters agree on everything with these offsets. */
  ghost predicate AlwaysAgree(o: Offsets, includeExpired: bool) {
    forall m, f, now {:trigger Selected(Clauses(f, now), Encode(m))} ::
      ValidTimes(m, f) && Valid(now) && now.offset == 0 && OffsetsOf(m, f) == o
      && f.includeExpired == includeExpired ==>
        (Selected(Clauses(f, now), Encode(m)) <==> Matches(m, f, now))
  }

  predicate InRange(o: int) {
    -1440 < o < 1440
  }

  predicate AllInRange(o: Offsets) {
    && InRange(o.created) && (o.expires.Some? ==> InRange(o.expires.value))
    && (o.after.Some? ==> InRange(o.after.value)) && (o.before.Some? ==> InRange(o.before.value))
    && (o.expiresBefore.Some? ==> InRange(o.expiresBefore.value))
  }

  function NewYear(y: nat, offset: int): DateTime {
    DateTime(y, 1, 1, 0, 0, 0, 0, offset)
  }

  lemma NewYearValid(y: nat, offset: int)
    requires 1 <= y <= 9999 && InRange(offset)
    ensures Valid(NewYear(y, offset))
  {
  }

  function WithOffset(y: nat, offset: Option<int>): Option<DateTime> {
    if offset.Some? then Some(NewYear(y, offset.value)) else None
  }

  // A memory and a filter in which every comparison has years to spare.
  function Roomy(o: Offsets): Memory {
    Memory("episodic", "s", "p", 1.0, NewYear(2024, o.created), WithOffset(5000, o.expires), None, None)
  }

  function RoomyFilter(o: Offsets, includeExpired: bool): Filter {
    Filter(None, None, None, WithOffset(1000, o.after), WithOffset(9000, o.before), WithOffset(9000, o.expiresBefore),
           None, None, includeExpired, true)
  }

  lemma WithOffsetValid(y: nat, offset: Option<int>)
    requires 1 <= y <= 9999 && (offset.Some? ==> InRange(offset.value))
    ensures ValidIfSet(WithOffset(y, offset)) && OffsetIfSet(WithOffset(y, offset)) == offset
  {
    if offset.Some? {
      NewYearValid(y, offset.value);
    }
  }

  lemma RoomyValid(o: Offsets, includeExpired: bool)
    requires AllInRange(o)
    ensures ValidTimes(Roomy(o), RoomyFilter(o, includeExpired))
    ensures OffsetsOf(Roomy(o), RoomyFilter(o, includeExpired)) == o
  {
    hide Valid, WithOffset, OffsetIfSet, ValidIfSet, InRange;
    NewYearValid(2024, o.created);
    WithOffsetValid(5000, o.expires);
    WithOffsetValid(1000, o.after);
    WithOffsetValid(9000, o.before);
    WithOffsetValid(9000, o.expiresBefore);
  }

  // In text and in time alike.
  predicate SurelyBefore(a: DateTime, b: DateTime) {
    TextBefore(a, b) && Instant(a) < Instant(b)
  }

  lemma SureYears(a: DateTime, b: DateTime)
    requires Valid(a) && Valid(b) && a.year + 1 < b.year
    ensures SurelyBefore(a, b)
  {
    hide IsoFormat, Before, Instant;
    YearsApart(a, b);
  }

  lemma DifferenceShows(o: Offsets, includeExpired: bool, m: Memory, f: Filter, now: DateTime)
    requires ValidTimes(m, f) && Valid(now) && now.offset == 0
    requires OffsetsOf(m, f) == o && f.includeExpired == includeExpired
    requires MatchesText(m, f, now) != Matches(m, f, now)
    ensures !AlwaysAgree(o, includeExpired)
  {
    hide MatchesText, Matches, Selected, Clauses, Encode, Valid;
    SelectedReads(m, f, now);
  }

  lemma AfterDisagrees(o: Offsets, includeExpired: bool)
    requires AllInRange(o) && !(o.expiresBefore.Some? && o.expires.None?)
    requires o.after.Some? && o.after.value != o.created
    ensures !AlwaysAgree(o, includeExpired)
  {
    hide IsoFormat, Before, Instant, Valid, AlwaysAgree;
    RoomyValid(o, includeExpired);
    NewYearValid(1000, 0);
    var a, b := OffsetsDisagree(o.after.value, o.created);
    var m, f := Roomy(o).(createdAt := b), RoomyFilter(o, includeExpired).(createdAfter := Some(a));
    if o.before.Some? {
      SureYears(b, f.createdBefore.value);
    }
    ExpirySure(o, includeExpired);
    DifferenceShows(o, includeExpired, m, f, NewYear(1000, 0));
  }

  lemma BeforeDisagrees(o: Offsets, includeExpired: bool)
    requires AllInRange(o) && !(o.expiresBefore.Some? && o.expires.None?)
    requires o.before.Some? && o.before.value != o.created
    ensures !AlwaysAgree(o, includeExpired)
  {
    hide IsoFormat, Before, Instant, Valid, AlwaysAgree;
    RoomyValid(o, includeExpired);
    NewYearValid(1000, 0);
    var a, b := OffsetsDisagree(o.created, o.before.value);
    var m, f := Roomy(o).(createdAt := a), RoomyFilter(o, includeExpired).(createdBefore := Some(b));
    if o.after.Some? {
      SureYears(f.createdAfter.value, a);
    }
    ExpirySure(o, includeExpired);
    DifferenceShows(o, includeExpired, m, f, NewYear(1000, 0));
  }

  lemma ExpiryDisagrees(o: Offsets, includeExpired: bool)
    requires AllInRange(o) && o.expires.Some? && o.expiresBefore.Some? && o.expires != o.expiresBefore
    ensures !AlwaysAgree(o, includeExpired)
  {
    hide IsoFormat, Before, Instant, Valid, AlwaysAgree;
    RoomyValid(o, includeExpired);
    NewYearValid(1000, 0);
    var a, b := OffsetsDisagree(o.expires.value, o.expiresBefore.value);
    var m, f := Roomy(o).(expiresAt := Some(a)), RoomyFilter(o, includeExpired).(expiresBefore := Some(b));
    SureYears(NewYear(1000, 0), a);
    CreationSure(o, includeExpired);
    DifferenceShows(o, includeExpired, m, f, NewYear(1000, 0));
  }

  lemma NowDisagrees(o: Offsets)
    requires AllInRange(o) && o.expires.Some? && o.expires.value != 0
    ensures !AlwaysAgree(o, false)
  {
    hide IsoFormat, Before, Instant, Valid, AlwaysAgree;
    RoomyValid(o, false);
    var now, b := OffsetsDisagree(0, o.expires.value);
    var m, f := Roomy(o).(expiresAt := Some(b)), RoomyFilter(o, false);
    if o.expiresBefore.Some? {
      SureYears(b, f.expiresBefore.value);
    }
    CreationSure(o, false);
    DifferenceShows(o, false, m, f, now);
  }

  lemma CreationSure(o: Offsets, includeExpired: bool)
    requires AllInRange(o)
    ensures
      var m, f := Roomy(o), RoomyFilter(o, includeExpired);
      && (o.after.Some? ==> SurelyBefore(f.createdAfter.value, m.createdAt))
      && (o.before.Some? ==> SurelyBefore(m.createdAt, f.createdBefore.value))
  {
    hide SurelyBefore, Valid;
    RoomyValid(o, includeExpired);
    var m, f := Roomy(o), RoomyFilter(o, includeExpired);
    if o.after.Some? {
      SureYears(f.createdAfter.value, m.createdAt);
    }
    if o.before.Some? {
      SureYears(m.createdAt, f.createdBefore.value);
    }
  }

  lemma ExpirySure(o: Offsets, includeExpired: bool)
    requires AllInRange(o)
    ensures
      var m, f := Roomy(o), RoomyFilter(o, includeExpired);
      && (o.expires.Some? && o.expiresBefore.Some? ==> SurelyBefore(m.expiresAt.value, f.expiresBefore.value))
      && (o.expires.Some? ==> SurelyBefore(NewYear(1000, 0), m.expiresAt.value))
  {
    hide SurelyBefore, Valid;
    RoomyValid(o, includeExpired);
    NewYearValid(1000, 0);
    var m, f := Roomy(o), RoomyFilter(o, includeExpired);
    if o.expires.Some? {
      SureYears(NewYear(1000, 0), m.expiresAt.value);
      if o.expiresBefore.Some? {
        SureYears(m.expiresAt.value, f.expiresBefore.value);
      }
    }
  }

  /** The filters agree on all memories, filters and times with given offsets exactly when the compared times share
      their offsets: the creation time and its bounds, the expiry and its bound, and, unless expired memories are
      included, the expiry and UTC. */
  lemma AlwaysAgreeIff(o: Offsets, includeExpired: bool)
    requires AllInRange(o)
    ensures AlwaysAgree(o, includeExpired) <==> Comparable(o, includeExpired)
  {
    hide AllInRange, Selected, Clauses, Encode, Matches, ValidTimes, Valid;
    if Comparable(o, includeExpired) {
      forall m, f, now | ValidTimes(m, f) && Valid(now) && now.offset == 0 && OffsetsOf(m, f) == o
                         && f.includeExpired == includeExpired
        ensures Selected(Clauses(f, now), Encode(m)) <==> Matches(m, f, now)
      {
        FiltersAgree(m, f, now);
      }
    } else if o.after.Some? && o.after.value != o.created {
      AfterDisagrees(o, includeExpired);
    } else if o.before.Some? && o.before.value != o.created {
      BeforeDisagrees(o, includeExpired);
    } else if o.expiresBefore.Some? && o.expires.Some? && o.expiresBefore != o.expires {
      ExpiryDisagrees(o, includeExpired);
    } else {
      NowDisagrees(o);
    }
  }

  /** The default filter, at midnight UTC, and a memory that expired hours ago on a clock five hours ahead: the SQL
      condition selects it, the Python filter does not. */
  lemma ExpiredYetSelected()
    ensures
      var now := MIDNIGHT;
      var m := Memory("episodic", "s", "p", 1.0, MIDNIGHT, Some(MIDNIGHT.(micro := 1, offset := 300)), None, None);
      var f := Filter(None, None, None, None, None, None, None, None, false, false);
      Selected(Clauses(f, now), Encode(m)) && !Matches(m, f, now)
  {
    hide IsoFormat, Before, Tail, Selected, Clauses, Encode;
    var expiry := MIDNIGHT.(micro := 1, offset := 300);
    var m := Memory("episodic", "s", "p", 1.0, MIDNIGHT, Some(expiry), None, None);
    var f := Filter(None, None, None, None, None, None, None, None, false, false);
    SelectedReads(m, f, MIDNIGHT);
    MidnightTexts(0, 0, 1, 300);
    NoFractionFirst(1, 0, 300);
    assert MIDNIGHT.(micro := 0, offset := 0) == MIDNIGHT;
    assert Ordinal(expiry) == Ordinal(MIDNIGHT);
  }
}
