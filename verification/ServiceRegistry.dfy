/** Named services started and stopped in dependency order (core/registry.py). */
module ServiceRegistry {
  import opened Wrappers
  import opened Digraph
  import opened TextOrder
  import opened PassOrder

  // What calling a service's start() or stop() does; Absent when it has no such hook.
  datatype Hook = Absent | Succeeds | Raises

  datatype Service = Service(dependencies: seq<Id>, starter: Hook, stopper: Hook)

  datatype Call = Start(name: Id) | Stop(name: Id)

  datatype ServiceError =
    | AlreadyRegistered(name: Id)
    | UnknownService(name: Id, dependency: Id)
    | DependencyCycle(among: seq<Id>)
    | StartFailed(named: Id)

  function DependencyGraph(records: map<Id, Service>): Graph {
    map x | x in records :: records[x].dependencies
  }

  predicate KnownDependencies(records: map<Id, Service>, x: Id)
    requires x in records
  {
    forall d :: d in records[x].dependencies ==> d in records
  }

  // Pass p has examined names[..i]: who is still waiting, and for how long at least.
  ghost predicate Queue(g: Graph, remaining: set<Id>, pass: map<Id, nat>, p: nat, names: seq<Id>, i: nat) {
    && Ascending(names) && i <= |names|
    && (forall x {:trigger x in names} :: x in remaining ==> x in names)
    && (forall k :: i <= k < |names| ==> names[k] in remaining)
    && (forall x, k :: x in pass && pass[x] == p && i <= k < |names| ==> Before(x, names[k]))
    && (forall k :: 0 <= k < |names| && names[k] in remaining ==>
         Waits(g, remaining, pass, names[k], if k < i then p + 1 else p))
  }

  // names[i] still has an unmet dependency: it stays.
  lemma Skipped(g: Graph, remaining: set<Id>, pass: map<Id, nat>, p: nat, names: seq<Id>, i: nat)
    requires Queue(g, remaining, pass, p, names, i) && i < |names|
    requires exists d :: Edge(g, names[i], d) && d in remaining
    ensures Queue(g, remaining, pass, p, names, i + 1)
  {
  }

  // names[i] has none: it is placed.
  lemma Taken(g: Graph, remaining: set<Id>, pass: map<Id, nat>, p: nat, names: seq<Id>, i: nat)
    requires Queue(g, remaining, pass, p, names, i) && i < |names| && names[i] !in pass
    ensures Queue(g, remaining - {names[i]}, pass[names[i] := p], p, names, i + 1)
  {
    var x := names[i];
    var left, next := remaining - {x}, pass[x := p];
    forall k | 0 <= k < |names| && names[k] in left
      ensures Waits(g, left, next, names[k], if k < i + 1 then p + 1 else p)
    {
      assert Waits(g, remaining, pass, names[k], if k < i then p + 1 else p);
      StillWaits(g, remaining, pass, p, x, names[k], if k < i then p + 1 else p);
    }
    forall k | i + 1 <= k < |names| ensures names[k] in left {
      assert names[k] in remaining;
      BeforeIsTotal(x, names[k]);
    }
  }

  lemma EarlierInPass(g: Graph, remaining: set<Id>, pass: map<Id, nat>, p: nat, names: seq<Id>, i: nat)
    requires Queue(g, remaining, pass, p, names, i) && i < |names|
    ensures names[i] in remaining && Waits(g, remaining, pass, names[i], p)
    ensures forall y :: y in pass && pass[y] == p ==> Before(y, names[i])
  {
  }

  lemma EndOfPass(g: Graph, remaining: set<Id>, pass: map<Id, nat>, p: nat, names: seq<Id>)
    requires Queue(g, remaining, pass, p, names, |names|)
    ensures forall x {:trigger Waits(g, remaining, pass, x, p + 1)} ::
      x in remaining ==> Waits(g, remaining, pass, x, p + 1)
    ensures (forall x :: x in pass ==> pass[x] < p) ==>
      forall x {:trigger HasNextIn(g, remaining, x)} :: x in remaining ==> HasNextIn(g, remaining, x)
  {
    forall x | x in remaining ensures Waits(g, remaining, pass, x, p + 1) {
      assert x in names;
      var k :| 0 <= k < |names| && names[k] == x;
    }
    if forall x :: x in pass ==> pass[x] < p {
      forall x | x in remaining ensures HasNextIn(g, remaining, x) {
        assert Waits(g, remaining, pass, x, p + 1);
      }
    }
  }

  // A set of names each of which depends on another one of the set.
  ghost predicate Stuck(g: Graph, names: seq<Id>) {
    names != [] && forall x {:trigger HasNextIn(g, Elements(names), x)} ::
      x in names ==> x in g && HasNextIn(g, Elements(names), x)
  }

  lemma StuckHasCycle(g: Graph, names: seq<Id>) returns (c: seq<Id>)
    requires Stuck(g, names)
    ensures SimpleCycle(g, c) && Elements(c) <= Elements(names)
  {
    assert names[0] in names && HasNextIn(g, Elements(names), names[0]);
    c := StuckSetHasCycle(g, Elements(names), [names[0]]);
  }

  function FirstIn(deps: seq<Id>, names: set<Id>): (r: Option<Id>)
    ensures r.None? <==> forall d :: d in deps ==> d !in names
    ensures r.Some? ==> r.value in deps && r.value in names
  {
    if deps == [] then None else if deps[0] in names then Some(deps[0]) else FirstIn(deps[1..], names)
  }

  function FirstUnknown(deps: seq<Id>, known: set<Id>): (r: Option<Id>)
    ensures r.None? <==> forall d :: d in deps ==> d in known
    ensures r.Some? ==> r.value !in known
    ensures r.Some? ==> exists i :: 0 <= i < |deps| && deps[i] == r.value && forall j :: 0 <= j < i ==> deps[j] in known
  {
    if deps == [] then None else if deps[0] !in known then Some(deps[0]) else
      var r := FirstUnknown(deps[1..], known);
      assert r.Some? ==> forall i :: 0 <= i < |deps| - 1 ==> deps[1..][i] == deps[i + 1];
      r
  }

  // The error names the alphabetically first service with an unknown dependency, and its first one.
  ghost predicate IsFirstOffender(records: map<Id, Service>, names: set<Id>, error: ServiceError) {
    && error.UnknownService? && error.name in names && error.name in records
    && FirstUnknown(records[error.name].dependencies, records.Keys) == Some(error.dependency)
    && (forall x :: x in names && x in records && !KnownDependencies(records, x) ==>
         x == error.name || Before(error.name, x))
  }

  lemma OffenderIsFirst(records: map<Id, Service>, names: seq<Id>, i: nat, dependency: Id)
    requires Ascending(names) && i < |names| && names[i] in records
    requires forall k :: 0 <= k < i ==> names[k] in records && KnownDependencies(records, names[k])
    requires FirstUnknown(records[names[i]].dependencies, records.Keys) == Some(dependency)
    ensures IsFirstOffender(records, Elements(names), UnknownService(names[i], dependency))
  {
  }

  // Both parts of the invariant after names[i] has been placed in pass p.
  lemma TakeStep(g: Graph, remaining: set<Id>, pass: map<Id, nat>, order: seq<Id>, p: nat, names: seq<Id>, i: nat)
    requires Placed(g, remaining, pass, order, p) && Queue(g, remaining, pass, p, names, i) && i < |names|
    requires forall d :: Edge(g, names[i], d) ==> d !in remaining
    ensures names[i] in remaining
    ensures Placed(g, remaining - {names[i]}, pass[names[i] := p], order + [names[i]], p)
    ensures Queue(g, remaining - {names[i]}, pass[names[i] := p], p, names, i + 1)
  {
    EarlierInPass(g, remaining, pass, p, names, i);
    Place(g, remaining, pass, order, p, names[i]);
    Taken(g, remaining, pass, p, names, i);
  }

  // Where a pass stands after its first i names.
  ghost predicate Progress(g: Graph, remaining: set<Id>, pass: map<Id, nat>, order: seq<Id>, p: nat,
                           names: seq<Id>, i: nat) {
    Placed(g, remaining, pass, order, p) && Queue(g, remaining, pass, p, names, i)
  }

  // One name of a pass: it is placed when none of its dependencies is left.
  method Examine(records: map<Id, Service>, names: seq<Id>, i: nat, remaining: set<Id>, ghost ordered: seq<Id>,
                 ghost pass: map<Id, nat>, ghost p: nat)
    returns (error: Option<ServiceError>, place: bool)
    requires Progress(DependencyGraph(records), remaining, pass, ordered, p, names, i) && i < |names|
    requires names[i] in records
    requires forall k :: 0 <= k < i ==> names[k] in records && KnownDependencies(records, names[k])
    ensures error.None? ==> KnownDependencies(records, names[i])
    ensures error.Some? ==> IsFirstOffender(records, Elements(names), error.value)
    ensures error.None? && place ==> names[i] in remaining
    ensures error.None? && place ==>
      Progress(DependencyGraph(records), remaining - {names[i]}, pass[names[i] := p], ordered + [names[i]], p, names,
               i + 1)
    ensures error.None? && !place ==>
      Progress(DependencyGraph(records), remaining, pass, ordered, p, names, i + 1)
  {
    ghost var g := DependencyGraph(records);
    var deps := records[names[i]].dependencies;
    var unmet := FirstIn(deps, remaining);
    var missing := FirstUnknown(deps, records.Keys);
    if missing.Some? {
      OffenderIsFirst(records, names, i, missing.value);
      return Some(UnknownService(names[i], missing.value)), false;
    }
    if unmet.None? {
      TakeStep(g, remaining, pass, ordered, p, names, i);
    } else {
      assert Edge(g, names[i], unmet.value);
      Skipped(g, remaining, pass, p, names, i);
    }
    return None, unmet.None?;
  }

  lemma NoneExamined(g: Graph, remaining: set<Id>, pass: map<Id, nat>, order: seq<Id>, p: nat, names: seq<Id>)
    requires Progress(g, remaining, pass, order, p, names, 0)
    ensures forall k :: 0 <= k < |names| ==> names[k] in remaining
  {
  }

  // One pass over the sorted names, placing what it can as it goes.
  method RunPass(records: map<Id, Service>, names: seq<Id>, remaining0: set<Id>, ordered0: seq<Id>,
                 ghost pass0: map<Id, nat>, ghost p: nat)
    returns (error: Option<ServiceError>, remaining: set<Id>, ordered: seq<Id>, progressed: bool,
             ghost pass: map<Id, nat>)
    requires Progress(DependencyGraph(records), remaining0, pass0, ordered0, p, names, 0)
    requires forall x :: x in pass0 ==> pass0[x] < p
    requires forall x :: x in names ==> x in records
    ensures error.None? ==> Progress(DependencyGraph(records), remaining, pass, ordered, p, names, |names|)
    ensures error.None? ==> forall k :: 0 <= k < |names| ==> KnownDependencies(records, names[k])
    ensures error.None? && progressed ==> |ordered| > |ordered0|
    ensures error.None? && !progressed ==> |ordered| == |ordered0| && forall x :: x in pass ==> pass[x] < p
    ensures error.None? && !progressed ==> forall k :: 0 <= k < |names| ==> names[k] in remaining
    ensures error.Some? ==> IsFirstOffender(records, Elements(names), error.value)
  {
    hide *;
    NoneExamined(DependencyGraph(records), remaining0, pass0, ordered0, p, names);
    remaining, ordered, pass, progressed := remaining0, ordered0, pass0, false;
    for i := 0 to |names|
      invariant Progress(DependencyGraph(records), remaining, pass, ordered, p, names, i)
      invariant forall k :: 0 <= k < i ==> KnownDependencies(records, names[k])
      invariant |ordered| >= |ordered0| && (progressed ==> |ordered| > |ordered0|)
      invariant !progressed ==> |ordered| == |ordered0| && forall x :: x in pass ==> pass[x] < p
      invariant !progressed ==> forall k :: 0 <= k < |names| ==> names[k] in remaining
    {
      var place;
      error, place := Examine(records, names, i, remaining, ordered, pass, p);
      if error.Some? {
        return;
      }
      if place {
        ordered := ordered + [names[i]];
        remaining := remaining - {names[i]};
        pass := pass[names[i] := p];
        progressed := true;
      }
    }
    error := None;
  }

  ghost predicate AllKnown(records: map<Id, Service>) {
    forall x :: x in records ==> KnownDependencies(records, x)
  }

  // Between passes: everything placed was placed in an earlier pass, and the rest still waits.
  ghost predicate BetweenPasses(g: Graph, remaining: set<Id>, pass: map<Id, nat>, order: seq<Id>, p: nat) {
    && Placed(g, remaining, pass, order, p)
    && (forall x :: x in pass ==> pass[x] < p)
    && (forall x {:trigger Waits(g, remaining, pass, x, p)} :: x in remaining ==> Waits(g, remaining, pass, x, p))
  }

  lemma BeginPass(g: Graph, remaining: set<Id>, pass: map<Id, nat>, order: seq<Id>, p: nat, names: seq<Id>)
    requires BetweenPasses(g, remaining, pass, order, p) && Ascending(names)
    requires forall x :: x in names <==> x in remaining
    ensures Progress(g, remaining, pass, order, p, names, 0)
  {
  }

  lemma FinishPass(g: Graph, remaining: set<Id>, pass: map<Id, nat>, order: seq<Id>, p: nat, names: seq<Id>)
    requires Progress(g, remaining, pass, order, p, names, |names|)
    ensures BetweenPasses(g, remaining, pass, order, p + 1)
    ensures (forall x :: x in pass ==> pass[x] < p) ==>
      forall x {:trigger HasNextIn(g, remaining, x)} :: x in remaining ==> HasNextIn(g, remaining, x)
  {
    EndOfPass(g, remaining, pass, p, names);
  }

  lemma NothingRemaining(records: map<Id, Service>, pass: map<Id, nat>, order: seq<Id>, p: nat)
    requires BetweenPasses(DependencyGraph(records), {}, pass, order, p)
    requires p == 0 ==> records.Keys == {}
    requires p > 0 ==> AllKnown(records)
    ensures IsPassOrder(DependencyGraph(records), pass, order)
    ensures AllKnown(records) && Acyclic(DependencyGraph(records))
  {
    ListedIsAcyclic(DependencyGraph(records), order);
  }

  // The names left when a pass places nothing: the ones that lead into a cycle, and only those.
  lemma PassWithoutProgress(g: Graph, remaining: set<Id>, pass: map<Id, nat>, order: seq<Id>, p: nat, names: seq<Id>)
    requires Placed(g, remaining, pass, order, p) && remaining != {} && Ascending(names)
    requires forall x :: x in names <==> x in remaining
    requires forall x {:trigger HasNextIn(g, remaining, x)} :: x in remaining ==> HasNextIn(g, remaining, x)
    ensures IsTangle(g, names) && !Acyclic(g)
  {
    assert Elements(names) == remaining;
    var x :| x in remaining;
    assert x in names;
    var c := StuckHasCycle(g, names);
    forall x, d | Edge(g, x, d) && x !in names ensures d !in names {
      assert x in remaining + pass.Keys && x in Elements(order);
      var i :| 0 <= i < |order| && order[i] == x;
      assert d in order[..i] && d in Elements(order);
    }
  }

  lemma AllKnownAfterPass(records: map<Id, Service>, names: seq<Id>)
    requires forall k :: 0 <= k < |names| ==> names[k] in records && KnownDependencies(records, names[k])
    requires (forall x :: x in records ==> x in names) || AllKnown(records)
    ensures AllKnown(records)
  {
  }

  // Each name in `among` depends on another one there, and nothing outside leads into it.
  ghost predicate IsTangle(g: Graph, among: seq<Id>) {
    && Ascending(among) && Stuck(g, among)
    && (forall x, d :: Edge(g, x, d) && x !in among ==> d !in among)
  }

  /** What an ordering error says about the registered services. */
  ghost predicate ErrorJustified(records: map<Id, Service>, error: ServiceError) {
    match error
    case UnknownService(_, _) => IsFirstOffender(records, records.Keys, error) && !AllKnown(records)
    case DependencyCycle(among) =>
      AllKnown(records) && IsTangle(DependencyGraph(records), among) && !Acyclic(DependencyGraph(records))
    case _ => false
  }

  lemma OffenderJustified(records: map<Id, Service>, names: set<Id>, error: ServiceError)
    requires IsFirstOffender(records, names, error)
    requires (forall x :: x in records ==> x in names) || AllKnown(records)
    ensures ErrorJustified(records, error)
  {
  }

  // A pass that placed nothing leaves every remaining name waiting for another remaining one.
  lemma StallJustified(records: map<Id, Service>, remaining: set<Id>, pass: map<Id, nat>, order: seq<Id>,
                       p: nat, names: seq<Id>)
    requires AllKnown(records) && names != []
    requires Progress(DependencyGraph(records), remaining, pass, order, p, names, |names|)
    requires forall x :: x in pass ==> pass[x] < p
    requires forall k :: 0 <= k < |names| ==> names[k] in remaining
    ensures ErrorJustified(records, DependencyCycle(names))
  {
    var g := DependencyGraph(records);
    assert names[0] in remaining;
    EndOfPass(g, remaining, pass, p, names);
    PassWithoutProgress(g, remaining, pass, order, p, names);
  }

  // One pass over what remains; an error when it meets an unknown dependency or places nothing.
  method NextPass(records: map<Id, Service>, remaining0: set<Id>, ordered0: seq<Id>,
                  ghost pass0: map<Id, nat>, ghost p: nat)
    returns (error: Option<ServiceError>, remaining: set<Id>, ordered: seq<Id>, ghost pass: map<Id, nat>)
    requires BetweenPasses(DependencyGraph(records), remaining0, pass0, ordered0, p)
    requires remaining0 != {}
    requires if p == 0 then forall x :: x in records ==> x in remaining0 else AllKnown(records)
    ensures error.Some? ==> ErrorJustified(records, error.value)
    ensures error.None? ==> BetweenPasses(DependencyGraph(records), remaining, pass, ordered, p + 1)
    ensures error.None? ==> |ordered| > |ordered0| && AllKnown(records)
  {
    ghost var g := DependencyGraph(records);
    var names := SortNames(remaining0);
    BeginPass(g, remaining0, pass0, ordered0, p, names);
    var progressed;
    var x :| x in remaining0;
    assert x in names;
    error, remaining, ordered, progressed, pass := RunPass(records, names, remaining0, ordered0, pass0, p);
    if error.Some? {
      OffenderJustified(records, Elements(names), error.value);
      return;
    }
    AllKnownAfterPass(records, names);
    if !progressed {
      StallJustified(records, remaining, pass, ordered, p, names);
      error := Some(DependencyCycle(names));
      return;
    }
    FinishPass(g, remaining, pass, ordered, p, names);
  }

  lemma NothingPlaced(g: Graph)
    ensures BetweenPasses(g, g.Keys, map[], [], 0)
  {
  }

  // Every pass but the last placed something, so there were at most as many passes as services.
  lemma PassesBounded(g: Graph, remaining: set<Id>, pass: map<Id, nat>, order: seq<Id>, p: nat, passes: nat)
    requires BetweenPasses(g, remaining, pass, order, p)
    requires passes <= |order| || (passes == |order| + 1 && remaining != {})
    ensures passes <= |g.Keys| && |order| <= |g.Keys| && (remaining != {} ==> |order| < |g.Keys|)
  {
    PlacedOnce(pass, order);
    assert |remaining + Elements(order)| == |remaining| + |Elements(order)|;
  }

  lemma {:induction false} PlacedOnce(pass: map<Id, nat>, order: seq<Id>)
    requires OrderedByPass(pass, order)
    ensures |Elements(order)| == |order|
  {
    if order != [] {
      var front, last := order[..|order| - 1], order[|order| - 1];
      assert order == front + [last];
      assert forall x :: x in front ==> x in order;
      assert forall i :: 0 <= i < |front| ==> Earlier(pass, front[i], last);
      assert last in order;
      PlacedOnce(pass, front);
      EarlierIsOrder(pass, last, last);
      assert Elements(order) == Elements(front) + {last};
    }
  }

  lemma GraphKeys(records: map<Id, Service>)
    ensures DependencyGraph(records).Keys == records.Keys
  {
  }

  /** The start order: alphabetical passes, each placing whatever has no unplaced dependency. */
  method StartOrder(records: map<Id, Service>)
    returns (r: Result<seq<Id>, ServiceError>, ghost pass: map<Id, nat>, ghost passes: nat)
    ensures r.Ok? ==> AllKnown(records) && Acyclic(DependencyGraph(records))
    ensures r.Ok? ==> IsPassOrder(DependencyGraph(records), pass, r.value)
    ensures r.Err? ==> ErrorJustified(records, r.error)
    ensures passes <= |records.Keys|
  {
    hide *;
    ghost var g := DependencyGraph(records);
    GraphKeys(records);
    NothingPlaced(g);
    var remaining := records.Keys;
    var ordered := [];
    pass, passes := map[], 0;
    while remaining != {}
      invariant BetweenPasses(g, remaining, pass, ordered, passes)
      invariant passes <= |ordered|
      invariant if passes == 0 then forall x :: x in records ==> x in remaining else AllKnown(records)
      decreases |records.Keys| - |ordered|
    {
      var error, next, placed;
      ghost var numbers;
      error, next, placed, numbers := NextPass(records, remaining, ordered, pass, passes);
      PassesBounded(g, remaining, pass, ordered, passes, if passes == |ordered| then passes + 1 else passes);
      if error.Some? {
        PassesBounded(g, remaining, pass, ordered, passes, passes + 1);
        passes := passes + 1;
        r := Err(error.value);
        return;
      }
      remaining, ordered, pass := next, placed, numbers;
      passes := passes + 1;
    }
    PassesBounded(g, remaining, pass, ordered, passes, passes);
    assert remaining == {};
    NothingRemaining(records, pass, ordered, passes);
    r := Ok(ordered);
  }

  // --- lifecycle

  // The start() calls made for these names, in order.
  function StartCalls(records: map<Id, Service>, names: seq<Id>): seq<Call>
    requires forall x :: x in names ==> x in records
  {
    if names == [] then [] else
      var last := names[|names| - 1];
      StartCalls(records, names[..|names| - 1]) + if records[last].starter.Absent? then [] else [Start(last)]
  }

  // The stop() calls made for these names, last name first.
  function StopCalls(records: map<Id, Service>, names: seq<Id>): seq<Call>
    requires forall x :: x in names ==> x in records
  {
    if names == [] then [] else
      var last := names[|names| - 1];
      (if records[last].stopper.Absent? then [] else [Stop(last)]) + StopCalls(records, names[..|names| - 1])
  }

  /** Stopping runs backwards: what was listed later is stopped first, whatever its stop() does. */
  lemma {:induction false} StopsInReverse(records: map<Id, Service>, first: seq<Id>, later: seq<Id>)
    requires forall x :: x in first + later ==> x in records
    ensures StopCalls(records, first + later) == StopCalls(records, later) + StopCalls(records, first)
  {
    assert forall x :: x in first || x in later ==> x in first + later;
    if later == [] {
      assert first + later == first;
    } else {
      var all, front, last := first + later, later[..|later| - 1], later[|later| - 1];
      assert all[..|all| - 1] == first + front && all[|all| - 1] == last;
      StopsInReverse(records, first, front);
      var stop := if records[last].stopper.Absent? then [] else [Stop(last)];
      assert StopCalls(records, all) == stop + StopCalls(records, first + front);
    }
  }

  /** Exactly the listed services that have a stop() are stopped. */
  lemma {:induction false} StopsEach(records: map<Id, Service>, names: seq<Id>, x: Id)
    requires forall y :: y in names ==> y in records
    ensures Stop(x) in StopCalls(records, names) <==> x in names && !records[x].stopper.Absent?
    ensures Start(x) !in StopCalls(records, names) && |StopCalls(records, names)| <= |names|
  {
    if names != [] {
      var front, last := names[..|names| - 1], names[|names| - 1];
      assert names == front + [last];
      StopsEach(records, front, x);
    }
  }

  /** Starting runs forwards: what was listed earlier is started first. */
  lemma {:induction false} StartsInOrder(records: map<Id, Service>, first: seq<Id>, later: seq<Id>)
    requires forall x :: x in first + later ==> x in records
    ensures StartCalls(records, first + later) == StartCalls(records, first) + StartCalls(records, later)
  {
    assert forall x :: x in first || x in later ==> x in first + later;
    if later == [] {
      assert first + later == first;
    } else {
      var all, front, last := first + later, later[..|later| - 1], later[|later| - 1];
      assert all[..|all| - 1] == first + front && all[|all| - 1] == last;
      StartsInOrder(records, first, front);
    }
  }

  /** Exactly the listed services that have a start() are started. */
  lemma {:induction false} StartsEach(records: map<Id, Service>, names: seq<Id>, x: Id)
    requires forall y :: y in names ==> y in records
    ensures Start(x) in StartCalls(records, names) <==> x in names && !records[x].starter.Absent?
    ensures Stop(x) !in StartCalls(records, names)
    ensures |StartCalls(records, names)| <= |names|
  {
    if names != [] {
      var front, last := names[..|names| - 1], names[|names| - 1];
      assert names == front + [last];
      StartsEach(records, front, x);
    }
  }

  class Registry {
    var names: seq<Id>  // in registration order
    var records: map<Id, Service>
    var started: bool
    var calls: seq<Call>  // every start() and stop() made so far

    constructor ()
      ensures Valid() && names == [] && records == map[] && !started && calls == []
    {
      names, records, started, calls := [], map[], false, [];
    }

    ghost predicate Valid()
      reads this
    {
      Distinct(names) && forall x :: x in names <==> x in records
    }

    method Register(name: Id, service: Service) returns (r: Result<(), ServiceError>)
      requires Valid()
      modifies this`names, this`records
      ensures Valid()
      ensures r == if name in old(records) then Err(AlreadyRegistered(name)) else Ok(())
      ensures names == if r.Ok? then old(names) + [name] else old(names)
      ensures records == if r.Ok? then old(records)[name := service] else old(records)
    {
      if name in records {
        return Err(AlreadyRegistered(name));
      }
      names := names + [name];
      records := records[name := service];
      return Ok(());
    }

    // Calls start() on each in turn, up to and including the first that raises.
    method RunStarts(order: seq<Id>) returns (k: nat)
      requires forall x :: x in order ==> x in records
      modifies this`calls
      ensures k <= |order| && forall i :: 0 <= i < k ==> !records[order[i]].starter.Raises?
      ensures k < |order| ==> records[order[k]].starter.Raises?
      ensures calls == old(calls) + StartCalls(records, order[..k]) + if k < |order| then [Start(order[k])] else []
    {
      k := 0;
      while k < |order|
        invariant k <= |order| && forall i :: 0 <= i < k ==> !records[order[i]].starter.Raises?
        invariant calls == old(calls) + StartCalls(records, order[..k])
      {
        StartCallsNext(records, order, k);
        if !records[order[k]].starter.Absent? {
          calls := calls + [Start(order[k])];
        }
        if records[order[k]].starter.Raises? {
          return;
        }
        k := k + 1;
      }
    }

    /** Starts everything in start order; on a failure stops exactly what was started, in reverse. */
    method StartAll() returns (r: Result<(), ServiceError>, ghost order: seq<Id>, ghost pass: map<Id, nat>)
      requires Valid()
      modifies this`started, this`calls
      ensures r.Ok? || r.error.StartFailed? ==>
        IsPassOrder(DependencyGraph(records), pass, order) && forall x :: x in order ==> x in records
      ensures r.Ok? ==> started && calls == old(calls) + StartCalls(records, order)
      ensures r.Ok? ==> forall x :: x in order ==> !records[x].starter.Raises?
      ensures r.Err? ==> started == old(started)
      ensures r.Err? && r.error.StartFailed? ==> exists k ::
        (FailsAt(records, order, k)
         && r.error.named == (if k == 0 then "?" else order[k - 1])
         && calls == old(calls) + StartCalls(records, order[..k]) + [Start(order[k])] + StopCalls(records, order[..k]))
      ensures r.Err? && !r.error.StartFailed? ==> ErrorJustified(records, r.error) && calls == old(calls)
    {
      var ordered;
      ghost var passes;
      ordered, pass, passes := StartOrder(records);
      hide *;
      if ordered.Err? {
        NotAStartFailure(records, ordered.error);
        return Err(ordered.error), [], map[];
      }
      order := ordered.value;
      ListedAreRecords(records, pass, order);
      var k := RunStarts(ordered.value);
      if k < |ordered.value| {
        assert forall x :: x in order[..k] ==> x in order;
        assert order[k] in order;
        StopReverse(ordered.value[..k]);
        FailsHere(records, order, k);
        r := Err(StartFailed(if k == 0 then "?" else ordered.value[k - 1]));
        assert FailsAt(records, order, k) && r.error.named == (if k == 0 then "?" else order[k - 1])
          && calls == old(calls) + StartCalls(records, order[..k]) + [Start(order[k])] + StopCalls(records, order[..k]);
      } else {
        assert order[..k] == order;
        started := true;
        r := Ok(());
      }
    }

    // Stops in reverse registration order.
    method StopAll()
      requires Valid()
      modifies this`started, this`calls
      ensures !started && calls == old(calls) + StopCalls(records, names)
    {
      started := false;
      StopReverse(names);
    }

    // A stop() that raises is logged and does not keep the others from being stopped.
    method StopReverse(list: seq<Id>)
      requires forall x :: x in list ==> x in records
      modifies this`calls
      ensures calls == old(calls) + StopCalls(records, list)
    {
      var i := |list|;
      assert list[..i] == list;
      while i > 0
        invariant 0 <= i <= |list|
        invariant calls + StopCalls(records, list[..i]) == old(calls) + StopCalls(records, list)
      {
        assert list[..i][..i - 1] == list[..i - 1];
        i := i - 1;
        if !records[list[i]].stopper.Absent? {
          calls := calls + [Stop(list[i])];
        }
      }
    }
  }

  // The first start() that raises is the one at position k.
  ghost predicate FailsAt(records: map<Id, Service>, order: seq<Id>, k: int) {
    && 0 <= k < |order| && (forall i :: 0 <= i <= k ==> order[i] in records)
    && records[order[k]].starter.Raises?
    && (forall i :: 0 <= i < k ==> !records[order[i]].starter.Raises?)
  }

  lemma FailsHere(records: map<Id, Service>, order: seq<Id>, k: nat)
    requires k < |order| && (forall x :: x in order ==> x in records)
    requires records[order[k]].starter.Raises?
    requires forall i :: 0 <= i < k ==> !records[order[i]].starter.Raises?
    ensures FailsAt(records, order, k)
  {
  }

  lemma NotAStartFailure(records: map<Id, Service>, error: ServiceError)
    requires ErrorJustified(records, error)
    ensures !error.StartFailed?
  {
  }

  lemma ListedAreRecords(records: map<Id, Service>, pass: map<Id, nat>, order: seq<Id>)
    requires IsPassOrder(DependencyGraph(records), pass, order)
    ensures forall x :: x in order <==> x in records
  {
    hide PassNumbers, OrderedByPass, DepsFirst;
    GraphKeys(records);
    forall x ensures x in order <==> x in records {
      assert x in order <==> x in Elements(order);
      assert x in records <==> x in records.Keys;
    }
  }

  lemma StartCallsNext(records: map<Id, Service>, order: seq<Id>, k: nat)
    requires k < |order| && forall x :: x in order ==> x in records
    ensures StartCalls(records, order[..k + 1])
         == StartCalls(records, order[..k]) + if records[order[k]].starter.Absent? then [] else [Start(order[k])]
  {
    assert order[..k + 1][..k] == order[..k];
  }
}
