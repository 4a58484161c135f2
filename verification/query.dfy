/** The query engine of the database: a fresh traversal of the approaches in
    storage order that keeps those every filter accepts. */
module QueryEngine {
  import opened Outcomes
  import opened Models
  import opened Filters
  import opened Database

  /** Where a traversal of `n` positions ends: at the first failing position,
      or after the last one. */
  function End(n: nat, failure: Option<nat>): nat {
    if failure.Some? then failure.value else n
  }

  /** The first position at or after `from` whose outcome is an exception. */
  function FirstRaise<E>(os: seq<Result<bool, E>>, from: nat): (r: Option<nat>)
    requires from <= |os|
    ensures r.Some? ==> from <= r.value < |os| && os[r.value].Failure?
    ensures forall i :: from <= i < End(|os|, r) ==> os[i].Success?
    decreases |os| - from
  {
    if from == |os| then None
    else if os[from].Failure? then Some(from)
    else FirstRaise(os, from + 1)
  }

  /** The generator loop of `query`, run over the outcome of the filter check
      at each position: it yields exactly the positions whose check is true,
      in order, and stops with the exception of the first check that raises. */
  function Sweep<E>(os: seq<Result<bool, E>>, from: nat): (r: Run<nat, E>)
    requires from <= |os|
    ensures r.raised.Some? <==> FirstRaise(os, from).Some?
    ensures r.raised.Some? ==> os[FirstRaise(os, from).value] == Failure(r.raised.value)
    ensures forall j :: 0 <= j < |r.items| ==>
      from <= r.items[j] < End(|os|, FirstRaise(os, from)) && os[r.items[j]] == Success(true)
    ensures forall i :: from <= i < End(|os|, FirstRaise(os, from)) ==>
      (os[i] == Success(true) ==> i in r.items)
    ensures forall j, j' :: 0 <= j < j' < |r.items| ==> r.items[j] < r.items[j']
    decreases |os| - from
  {
    if from == |os| then Run([], None)
    else
      match os[from]
      case Failure(e) => Run([], Some(e))
      case Success(keep) =>
        var rest := Sweep(os, from + 1);
        if keep then Run([from] + rest.items, rest.raised) else rest
  }

  /** The outcome of the filter check on every stored approach. */
  function Checks(db: Database, fs: seq<Filter>): (os: seq<Result<bool, Fault>>)
    requires LinksInRange(db.neos, db.approaches)
    ensures |os| == |db.approaches|
    ensures forall i :: 0 <= i < |db.approaches| ==> os[i] == AllHold(fs, db.approaches[i], db.neos)
  {
    seq(|db.approaches|, i requires 0 <= i < |db.approaches| => AllHold(fs, db.approaches[i], db.neos))
  }

  /** `filter(approach)` is true for every filter. */
  predicate Matches(fs: seq<Filter>, a: Approach, neos: seq<Neo>)
    requires a.neo.Some? ==> a.neo.value < |neos|
  {
    AllHold(fs, a, neos) == Success(true)
  }

  /** The first stored approach on which checking the filters raises. */
  function FirstFailure(db: Database, fs: seq<Filter>): Option<nat>
    requires LinksInRange(db.neos, db.approaches)
  {
    FirstRaise(Checks(db, fs), 0)
  }

  /** `query(filters)`: the positions, in storage order, of the approaches
      every filter accepts. When checking the filters raises, the stream ends
      with that exception at the first approach where it does. */
  function Query(db: Database, fs: seq<Filter>): (r: Run<nat, Fault>)
    requires LinksInRange(db.neos, db.approaches)
    ensures r.raised.Some? <==> FirstFailure(db, fs).Some?
    ensures r.raised.Some? ==>
      AllHold(fs, db.approaches[FirstFailure(db, fs).value], db.neos) == Failure(r.raised.value)
    ensures forall i :: 0 <= i < End(|db.approaches|, FirstFailure(db, fs)) ==>
      AllHold(fs, db.approaches[i], db.neos).Success?
    ensures forall j :: 0 <= j < |r.items| ==>
      r.items[j] < End(|db.approaches|, FirstFailure(db, fs)) && Matches(fs, db.approaches[r.items[j]], db.neos)
    ensures forall i :: 0 <= i < End(|db.approaches|, FirstFailure(db, fs)) ==>
      (Matches(fs, db.approaches[i], db.neos) ==> i in r.items)
    ensures forall j, j' :: 0 <= j < j' < |r.items| ==> r.items[j] < r.items[j']
  {
    Sweep(Checks(db, fs), 0)
  }

  /** The positions `lo`, `lo + 1`, ..., `hi - 1`, in order. */
  function Positions(lo: nat, hi: nat): (r: seq<nat>)
    ensures |r| == if lo <= hi then hi - lo else 0
    ensures forall j :: 0 <= j < |r| ==> r[j] == lo + j
    decreases hi - lo
  {
    if lo >= hi then [] else [lo] + Positions(lo + 1, hi)
  }

  lemma {:induction false} SweepAllAccepted<E>(os: seq<Result<bool, E>>, from: nat)
    requires from <= |os|
    requires forall i :: from <= i < |os| ==> os[i] == Success(true)
    ensures Sweep(os, from) == Run(Positions(from, |os|), None)
    decreases |os| - from
  {
    if from < |os| {
      SweepAllAccepted(os, from + 1);
    }
  }

  /** `query()` with no filters yields every stored approach, in order. */
  lemma QueryUnfiltered(db: Database)
    requires LinksInRange(db.neos, db.approaches)
    ensures Query(db, []) == Run(Positions(0, |db.approaches|), None)
  {
    SweepAllAccepted(Checks(db, []), 0);
  }

  /** Every filter in `fs` evaluates without raising on every approach. */
  ghost predicate TotalOn(db: Database, fs: seq<Filter>)
    requires LinksInRange(db.neos, db.approaches)
  {
    forall i, j :: 0 <= i < |db.approaches| && 0 <= j < |fs| ==> Eval(fs[j], db.approaches[i], db.neos).Success?
  }

  /** Filters that cannot raise act as a plain conjunction: only which
      filters appear matters, not their order or repetition. */
  lemma AllHoldSameFilters(fs: seq<Filter>, gs: seq<Filter>, a: Approach, neos: seq<Neo>)
    requires a.neo.Some? ==> a.neo.value < |neos|
    requires forall f :: f in fs <==> f in gs
    requires forall j :: 0 <= j < |fs| ==> Eval(fs[j], a, neos).Success?
    ensures AllHold(fs, a, neos) == AllHold(gs, a, neos)
  {
    forall j | 0 <= j < |gs| ensures Eval(gs[j], a, neos).Success? {
      assert gs[j] in fs;
      var m :| 0 <= m < |fs| && fs[m] == gs[j];
    }
    var rf, rg := AllHold(fs, a, neos), AllHold(gs, a, neos);
    assert rf.Success? && rg.Success?;
    if rf.value {
      forall j | 0 <= j < |gs| ensures Eval(gs[j], a, neos) == Success(true) {
        assert gs[j] in fs;
        var m :| 0 <= m < |fs| && fs[m] == gs[j];
      }
    }
    if rg.value {
      forall j | 0 <= j < |fs| ensures Eval(fs[j], a, neos) == Success(true) {
        assert fs[j] in gs;
        var m :| 0 <= m < |gs| && gs[m] == fs[j];
      }
    }
  }

  /** With filters that cannot raise, permuting them leaves the query's
      output unchanged. */
  lemma QueryPermutation(db: Database, fs: seq<Filter>, gs: seq<Filter>)
    requires LinksInRange(db.neos, db.approaches)
    requires multiset(fs) == multiset(gs)
    requires TotalOn(db, fs)
    ensures Query(db, fs) == Query(db, gs)
  {
    forall f ensures f in fs <==> f in gs {
      assert f in fs <==> f in multiset(fs);
      assert f in gs <==> f in multiset(gs);
    }
    forall i | 0 <= i < |db.approaches|
      ensures AllHold(fs, db.approaches[i], db.neos) == AllHold(gs, db.approaches[i], db.neos)
    {
      AllHoldSameFilters(fs, gs, db.approaches[i], db.neos);
    }
    assert Checks(db, fs) == Checks(db, gs);
  }

  lemma NoFailureWhenTotal(db: Database, fs: seq<Filter>)
    requires LinksInRange(db.neos, db.approaches)
    requires forall i :: 0 <= i < |db.approaches| ==> AllHold(fs, db.approaches[i], db.neos).Success?
    ensures FirstFailure(db, fs).None?
  {
  }

  /** With filters that cannot raise, querying with two lists at once keeps
      exactly the approaches both queries keep. */
  lemma QueryConjunction(db: Database, fs: seq<Filter>, gs: seq<Filter>)
    requires LinksInRange(db.neos, db.approaches)
    requires TotalOn(db, fs) && TotalOn(db, gs)
    ensures Query(db, fs + gs).raised.None?
    ensures forall i :: i in Query(db, fs + gs).items <==> i in Query(db, fs).items && i in Query(db, gs).items
  {
    var both := fs + gs;
    forall i | 0 <= i < |db.approaches|
      ensures AllHold(both, db.approaches[i], db.neos).Success?
      ensures Matches(both, db.approaches[i], db.neos) <==>
              Matches(fs, db.approaches[i], db.neos) && Matches(gs, db.approaches[i], db.neos)
    {
      var a := db.approaches[i];
      forall j | 0 <= j < |both| ensures Eval(both[j], a, db.neos).Success? {
        if j < |fs| { assert both[j] == fs[j]; } else { assert both[j] == gs[j - |fs|]; }
      }
      if Matches(fs, a, db.neos) && Matches(gs, a, db.neos) {
        forall j | 0 <= j < |both| ensures Eval(both[j], a, db.neos) == Success(true) {
          if j < |fs| { assert both[j] == fs[j]; } else { assert both[j] == gs[j - |fs|]; }
        }
      }
      if Matches(both, a, db.neos) {
        forall j | 0 <= j < |fs| ensures Eval(fs[j], a, db.neos) == Success(true) {
          assert both[j] == fs[j];
        }
        forall j | 0 <= j < |gs| ensures Eval(gs[j], a, db.neos) == Success(true) {
          assert both[|fs| + j] == gs[j];
        }
      }
    }
    NoFailureWhenTotal(db, fs);
    NoFailureWhenTotal(db, gs);
    NoFailureWhenTotal(db, both);
  }

  /** A filter on the linked NEO raises once the traversal reaches an
      unlinked approach: the unlinked approach is not silently skipped. */
  lemma QueryRaisesOnUnlinked(db: Database, f: Filter, i: nat)
    requires LinksInRange(db.neos, db.approaches)
    requires f.NeedsNeo() && i < |db.approaches| && db.approaches[i].neo.None?
    ensures Query(db, [f]).raised == Some(NeoIsNone)
  {
    assert AllHold([f], db.approaches[i], db.neos).Failure?;
  }

  /** Two NEOs, "2001" (named, hazardous) and "2002" (blank name, unknown
      diameter), and two approaches, of "2001" and of the uncatalogued
      "2003", linked as the constructor links them. */
  function SampleDatabase(t1: Time, t2: Time): (db: Database)
    ensures LinksInRange(db.neos, db.approaches)
  {
    Database(
      [Neo("2001", Some("Apophis"), Some(0.34), true, [0]), Neo("2002", Some(""), None, false, [])],
      [Approach("2001", t1, 0.1, 5.0, Some(0)), Approach("2003", t2, 0.2, 6.0, None)],
      map["2001" := 0],
      map["Apophis" := 0])
  }

  /** The sample is a database the constructor could have built: its links,
      approach lists, designation cache and name index are the ones linking
      establishes. */
  lemma SampleDatabaseValid(t1: Time, t2: Time)
    ensures Valid(SampleDatabase(t1, t2))
  {
    SampleLinks(t1, t2);
    SampleLists(t1, t2);
    SampleCache(t1, t2);
    SampleNames(t1, t2);
  }

  lemma SampleLinks(t1: Time, t2: Time)
    ensures var db := SampleDatabase(t1, t2); LinkedToFirstMatch(db.neos, db.approaches)
  {
    var db := SampleDatabase(t1, t2);
    assert FirstMatch(db.neos, "2001") == Some(0);
    assert FirstMatch(db.neos, "2003") == None;
  }

  lemma SampleLists(t1: Time, t2: Time)
    ensures var db := SampleDatabase(t1, t2); ListsMatchLinks(db.neos, db.approaches)
  {
    var db := SampleDatabase(t1, t2);
    var first := db.approaches[..1];
    assert first[..0] == [];
    assert LinkedTo(first[..0], 0) == [] && LinkedTo(first[..0], 1) == [];
    assert LinkedTo(first, 0) == [0] && LinkedTo(first, 1) == [];
  }

  lemma SampleCache(t1: Time, t2: Time)
    ensures var db := SampleDatabase(t1, t2); DesignationsCached(db.neos, db.approaches, |db.approaches|, db.byDesignation)
  {
    var db := SampleDatabase(t1, t2);
    assert FirstMatch(db.neos, "2001") == Some(0);
    assert FirstMatch(db.neos, "2003") == None;
    forall d | true
      ensures d in db.byDesignation <==>
        exists j :: 0 <= j < |db.approaches| && db.approaches[j].designation == d && FirstMatch(db.neos, d).Some?
    {
      if d == "2001" {
        assert db.approaches[0].designation == d;
      }
    }
  }

  lemma SampleNames(t1: Time, t2: Time)
    ensures var db := SampleDatabase(t1, t2); NamesIndexed(db.neos, db.approaches, db.byName)
  {
    var db := SampleDatabase(t1, t2);
    assert NamedHit(db.neos, db.approaches, 0, "Apophis");
    assert forall name :: !NamedHit(db.neos, db.approaches, 1, name);
    assert FirstNamedHit(db.neos, db.approaches, 0, "Apophis");
  }

  /** On the sample, a hazardous filter yields the approach of "2001" and then
      raises at the unlinked approach of "2003" instead of skipping it; a
      limit of one stops the stream before the exception is reached. */
  lemma SampleHazardousQuery(t1: Time, t2: Time)
    ensures Query(SampleDatabase(t1, t2), [HazardousFilter(Eq, true)]) == Run([0], Some(NeoIsNone))
    ensures LimitRun(Query(SampleDatabase(t1, t2), [HazardousFilter(Eq, true)]), Some(1)) == Run([0], None)
  {
    var db := SampleDatabase(t1, t2);
    var fs := [HazardousFilter(Eq, true)];
    EvalSemantics(fs[0], db.approaches[0], db.neos);
    assert Eval(fs[0], db.approaches[0], db.neos) == Success(true);
    assert AllHold(fs, db.approaches[0], db.neos) == Success(true);
    assert AllHold(fs, db.approaches[1], db.neos) == Failure(NeoIsNone);
    var os := Checks(db, fs);
    assert Sweep(os, 2) == Run([], None);
    assert Sweep(os, 1) == Run([], Some(NeoIsNone));
  }
}
