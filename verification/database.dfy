/** The linked database: approaches cross-linked to NEOs by designation, the
    two lookup indices, and the conjunctive query. */
module Database {
  import opened Outcomes
  import opened Models

  /** Both collections after linking, with the designation index (hits only)
      and the name index. Index values are positions in `neos`. */
  datatype Database = Database(
    neos: seq<Neo>,
    approaches: seq<Approach>,
    byDesignation: map<string, nat>,
    byName: map<string, nat>)

  /** The position of the first NEO whose designation is `d`, if any. */
  function FirstMatch(neos: seq<Neo>, d: string): (r: Option<nat>)
    ensures r.Some? ==> r.value < |neos| && neos[r.value].designation == d
    ensures r.Some? ==> forall j :: 0 <= j < r.value ==> neos[j].designation != d
    ensures r.None? ==> forall j :: 0 <= j < |neos| ==> neos[j].designation != d
  {
    if |neos| == 0 then None
    else if neos[0].designation == d then Some(0)
    else
      match FirstMatch(neos[1..], d)
      case None => None
      case Some(j) => Some(j + 1)
  }

  /** The positions, in storage order, of the approaches linked to NEO `k`. */
  function LinkedTo(approaches: seq<Approach>, k: nat): (r: seq<nat>)
    ensures forall j :: 0 <= j < |r| ==> r[j] < |approaches| && approaches[r[j]].neo == Some(k)
    ensures forall i :: 0 <= i < |approaches| && approaches[i].neo == Some(k) ==> i in r
    ensures forall j, j' :: 0 <= j < j' < |r| ==> r[j] < r[j']
  {
    if |approaches| == 0 then []
    else
      var last := |approaches| - 1;
      LinkedTo(approaches[..last], k) + (if approaches[last].neo == Some(k) then [last] else [])
  }

  lemma LinkedToAppend(s: seq<Approach>, x: Approach)
    ensures forall k: nat :: LinkedTo(s + [x], k) == LinkedTo(s, k) + (if x.neo == Some(k) then [|s|] else [])
  {
    assert (s + [x])[..|s|] == s;
  }

  lemma {:induction false} LinkedToNone(approaches: seq<Approach>, k: nat)
    requires forall i :: 0 <= i < |approaches| ==> approaches[i].neo != Some(k)
    ensures LinkedTo(approaches, k) == []
  {
    if |approaches| > 0 {
      LinkedToNone(approaches[..|approaches| - 1], k);
    }
  }

  /** Approach `i` is linked to a NEO that has the non-empty name `name`. */
  predicate NamedHit(neos: seq<Neo>, approaches: seq<Approach>, i: nat, name: string)
    requires i < |approaches|
  {
    && approaches[i].neo.Some?
    && approaches[i].neo.value < |neos|
    && HasName(neos[approaches[i].neo.value])
    && neos[approaches[i].neo.value].name.value == name
  }

  /** Approach `i` is the first, in storage order, linked to a NEO named `name`. */
  predicate FirstNamedHit(neos: seq<Neo>, approaches: seq<Approach>, i: nat, name: string)
    requires i < |approaches|
  {
    NamedHit(neos, approaches, i, name) && forall j :: 0 <= j < i ==> !NamedHit(neos, approaches, j, name)
  }

  /** The linear scan over `neos` that stops at the first designation match. */
  method ScanNeos(neos: seq<Neo>, d: string) returns (r: Option<nat>)
    ensures r == FirstMatch(neos, d)
  {
    var k := 0;
    while k < |neos|
      invariant 0 <= k <= |neos|
      invariant forall j :: 0 <= j < k ==> neos[j].designation != d
    {
      if neos[k].designation == d {
        return Some(k);
      }
      k := k + 1;
    }
    return None;
  }

  /** The name index built so far: every non-empty name of a linked NEO maps
      to the NEO of its first such approach. */
  ghost predicate NamesIndexed(neos: seq<Neo>, linked: seq<Approach>, byName: map<string, nat>) {
    && (forall name :: name in byName <==> exists j :: 0 <= j < |linked| && NamedHit(neos, linked, j, name))
    && (forall name :: name in byName ==>
          exists j :: 0 <= j < |linked| && FirstNamedHit(neos, linked, j, name) && byName[name] == linked[j].neo.value)
  }

  /** `if neo and neo.name: if name not in index: index[name] = neo`. */
  function RecordName(neos: seq<Neo>, byName: map<string, nat>, a: Approach): map<string, nat>
    requires a.neo.Some? ==> a.neo.value < |neos|
  {
    if a.neo.Some? && HasName(neos[a.neo.value]) && neos[a.neo.value].name.value !in byName
    then byName[neos[a.neo.value].name.value := a.neo.value]
    else byName
  }

  lemma RecordNameStep(neos: seq<Neo>, linked: seq<Approach>, byName: map<string, nat>, a: Approach)
    requires a.neo.Some? ==> a.neo.value < |neos|
    requires NamesIndexed(neos, linked, byName)
    ensures NamesIndexed(neos, linked + [a], RecordName(neos, byName, a))
  {
    var linked' := linked + [a];
    assert forall j :: 0 <= j < |linked| ==> linked'[j] == linked[j];
    assert forall j, name :: 0 <= j < |linked| ==> (NamedHit(neos, linked', j, name) <==> NamedHit(neos, linked, j, name));
    RecordNameKeys(neos, linked, byName, a);
    RecordNameValues(neos, linked, byName, a);
  }

  lemma RecordNameKeys(neos: seq<Neo>, linked: seq<Approach>, byName: map<string, nat>, a: Approach)
    requires a.neo.Some? ==> a.neo.value < |neos|
    requires NamesIndexed(neos, linked, byName)
    requires forall j, name :: 0 <= j < |linked| ==> (NamedHit(neos, linked + [a], j, name) <==> NamedHit(neos, linked, j, name))
    ensures forall name :: name in RecordName(neos, byName, a) <==>
      exists j :: 0 <= j < |linked + [a]| && NamedHit(neos, linked + [a], j, name)
  {
    var linked' := linked + [a];
    forall name | exists j :: 0 <= j < |linked'| && NamedHit(neos, linked', j, name)
      ensures name in RecordName(neos, byName, a)
    {
      var j :| 0 <= j < |linked'| && NamedHit(neos, linked', j, name);
      if j < |linked| {
        assert NamedHit(neos, linked, j, name);
      }
    }
    forall name | name in RecordName(neos, byName, a)
      ensures exists j :: 0 <= j < |linked'| && NamedHit(neos, linked', j, name)
    {
      if name in byName {
        var j :| 0 <= j < |linked| && NamedHit(neos, linked, j, name);
        assert NamedHit(neos, linked', j, name);
      } else {
        assert NamedHit(neos, linked', |linked|, name);
      }
    }
  }

  lemma RecordNameValues(neos: seq<Neo>, linked: seq<Approach>, byName: map<string, nat>, a: Approach)
    requires a.neo.Some? ==> a.neo.value < |neos|
    requires NamesIndexed(neos, linked, byName)
    requires forall j :: 0 <= j < |linked| ==> (linked + [a])[j] == linked[j]
    requires forall j, name :: 0 <= j < |linked| ==> (NamedHit(neos, linked + [a], j, name) <==> NamedHit(neos, linked, j, name))
    ensures forall name :: name in RecordName(neos, byName, a) ==>
      exists j :: 0 <= j < |linked + [a]| && FirstNamedHit(neos, linked + [a], j, name)
                  && RecordName(neos, byName, a)[name] == (linked + [a])[j].neo.value
  {
    var linked' := linked + [a];
    var byName' := RecordName(neos, byName, a);
    forall name | name in byName'
      ensures exists j :: 0 <= j < |linked'| && FirstNamedHit(neos, linked', j, name) && byName'[name] == linked'[j].neo.value
    {
      if name in byName {
        var j :| 0 <= j < |linked| && FirstNamedHit(neos, linked, j, name) && byName[name] == linked[j].neo.value;
        assert FirstNamedHit(neos, linked', j, name);
      } else {
        assert NamedHit(neos, linked', |linked|, name);
        assert FirstNamedHit(neos, linked', |linked|, name);
      }
    }
  }

  /** The designation cache after `count` approaches: it holds exactly the
      designations among them that matched a NEO, mapped to the first match. */
  ghost predicate DesignationsCached(neos: seq<Neo>, approaches: seq<Approach>, count: nat, byDesignation: map<string, nat>)
    requires count <= |approaches|
  {
    && (forall d :: d in byDesignation <==>
          exists j :: 0 <= j < count && approaches[j].designation == d && FirstMatch(neos, d).Some?)
    && (forall d :: d in byDesignation ==> FirstMatch(neos, d) == Some(byDesignation[d]))
  }

  /** The cache lookup, falling back to the scan and caching a hit. */
  method Resolve(neos: seq<Neo>, approaches: seq<Approach>, i: nat, byDesignation: map<string, nat>)
    returns (neo: Option<nat>, cache: map<string, nat>)
    requires i < |approaches|
    requires DesignationsCached(neos, approaches, i, byDesignation)
    ensures neo == FirstMatch(neos, approaches[i].designation)
    ensures DesignationsCached(neos, approaches, i + 1, cache)
  {
    var d := approaches[i].designation;
    if d in byDesignation {
      neo, cache := Some(byDesignation[d]), byDesignation;
    } else {
      neo := ScanNeos(neos, d);
      cache := if neo.Some? then byDesignation[d := neo.value] else byDesignation;
    }
  }

  /** Every approach is linked to the first NEO with its designation. */
  ghost predicate LinkedToFirstMatch(neos: seq<Neo>, approaches: seq<Approach>) {
    forall i :: 0 <= i < |approaches| ==> approaches[i].neo == FirstMatch(neos, approaches[i].designation)
  }

  /** Every NEO lists exactly the approaches linked to it, in storage order. */
  ghost predicate ListsMatchLinks(neos: seq<Neo>, approaches: seq<Approach>) {
    forall k :: 0 <= k < |neos| ==> neos[k].approaches == LinkedTo(approaches, k)
  }

  /** What linking establishes, stated on the database alone. */
  ghost predicate Valid(db: Database) {
    && LinksInRange(db.neos, db.approaches)
    && LinkedToFirstMatch(db.neos, db.approaches)
    && ListsMatchLinks(db.neos, db.approaches)
    && DesignationsCached(db.neos, db.approaches, |db.approaches|, db.byDesignation)
    && NamesIndexed(db.neos, db.approaches, db.byName)
  }

  /** `neo.approaches.append(approach)` for the linked NEO, if any. */
  function AddLink(lists: seq<seq<nat>>, neo: Option<nat>, i: nat): (r: seq<seq<nat>>)
    requires neo.Some? ==> neo.value < |lists|
    ensures |r| == |lists|
  {
    if neo.Some? then lists[neo.value := lists[neo.value] + [i]] else lists
  }

  /** Appending an approach to its NEO's list keeps every list equal to the
      approaches linked to that NEO. */
  lemma ListsStep(linked: seq<Approach>, lists: seq<seq<nat>>, a: Approach)
    requires forall k :: 0 <= k < |lists| ==> lists[k] == LinkedTo(linked, k)
    requires a.neo.Some? ==> a.neo.value < |lists|
    ensures forall k :: 0 <= k < |lists| ==> AddLink(lists, a.neo, |linked|)[k] == LinkedTo(linked + [a], k)
  {
    LinkedToAppend(linked, a);
  }

  /** The loop of the constructor: links every approach to the first NEO
      with its designation, caching hits by designation, collects each NEO's
      approaches, and records the first linked NEO for each non-empty name. */
  method LinkAll(neos: seq<Neo>, approaches: seq<Approach>)
    returns (linked: seq<Approach>, lists: seq<seq<nat>>, byDesignation: map<string, nat>, byName: map<string, nat>)
    ensures |linked| == |approaches| && |lists| == |neos|
    ensures forall j :: 0 <= j < |approaches| ==>
      linked[j] == approaches[j].(neo := FirstMatch(neos, approaches[j].designation))
    ensures forall k :: 0 <= k < |neos| ==> lists[k] == LinkedTo(linked, k)
    ensures DesignationsCached(neos, approaches, |approaches|, byDesignation)
    ensures NamesIndexed(neos, linked, byName)
  {
    linked, lists, byDesignation, byName := [], seq(|neos|, _ => []), map[], map[];
    var i := 0;
    while i < |approaches|
      invariant 0 <= i <= |approaches| && |linked| == i && |lists| == |neos|
      invariant forall j :: 0 <= j < i ==>
        linked[j] == approaches[j].(neo := FirstMatch(neos, approaches[j].designation))
      invariant forall k :: 0 <= k < |neos| ==> lists[k] == LinkedTo(linked, k)
      invariant DesignationsCached(neos, approaches, i, byDesignation)
      invariant NamesIndexed(neos, linked, byName)
    {
      var neo;
      neo, byDesignation := Resolve(neos, approaches, i, byDesignation);
      var a := approaches[i].(neo := neo);
      ListsStep(linked, lists, a);
      lists := AddLink(lists, a.neo, i);
      RecordNameStep(neos, linked, byName, a);
      byName := RecordName(neos, byName, a);
      linked := linked + [a];
      i := i + 1;
    }
  }

  /** `NEODatabase.__init__`: links the two collections and builds the two
      indices. The NEOs must arrive with empty approach lists. */
  method Build(neos: seq<Neo>, approaches: seq<Approach>) returns (db: Database)
    requires forall k :: 0 <= k < |neos| ==> neos[k].approaches == []
    ensures Valid(db)
    ensures |db.neos| == |neos|
    ensures forall k :: 0 <= k < |neos| ==> db.neos[k].(approaches := []) == neos[k]
    ensures |db.approaches| == |approaches|
    ensures forall i :: 0 <= i < |approaches| ==> db.approaches[i].(neo := approaches[i].neo) == approaches[i]
  {
    var linked, lists, byDesignation, byName := LinkAll(neos, approaches);
    var linkedNeos := seq(|neos|, k requires 0 <= k < |neos| => neos[k].(approaches := lists[k]));
    db := Database(linkedNeos, linked, byDesignation, byName);
    BuildValid(neos, approaches, db);
  }

  /** The state the loop of `Build` ends in is a valid database. */
  lemma BuildValid(neos: seq<Neo>, approaches: seq<Approach>, db: Database)
    requires |db.neos| == |neos| && |db.approaches| == |approaches|
    requires forall k :: 0 <= k < |neos| ==> db.neos[k] == neos[k].(approaches := LinkedTo(db.approaches, k))
    requires forall j :: 0 <= j < |approaches| ==>
      db.approaches[j] == approaches[j].(neo := FirstMatch(neos, approaches[j].designation))
    requires DesignationsCached(neos, approaches, |approaches|, db.byDesignation)
    requires NamesIndexed(neos, db.approaches, db.byName)
    ensures Valid(db)
  {
    forall d ensures FirstMatch(db.neos, d) == FirstMatch(neos, d) {
      FirstMatchReadsDesignations(neos, db.neos, d);
    }
    assert LinkedToFirstMatch(db.neos, db.approaches);
    assert ListsMatchLinks(db.neos, db.approaches);
    CacheTransfer(neos, approaches, db.neos, db.approaches, db.byDesignation);
    NamesTransfer(neos, db.neos, db.approaches, db.byName);
  }

  lemma CacheTransfer(neos: seq<Neo>, approaches: seq<Approach>, neos': seq<Neo>, approaches': seq<Approach>,
                      byDesignation: map<string, nat>)
    requires |approaches| == |approaches'|
    requires forall j :: 0 <= j < |approaches| ==> approaches[j].designation == approaches'[j].designation
    requires forall d :: FirstMatch(neos', d) == FirstMatch(neos, d)
    requires DesignationsCached(neos, approaches, |approaches|, byDesignation)
    ensures DesignationsCached(neos', approaches', |approaches'|, byDesignation)
  {
  }

  lemma NamesTransfer(neos: seq<Neo>, neos': seq<Neo>, approaches: seq<Approach>, byName: map<string, nat>)
    requires |neos| == |neos'|
    requires forall k :: 0 <= k < |neos| ==> neos[k].name == neos'[k].name
    requires NamesIndexed(neos, approaches, byName)
    ensures NamesIndexed(neos', approaches, byName)
  {
    assert forall j, name :: 0 <= j < |approaches| ==>
      (NamedHit(neos', approaches, j, name) <==> NamedHit(neos, approaches, j, name));
  }

  /** Only designations matter to the scan. */
  lemma FirstMatchReadsDesignations(neos: seq<Neo>, others: seq<Neo>, d: string)
    requires |neos| == |others|
    requires forall k :: 0 <= k < |neos| ==> neos[k].designation == others[k].designation
    ensures FirstMatch(neos, d) == FirstMatch(others, d)
  {
  }

  /** `get_neo_by_designation`: a hit only for a designation some approach
      carried and linked, and then the first NEO with that designation. */
  function GetNeoByDesignation(db: Database, d: string): (r: Option<nat>)
    requires Valid(db)
    ensures r.Some? <==>
      exists i :: 0 <= i < |db.approaches| && db.approaches[i].designation == d && db.approaches[i].neo.Some?
    ensures r.Some? ==> r.value < |db.neos| && db.neos[r.value].designation == d
    ensures r.Some? ==> forall k :: 0 <= k < r.value ==> db.neos[k].designation != d
  {
    if d in db.byDesignation then Some(db.byDesignation[d]) else None
  }

  /** `get_neo_by_name`: the NEO of the first approach, in storage order,
      linked to a NEO with that non-empty name. */
  function GetNeoByName(db: Database, name: string): (r: Option<nat>)
    requires Valid(db)
    ensures r.Some? <==> exists i :: 0 <= i < |db.approaches| && NamedHit(db.neos, db.approaches, i, name)
    ensures r.Some? ==>
      exists i :: 0 <= i < |db.approaches| && FirstNamedHit(db.neos, db.approaches, i, name) && db.approaches[i].neo == r
    ensures name == "" ==> r.None?
  {
    if name in db.byName then Some(db.byName[name]) else None
  }

  /** A NEO found by designation has at least one approach. */
  lemma DesignationHitHasApproaches(db: Database, d: string)
    requires Valid(db)
    ensures GetNeoByDesignation(db, d).Some? ==> |db.neos[GetNeoByDesignation(db, d).value].approaches| > 0
  {
    var r := GetNeoByDesignation(db, d);
    if r.Some? {
      var i :| 0 <= i < |db.approaches| && db.approaches[i].designation == d && db.approaches[i].neo.Some?;
      assert db.approaches[i].neo == Some(r.value);
      assert i in LinkedTo(db.approaches, r.value);
    }
  }

  /** A NEO found by name has at least one approach. */
  lemma NameHitHasApproaches(db: Database, name: string)
    requires Valid(db)
    ensures GetNeoByName(db, name).Some? ==> |db.neos[GetNeoByName(db, name).value].approaches| > 0
  {
    var r := GetNeoByName(db, name);
    if r.Some? {
      var i :| 0 <= i < |db.approaches| && FirstNamedHit(db.neos, db.approaches, i, name) && db.approaches[i].neo == r;
      assert i in LinkedTo(db.approaches, r.value);
    }
  }

  /** The two directions of a link agree. */
  lemma LinksAgree(db: Database, i: nat, k: nat)
    requires Valid(db)
    requires i < |db.approaches| && k < |db.neos|
    ensures db.approaches[i].neo == Some(k) <==> i in db.neos[k].approaches
  {
  }

  /** An approach stays unlinked exactly when no NEO carries its designation. */
  lemma UnlinkedMeansNoMatch(db: Database, i: nat)
    requires Valid(db)
    requires i < |db.approaches|
    ensures db.approaches[i].neo.None? <==>
      forall k :: 0 <= k < |db.neos| ==> db.neos[k].designation != db.approaches[i].designation
  {
  }

  /** A later NEO that repeats an earlier designation receives no approaches
      and is never found by designation. */
  lemma DuplicateDesignationUnlinked(db: Database, j: nat, k: nat)
    requires Valid(db)
    requires j < k < |db.neos| && db.neos[j].designation == db.neos[k].designation
    ensures db.neos[k].approaches == []
    ensures GetNeoByDesignation(db, db.neos[k].designation) != Some(k)
  {
    assert forall i :: 0 <= i < |db.approaches| ==> db.approaches[i].neo != Some(k);
    LinkedToNone(db.approaches, k);
  }
}
