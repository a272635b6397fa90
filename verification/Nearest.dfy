/** The replacement search returns the nearest quarantined ancestor that has something to offer. */
module Nearest {
  import opened Ids
  import opened Reach
  import opened Records
  import opened Admission
  import opened Replacement

  /** One step of the search: from a quarantined node to one of its parents. */
  function Climbs(st: Store): Edges {
    set n, u | n in st.dag && n in st.ledger && u in ParentSet(st.dag[n]) :: (n, u)
  }

  /** The quarantined ids at the end of any climb. */
  ghost function TaintedAncestry(st: Store, start: Id): set<Id> {
    Closure(Climbs(st), {start}) * st.ledger
  }

  /** x is at least as near as y: every level that holds y holds x. */
  ghost predicate NoFarther(st: Store, start: Id, x: Id, y: Id) {
    forall k: nat :: y in Within(Climbs(st), {start}, k) ==> x in Within(Climbs(st), {start}, k)
  }

  ghost predicate NearestFirst(st: Store, start: Id, r: seq<Id>) {
    forall i, j :: 0 <= i < j < |r| ==> NoFarther(st, start, r[i], r[j])
  }

  /** The queue holds the rest of level d, then what has been found of level d + 1. */
  ghost predicate Levelled(st: Store, start: Id, d: nat, visited: set<Id>, near: seq<Id>, far: seq<Id>) {
    var e := Climbs(st);
    && visited <= Within(e, {start}, d) <= visited + Elements(near)
    && Elements(near) <= Within(e, {start}, d)
    && Elements(far) <= Within(e, {start}, d + 1)
    && (d > 0 ==> Within(e, {start}, d - 1) <= visited)
    && forall n, u :: n in visited && (n, u) in e ==> u in Within(e, {start}, d) || u in far
  }

  lemma LevelStarts(st: Store, start: Id)
    ensures Levelled(st, start, 0, {}, [start], [])
  {
  }

  lemma WithinStep(e: Edges, roots: set<Id>, k: nat, n: Id, u: Id)
    requires n in Within(e, roots, k) && (n, u) in e
    ensures u in Within(e, roots, k + 1)
  {
    assert (n, u).1 == u;
  }

  lemma WithinSplits(e: Edges, roots: set<Id>, k: nat, u: Id)
    requires u in Within(e, roots, k + 1) && u !in Within(e, roots, k)
    ensures exists n :: n in Within(e, roots, k) && (n, u) in e
  {
    var p :| p in e && p.0 in Within(e, roots, k) && p.1 == u;
    assert (p.0, u) in e;
  }

  lemma LevelShifts(st: Store, start: Id, d: nat, visited: set<Id>, far: seq<Id>)
    requires Levelled(st, start, d, visited, [], far)
    ensures Levelled(st, start, d + 1, visited, far, [])
  {
    hide Climbs;
    var e := Climbs(st);
    WithinGrows(e, {start}, d, d + 1);
    assert visited == Within(e, {start}, d);
    forall u | u in Within(e, {start}, d + 1) ensures u in visited + Elements(far) {
      if u !in visited {
        WithinSplits(e, {start}, d, u);
      }
    }
    forall n, u | n in visited && (n, u) in e ensures u in Within(e, {start}, d + 1) {
      WithinStep(e, {start}, d, n, u);
    }
  }

  lemma LevelEnds(st: Store, start: Id, d: nat, visited: set<Id>)
    requires Levelled(st, start, d, visited, [], [])
    ensures visited == Closure(Climbs(st), {start})
  {
    hide Climbs, Closure;
    BoundIsExact(Climbs(st), {start}, d);
  }

  lemma LevelSkips(st: Store, start: Id, d: nat, visited: set<Id>, near: seq<Id>, far: seq<Id>)
    requires Levelled(st, start, d, visited, near, far) && near != [] && near[0] in visited
    ensures Levelled(st, start, d, visited, near[1..], far)
  {
    hide Climbs, Within;
    assert forall x :: x in near <==> x == near[0] || x in near[1..];
  }

  lemma ParentsClimb(st: Store, n: Id)
    ensures n in st.ledger ==> Elements(ParentsOf(st.dag, n)) == Children(Climbs(st), n)
    ensures n !in st.ledger ==> Children(Climbs(st), n) == {}
  {
    if n in st.dag { ParentListMeaning(st.dag[n]); }
    forall u ensures u in Children(Climbs(st), n) <==> n in st.dag && n in st.ledger && u in ParentSet(st.dag[n]) {
      assert (n, u).1 == u;
    }
  }

  lemma LevelAdvances(st: Store, start: Id, d: nat, visited: set<Id>, near: seq<Id>, far: seq<Id>, found: seq<Id>)
    requires Levelled(st, start, d, visited, near, far) && near != []
    requires Elements(found) == Children(Climbs(st), near[0])
    ensures Levelled(st, start, d, visited + {near[0]}, near[1..], far + found)
  {
    hide Climbs, Within;
    var e, n := Climbs(st), near[0];
    assert n in Elements(near);
    assert forall x :: x in near <==> x == n || x in near[1..];
    forall u | u in far + found ensures u in Within(e, {start}, d + 1) {
      if u in far {
        assert u in Elements(far);
      } else {
        assert u in Elements(found);
        WithinStep(e, {start}, d, n, u);
      }
    }
    forall u | (n, u) in e ensures u in far + found {
      assert (n, u).1 == u;
      assert u in Elements(found);
    }
  }

  lemma NearComesFirst(st: Store, start: Id, d: nat, visited: set<Id>, near: seq<Id>, far: seq<Id>, x: Id, y: Id)
    requires Levelled(st, start, d, visited, near, far)
    requires x in near && y !in visited
    ensures NoFarther(st, start, x, y)
  {
    hide Climbs;
    var e := Climbs(st);
    assert x in Elements(near);
    forall k: nat | y in Within(e, {start}, k) ensures x in Within(e, {start}, k) {
      if k < d {
        WithinGrows(e, {start}, k, d - 1);
      } else {
        WithinGrows(e, {start}, d, k);
      }
    }
  }

  ghost predicate Listing(st: Store, start: Id, visited: set<Id>, r: seq<Id>) {
    && NoDuplicates(r)
    && NearestFirst(st, start, r)
    && forall x :: x in r <==> x in TaintedAncestry(st, start) && x !in visited
  }

  lemma ListingGrows(st: Store, start: Id, visited: set<Id>, n: Id, rest: seq<Id>)
    requires Listing(st, start, visited + {n}, rest)
    requires n in TaintedAncestry(st, start) && n !in visited
    requires forall y :: y in rest ==> NoFarther(st, start, n, y)
    ensures Listing(st, start, visited, [n] + rest)
  {
    hide TaintedAncestry, NoFarther;
    var r := [n] + rest;
    forall i, j | 0 <= i < j < |r| ensures r[i] != r[j] && NoFarther(st, start, r[i], r[j]) {
      assert r[j] == rest[j - 1] && r[j] in rest;
      if i > 0 { assert r[i] == rest[i - 1]; }
    }
  }

  lemma ListingSkips(st: Store, start: Id, visited: set<Id>, n: Id, r: seq<Id>)
    requires Listing(st, start, visited + {n}, r) && n !in st.ledger
    ensures Listing(st, start, visited, r)
  {
    hide NoFarther, NoDuplicates;
  }

  lemma SameQueue(near: seq<Id>, far: seq<Id>, found: seq<Id>)
    requires near != []
    ensures (near + far)[0] == near[0]
    ensures (near + far)[1..] == near[1..] + far
    ensures (near + far)[1..] + found == near[1..] + (far + found)
  {
  }

  lemma {:induction false} UpFromLists(st: Store, start: Id, d: nat, visited: set<Id>, near: seq<Id>, far: seq<Id>)
    requires Elements(near + far) <= Universe(st.dag, start)
    requires Levelled(st, start, d, visited, near, far)
    ensures Listing(st, start, visited, UpFrom(st, start, visited, near + far))
    decreases |Universe(st.dag, start) - visited|, |near + far|, |far|
  {
    hide UpFrom, Universe, Levelled, Listing, Elements, ParentsOf, Closure, Climbs;
    if near == [] && far == [] {
      UpFromEmpty(st, start, visited);
      LevelEnds(st, start, d, visited);
      NothingLeft(st, start, visited);
    } else if near == [] {
      LevelShifts(st, start, d, visited, far);
      assert near + far == far + [];
      UpFromLists(st, start, d + 1, visited, far, []);
    } else {
      var n, found := near[0], ParentsOf(st.dag, near[0]);
      SameQueue(near, far, found);
      UpUnfolds(st, start, visited, near + far);
      ParentsClimb(st, n);
      if n in visited {
        LevelSkips(st, start, d, visited, near, far);
        UpFromLists(st, start, d, visited, near[1..], far);
      } else {
        InUniverse(st, start, near + far);
        UniverseShrinks(Universe(st.dag, start), visited, n);
        UpFromVisits(st, start, d, visited, near, far);
        if n in st.ledger {
          LevelAdvances(st, start, d, visited, near, far, found);
          UpFromLists(st, start, d, visited + {n}, near[1..], far + found);
        } else {
          NoElements();
          LevelAdvances(st, start, d, visited, near, far, []);
          assert far + [] == far;
          UpFromLists(st, start, d, visited + {n}, near[1..], far);
          ListingSkips(st, start, visited, n, UpFrom(st, start, visited + {n}, near[1..] + far));
        }
        if n in st.ledger {
          var rest := UpFrom(st, start, visited + {n}, near[1..] + (far + found));
          forall y | y in rest ensures NoFarther(st, start, n, y) {
            ListingAvoids(st, start, visited + {n}, rest, y);
            NearComesFirst(st, start, d, visited, near, far, n, y);
          }
          ListingGrows(st, start, visited, n, rest);
        }
      }
    }
  }

  lemma ListingAvoids(st: Store, start: Id, visited: set<Id>, r: seq<Id>, y: Id)
    requires Listing(st, start, visited, r) && y in r
    ensures y !in visited
  {
  }

  lemma UpFromEmpty(st: Store, start: Id, visited: set<Id>)
    ensures Elements([]) <= Universe(st.dag, start)
    ensures UpFrom(st, start, visited, []) == []
  {
  }

  lemma NothingLeft(st: Store, start: Id, visited: set<Id>)
    requires visited == Closure(Climbs(st), {start})
    ensures Listing(st, start, visited, [])
  {
    hide Closure, Climbs;
  }

  lemma InUniverse(st: Store, start: Id, queue: seq<Id>)
    requires Elements(queue) <= Universe(st.dag, start) && queue != []
    ensures queue[0] in Universe(st.dag, start)
  {
    assert queue[0] in Elements(queue);
  }

  lemma UpFromVisits(st: Store, start: Id, d: nat, visited: set<Id>, near: seq<Id>, far: seq<Id>)
    requires Levelled(st, start, d, visited, near, far) && near != []
    ensures near[0] in st.ledger ==> near[0] in TaintedAncestry(st, start)
  {
    hide Closure, Climbs;
    assert near[0] in Elements(near);
    WithinInsideClosure(Climbs(st), {start}, d);
  }

  /** The candidates are exactly the quarantined ids a climb through quarantined nodes can end in, nearest first. */
  lemma CandidatesAreNearestFirst(st: Store, start: Id)
    ensures NoDuplicates(Candidates(st, start))
    ensures NearestFirst(st, start, Candidates(st, start))
    ensures Elements(Candidates(st, start)) == TaintedAncestry(st, start)
  {
    LevelStarts(st, start);
    assert [start] + [] == [start];
    UpFromLists(st, start, 0, {}, [start], []);
  }

  // ---- What a quarantined id has to offer ----

  /** The exposed record is committed and was emitted to stand in for x. */
  predicate StandsIn(dag: Dag, e: Exposure, x: Id) {
    e.node in dag && dag[e.node].originalTarget == Some(x)
  }

  /** Exposure i is the earliest whose record stands in for x. */
  ghost predicate FirstStandIn(s: State, i: int, x: Id) {
    && 0 <= i < |s.exposures| && StandsIn(s.store.dag, s.exposures[i], x)
    && forall j :: 0 <= j < i ==> !StandsIn(s.store.dag, s.exposures[j], x)
  }

  /** A substitute is declared for x, and it is committed and not quarantined. */
  predicate CleanSubstitute(s: State, x: Id) {
    && x in s.substitutes && s.substitutes[x].source != ""
    && s.substitutes[x].source in s.store.dag && s.substitutes[x].source !in s.store.ledger
  }

  ghost predicate HasOffer(s: State, x: Id) {
    (exists e :: e in s.exposures && StandsIn(s.store.dag, e, x)) || CleanSubstitute(s, x)
  }

  /** f is the record of the first exposure standing in for its target or, without any, the declared clean substitute. */
  ghost predicate IsOffer(s: State, f: Found) {
    if exists e :: e in s.exposures && StandsIn(s.store.dag, e, f.target)
    then exists i :: FirstStandIn(s, i, f.target) && f.node == s.exposures[i].node && f.mechanism == s.exposures[i].mechanism
    else CleanSubstitute(s, f.target) && f.node == s.substitutes[f.target].source && f.mechanism == "M3_DECLARED_SUBSTITUTE"
  }

  lemma {:induction false} FiredFinds(dag: Dag, exposures: seq<Exposure>, x: Id) returns (i: nat)
    ensures FiredExposure(dag, exposures, x).None? <==> forall e :: e in exposures ==> !StandsIn(dag, e, x)
    ensures FiredExposure(dag, exposures, x).Some? ==>
      && i < |exposures| && StandsIn(dag, exposures[i], x)
      && (forall j :: 0 <= j < i ==> !StandsIn(dag, exposures[j], x))
      && FiredExposure(dag, exposures, x) == Some(Found(exposures[i].node, x, exposures[i].mechanism))
  {
    i := 0;
    if exposures != [] && !StandsIn(dag, exposures[0], x) {
      var k := FiredFinds(dag, exposures[1..], x);
      i := k + 1;
      assert exposures == [exposures[0]] + exposures[1..];
    }
  }

  lemma OfferMeaning(s: State, x: Id)
    ensures OfferOf(s, x).Some? <==> HasOffer(s, x)
    ensures OfferOf(s, x).Some? ==> OfferOf(s, x).value.target == x && IsOffer(s, OfferOf(s, x).value)
  {
    hide FiredExposure, StandsIn;
    var i := FiredFinds(s.store.dag, s.exposures, x);
    if FiredExposure(s.store.dag, s.exposures, x).Some? {
      assert s.exposures[i] in s.exposures;
      assert FirstStandIn(s, i, x);
    }
  }

  lemma {:induction false} FirstOfferAt(s: State, candidates: seq<Id>) returns (i: nat)
    ensures FirstOffer(s, candidates).None? <==> forall c :: c in candidates ==> OfferOf(s, c).None?
    ensures FirstOffer(s, candidates).Some? ==> i < |candidates| && FirstOffer(s, candidates) == OfferOf(s, candidates[i])
    ensures FirstOffer(s, candidates).Some? ==> forall j :: 0 <= j < i ==> OfferOf(s, candidates[j]).None?
  {
    hide OfferOf;
    i := 0;
    if candidates != [] && OfferOf(s, candidates[0]).None? {
      var k := FirstOfferAt(s, candidates[1..]);
      i := k + 1;
      assert candidates == [candidates[0]] + candidates[1..];
    }
  }

  /**
   * What the search found for a tainted id: nothing exactly when no quarantined ancestor has an offer. Otherwise the
   * offer of a quarantined ancestor, and no other ancestor with an offer is nearer.
   */
  ghost predicate BestFound(s: State, tainted: Id, found: Option<Found>) {
    match found
    case None => forall x :: x in TaintedAncestry(s.store, tainted) ==> !HasOffer(s, x)
    case Some(f) =>
      && f.target in TaintedAncestry(s.store, tainted) && HasOffer(s, f.target) && IsOffer(s, f)
      && (forall y :: y in TaintedAncestry(s.store, tainted) && HasOffer(s, y) ==> NoFarther(s.store, tainted, f.target, y))
      && (f.target == tainted <==> tainted in s.store.ledger && HasOffer(s, tainted))
  }

  lemma NearestReplacement(s: State, tainted: Id)
    ensures BestFound(s, tainted, FindReplacement(s, tainted))
  {
    hide OfferOf, UpFrom, TaintedAncestry, NoFarther, HasOffer, IsOffer;
    var r := Candidates(s.store, tainted);
    CandidatesAreNearestFirst(s.store, tainted);
    var i := FirstOfferAt(s, r);
    assert forall x :: x in r <==> x in Elements(r);
    forall x ensures OfferOf(s, x).Some? <==> HasOffer(s, x) { OfferMeaning(s, x); }
    if FindReplacement(s, tainted).Some? {
      OfferMeaning(s, r[i]);
      assert r[i] in r;
      forall y | y in TaintedAncestry(s.store, tainted) && HasOffer(s, y) ensures NoFarther(s.store, tainted, r[i], y) {
        assert y in Elements(r);
        var j :| 0 <= j < |r| && r[j] == y;
        if j == i { ItselfNoFarther(s.store, tainted, y); }
      }
      DirectWheneverPossible(s, tainted, r[i]);
    }
  }

  lemma ItselfNoFarther(st: Store, start: Id, x: Id)
    ensures NoFarther(st, start, x, x)
  {
  }

  /** A nearest ancestor with an offer is the tainted id itself whenever that is quarantined and has one. */
  lemma DirectWheneverPossible(s: State, tainted: Id, a: Id)
    requires a in TaintedAncestry(s.store, tainted) && HasOffer(s, a)
    requires forall y :: y in TaintedAncestry(s.store, tainted) && HasOffer(s, y) ==> NoFarther(s.store, tainted, a, y)
    ensures a == tainted <==> tainted in s.store.ledger && HasOffer(s, tainted)
  {
    hide HasOffer, Closure;
    ClosureIsClosed(Climbs(s.store), {tainted});
    if tainted in s.store.ledger && HasOffer(s, tainted) {
      assert NoFarther(s.store, tainted, a, tainted);
      assert tainted in Within(Climbs(s.store), {tainted}, 0);
      assert a in Within(Climbs(s.store), {tainted}, 0);
    }
  }
}
