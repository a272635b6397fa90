/** The upward search for a continuity replacement of a tainted node or of a quarantined ancestor. */
module Replacement {
  import opened Ids
  import opened Reach
  import opened Records
  import opened Admission

  datatype Found = Found(node: Id, target: Id, mechanism: string)

  function ParentsOf(dag: Dag, n: Id): seq<Id> {
    if n in dag then ParentList(dag[n]) else []
  }

  /** Every id the search can put in its queue. */
  function Universe(dag: Dag, start: Id): set<Id> {
    {start} + set n, u | n in dag && u in ParentSet(dag[n]) :: u
  }

  lemma ParentsInUniverse(dag: Dag, start: Id, n: Id)
    ensures Elements(ParentsOf(dag, n)) <= Universe(dag, start)
  {
    if n in dag { ParentListMeaning(dag[n]); }
  }

  lemma UniverseShrinks(u: set<Id>, visited: set<Id>, n: Id)
    requires n in u && n !in visited
    ensures |u - (visited + {n})| < |u - visited|
  {
    SubsetSize(u - (visited + {n}) + {n}, u - visited);
  }

  /** The quarantined ids dequeued, in order; the walk continues only through quarantined nodes. */
  function UpFrom(st: Store, start: Id, visited: set<Id>, queue: seq<Id>): seq<Id>
    requires Elements(queue) <= Universe(st.dag, start)
    decreases |Universe(st.dag, start) - visited|, |queue|
  {
    if queue == [] then [] else
      var n := queue[0];
      assert Elements(queue[1..]) <= Elements(queue);
      if n in visited then UpFrom(st, start, visited, queue[1..]) else
        assert n in Elements(queue);
        UniverseShrinks(Universe(st.dag, start), visited, n);
        if n in st.ledger then
          ParentsInUniverse(st.dag, start, n);
          [n] + UpFrom(st, start, visited + {n}, queue[1..] + ParentsOf(st.dag, n))
        else UpFrom(st, start, visited + {n}, queue[1..])
  }

  lemma UpUnfolds(st: Store, start: Id, visited: set<Id>, queue: seq<Id>)
    requires Elements(queue) <= Universe(st.dag, start) && queue != []
    ensures Elements(queue[1..]) <= Universe(st.dag, start)
    ensures Elements(queue[1..] + ParentsOf(st.dag, queue[0])) <= Universe(st.dag, start)
    ensures UpFrom(st, start, visited, queue) ==
      if queue[0] in visited then UpFrom(st, start, visited, queue[1..])
      else if queue[0] in st.ledger
      then [queue[0]] + UpFrom(st, start, visited + {queue[0]}, queue[1..] + ParentsOf(st.dag, queue[0]))
      else UpFrom(st, start, visited + {queue[0]}, queue[1..])
  {
    ParentsInUniverse(st.dag, start, queue[0]);
    hide Universe, ParentsOf;
    assert Elements(queue[1..]) <= Elements(queue);
    assert Elements(queue[1..] + ParentsOf(st.dag, queue[0])) == Elements(queue[1..]) + Elements(ParentsOf(st.dag, queue[0]));
  }

  function Candidates(st: Store, start: Id): seq<Id> {
    UpFrom(st, start, {}, [start])
  }

  function FiredExposure(dag: Dag, exposures: seq<Exposure>, candidate: Id): Option<Found> {
    if exposures == [] then None
    else if exposures[0].node in dag && dag[exposures[0].node].originalTarget == Some(candidate)
    then Some(Found(exposures[0].node, candidate, exposures[0].mechanism))
    else FiredExposure(dag, exposures[1..], candidate)
  }

  /** What one candidate offers: a fired exposure first, else a pre-declared substitute that is still clean. */
  function OfferOf(s: State, candidate: Id): Option<Found> {
    match FiredExposure(s.store.dag, s.exposures, candidate)
    case Some(f) => Some(f)
    case None =>
      if candidate in s.substitutes
         && s.substitutes[candidate].source != ""
         && s.substitutes[candidate].source in s.store.dag
         && s.substitutes[candidate].source !in s.store.ledger
      then Some(Found(s.substitutes[candidate].source, candidate, "M3_DECLARED_SUBSTITUTE"))
      else None
  }

  function FirstOffer(s: State, candidates: seq<Id>): Option<Found> {
    if candidates == [] then None
    else if OfferOf(s, candidates[0]).Some? then OfferOf(s, candidates[0])
    else FirstOffer(s, candidates[1..])
  }

  function FindReplacement(s: State, tainted: Id): Option<Found> {
    FirstOffer(s, Candidates(s.store, tainted))
  }
}
