/** The admission decision: the combined integrity and verification policy over one submission. */
module Admission {
  import opened Ids
  import opened Records

  datatype Auth = Auth(isNhi: bool, expiresAt: int, scope: string, verifier: string)

  datatype Status = Status(parent: Id, exists_: bool, quarantined: bool)

  datatype Decision = Admit | TaintedParent(root: Id) | InvalidLineage | VerificationFailed

  function ParentList(p: Payload): seq<Id> {
    seq(|p.parents|, i requires 0 <= i < |p.parents| => p.parents[i].parent)
  }

  lemma ParentListMeaning(p: Payload)
    ensures forall u :: u in ParentList(p) <==> u in ParentSet(p)
  {
    forall u | u in ParentSet(p) ensures u in ParentList(p) {
      var i :| 0 <= i < |p.parents| && p.parents[i].parent == u;
      assert ParentList(p)[i] == u;
    }
  }

  function Statuses(parents: seq<Id>, st: Store): seq<Status> {
    seq(|parents|, i requires 0 <= i < |parents| =>
      Status(parents[i], parents[i] in st.dag, parents[i] in st.ledger))
  }

  // ---- Policy rules ----

  predicate AllowStateWrite(statuses: seq<Status>, boundaryFixed: bool) {
    && (forall i :: 0 <= i < |statuses| ==> statuses[i].exists_)
    && !(exists i :: 0 <= i < |statuses| && statuses[i].quarantined)
    && boundaryFixed
  }

  predicate AllowReintegration(p: Payload, frontier: seq<Id>, quarantined: set<Id>, auth: Auth, now: int) {
    && !p.justified
    && p.id != "none"
    && !(exists u :: u in frontier && u in quarantined)
    && auth.isNhi && auth.expiresAt > now && auth.scope == "agent:state:reconstruct"
    && auth.verifier == "PASSED"
  }

  function FirstTainted(parents: seq<Id>, ledger: set<Id>): Option<Id> {
    if parents == [] then None
    else if parents[0] in ledger then Some(parents[0])
    else FirstTainted(parents[1..], ledger)
  }

  /** Position i holds the first quarantined id of the listing. */
  predicate IsFirstTainted(parents: seq<Id>, ledger: set<Id>, i: int) {
    0 <= i < |parents| && parents[i] in ledger && forall j :: 0 <= j < i ==> parents[j] !in ledger
  }

  lemma {:induction false} FirstTaintedFinds(parents: seq<Id>, ledger: set<Id>) returns (i: nat)
    ensures FirstTainted(parents, ledger) == None <==> forall u :: u in parents ==> u !in ledger
    ensures FirstTainted(parents, ledger).Some? ==>
      IsFirstTainted(parents, ledger, i) && FirstTainted(parents, ledger).value == parents[i]
  {
    i := 0;
    if parents != [] && parents[0] !in ledger {
      var k := FirstTaintedFinds(parents[1..], ledger);
      i := k + 1;
      assert parents == [parents[0]] + parents[1..];
    }
  }

  function Evaluate(p: Payload, st: Store, auth: Auth, now: int): Decision {
    var parents := ParentList(p);
    if !AllowStateWrite(Statuses(parents, st), p.boundaryFixed) then
      match FirstTainted(parents, st.ledger)
      case Some(root) => TaintedParent(root)
      case None => InvalidLineage
    else if !AllowReintegration(p, parents, st.ledger * Elements(parents), auth, now) then VerificationFailed
    else Admit
  }

  /** A tainted parent always decides the outcome; an admitted write has only committed, clean parents. */
  lemma DecisionMeaning(p: Payload, st: Store, auth: Auth, now: int)
    ensures Evaluate(p, st, auth, now).TaintedParent? <==> ParentSet(p) * st.ledger != {}
    ensures Evaluate(p, st, auth, now).TaintedParent? ==>
      && Evaluate(p, st, auth, now).root in ParentSet(p) * st.ledger
      && exists i :: IsFirstTainted(ParentList(p), st.ledger, i) && Evaluate(p, st, auth, now).root == p.parents[i].parent
    ensures Evaluate(p, st, auth, now) == Admit <==>
      && ParentSet(p) <= st.dag.Keys - st.ledger
      && p.boundaryFixed && !p.justified && p.id != "none"
      && auth.isNhi && auth.expiresAt > now && auth.scope == "agent:state:reconstruct" && auth.verifier == "PASSED"
  {
    var parents := ParentList(p);
    var statuses := Statuses(parents, st);
    ParentListMeaning(p);
    var first := FirstTaintedFinds(parents, st.ledger);
    assert forall i :: 0 <= i < |parents| ==> statuses[i] == Status(parents[i], parents[i] in st.dag, parents[i] in st.ledger);
    var tainted := FirstTainted(parents, st.ledger);
    if tainted.Some? {
      assert tainted.value in ParentSet(p) * st.ledger;
    }
    if ParentSet(p) * st.ledger != {} {
      var u :| u in ParentSet(p) * st.ledger;
      var i :| 0 <= i < |parents| && parents[i] == u;
      assert statuses[i].quarantined;
    }
    if u :| u in ParentSet(p) && u !in st.dag {
      var i :| 0 <= i < |parents| && parents[i] == u;
      assert !statuses[i].exists_;
    }
    forall i | 0 <= i < |parents| ensures parents[i] in ParentSet(p) {
      assert parents[i] in parents;
    }
  }

  /** Without a tainted parent, a missing parent or boundary is reported before any failed verification. */
  lemma InvalidLineageMeaning(p: Payload, st: Store, auth: Auth, now: int)
    ensures Evaluate(p, st, auth, now) == InvalidLineage <==>
      ParentSet(p) !! st.ledger && !(ParentSet(p) <= st.dag.Keys && p.boundaryFixed)
  {
    var parents := ParentList(p);
    ParentListMeaning(p);
    var first := FirstTaintedFinds(parents, st.ledger);
    DecisionMeaning(p, st, auth, now);
    var statuses := Statuses(parents, st);
    forall i | 0 <= i < |parents| ensures parents[i] in ParentSet(p) {
      assert parents[i] in parents;
    }
    if u :| u in ParentSet(p) && u !in st.dag {
      var i :| 0 <= i < |parents| && parents[i] == u;
      assert !statuses[i].exists_;
    }
  }

  lemma {:induction false} SameFirstTainted(parents: seq<Id>, a: set<Id>, b: set<Id>)
    requires forall u :: u in parents ==> (u in a <==> u in b)
    ensures FirstTainted(parents, a) == FirstTainted(parents, b)
  {
    if parents != [] { SameFirstTainted(parents[1..], a, b); }
  }

  /** The decision depends on the store only through what it says of the parents. */
  lemma SameEvaluation(p: Payload, st: Store, t: Store, auth: Auth, now: int)
    requires forall u :: u in ParentSet(p) ==> (u in st.dag <==> u in t.dag) && (u in st.ledger <==> u in t.ledger)
    ensures Evaluate(p, st, auth, now) == Evaluate(p, t, auth, now)
  {
    hide AllowStateWrite, AllowReintegration, FirstTainted;
    var parents := ParentList(p);
    ParentListMeaning(p);
    SameFirstTainted(parents, st.ledger, t.ledger);
    assert st.ledger * Elements(parents) == t.ledger * Elements(parents);
    forall i | 0 <= i < |parents| ensures Statuses(parents, st)[i] == Statuses(parents, t)[i] {
      assert parents[i] in parents;
    }
    assert Statuses(parents, st) == Statuses(parents, t);
  }
}
