/** What the smaller requests answer and change: renewals, declarations, seeds and context compactions. */
module Declarations {
  import opened Ids
  import opened Records
  import opened Gateway
  import opened Selection
  import opened Submissions

  predicate Names(p: Payload, ids: set<Id>) {
    exists c :: c in p.parents && c.parent in ids
  }

  lemma NamesMeaning(p: Payload, ids: set<Id>)
    ensures Names(p, ids) <==> ParentSet(p) * ids != {}
  {
    if u :| u in ParentSet(p) * ids {
      var c :| c in p.parents && c.parent == u;
    }
    if Names(p, ids) {
      var c :| c in p.parents && c.parent in ids;
      assert c.parent in ParentSet(p) * ids;
    }
  }

  /**
   * Trust is refused to a quarantined node and to one with a quarantined parent. Otherwise a node with a horizon stays
   * active until exactly horizonSeconds from now; no other node's horizon moves and nothing else changes.
   */
  lemma RenewalMeaning(cfg: Config, s: State, n: Id, now: int)
    ensures var (t, resp) := Handle(cfg, s, RenewTrust(n, now));
            var tainted := n in s.store.ledger || (n in s.store.dag && Names(s.store.dag[n], s.store.ledger));
            && (resp == Forbidden <==> tainted)
            && t == s.(horizon := t.horizon) && t.horizon.Keys == s.horizon.Keys
            && (forall x :: x in s.horizon && (x != n || tainted) ==> t.horizon[x] == s.horizon[x])
            && (forall at :: !tainted && n in s.horizon ==> (n in Active(t, at) <==> at < now + cfg.horizonSeconds))
            && (!tainted ==> resp == Ok(n !in s.horizon))
  {
    hide ParentSet, Names, Submit, Designate, Recur;
    if n in s.store.dag { NamesMeaning(s.store.dag[n], s.store.ledger); }
  }

  /** A substitute is accepted for a named target when its source is committed and clean then; the latest declaration counts. */
  lemma SubstituteMeaning(cfg: Config, s: State, target: Id, source: Id, at: int)
    ensures var (t, resp) := Handle(cfg, s, SubstituteDeclared(target, source, at));
            && (resp == BadRequest <==> target == "" || source == "")
            && (resp == NotFound <==> target != "" && source != "" && source !in s.store.dag)
            && (resp == Forbidden <==> target != "" && source != "" && source in s.store.dag && source in s.store.ledger)
            && (resp == Ok(false) <==> target != "" && source != "" && source in s.store.dag && source !in s.store.ledger)
            && t == s.(substitutes := t.substitutes)
            && (resp != Ok(false) ==> t == s)
            && (resp == Ok(false) ==> t.substitutes.Keys == s.substitutes.Keys + {target} && t.substitutes[target] == Declaration(source, at))
            && (forall x :: x in s.substitutes && x != target ==> t.substitutes[x] == s.substitutes[x])
  {
    hide Submit, Designate, Recur;
  }

  /** An exposure of an unquarantined node is appended; it stands in for something only if the node's payload says so. */
  lemma ExposureMeaning(cfg: Config, s: State, n: Id)
    ensures var (t, resp) := Handle(cfg, s, ExposeNode(n));
            && (resp == BadRequest <==> n == "") && (resp == Forbidden <==> n != "" && n in s.store.ledger)
            && t == s.(exposures := t.exposures)
            && t.exposures == s.exposures + if n != "" && n !in s.store.ledger then [Exposure(n, "unknown")] else []
  {
    hide Submit, Designate, Recur;
    assert s.exposures + [] == s.exposures;
  }

  /** A seed needs a new, non-empty id, and is stored without parents or covers. */
  lemma SeedMeaning(cfg: Config, s: State, root: Id, key: string)
    ensures var (t, resp) := Handle(cfg, s, SeedRoot(root, key));
            && (resp == BadRequest <==> root == "") && (resp == Conflict <==> root != "" && root in s.store.dag)
            && (resp != Ok(false) ==> t == s)
            && (resp == Ok(false) ==>
                  && root !in s.store.dag && t == s.(store := t.store) && t.store.ledger == s.store.ledger
                  && t.store.order == s.store.order + [root]
                  && t.store.dag == s.store.dag[root := Payload(root, false, [], [], [], "seed", "", 0.0, key, true, false, "", None)])
  {
    hide Submit, Designate, Recur;
  }

  /** The node stored for a context compaction carries every compacted node, under its stored digest, and covers exactly those. */
  ghost predicate IsCompactionOf(dag: Dag, ev: CompactionEvent, p: Payload) {
    && p == Bare(ev.node).(compaction := true, parents := p.parents, covers := ev.nodes, digest := ev.digest,
                           summarizer := ev.summarizer, author := ev.author)
    && |p.parents| == |ev.nodes|
    && forall i :: 0 <= i < |ev.nodes| && ev.nodes[i] in dag ==>
         p.parents[i] == Commitment(ev.nodes[i], if dag[ev.nodes[i]].digest == "" then ZERO_HASH else dag[ev.nodes[i]].digest, Carried)
  }

  lemma CompactionFields(dag: Dag, ev: CompactionEvent)
    ensures IsCompactionOf(dag, ev, CompactionPayload(dag, ev))
  {
  }

  /** A compaction of uncommitted nodes, with a bad signature, or of quarantined nodes is refused, in that order. */
  lemma CompactMeaning(cfg: Config, s: State, ev: CompactionEvent, valid: bool) returns (p: Payload)
    ensures IsCompactionOf(s.store.dag, ev, p)
    ensures var (t, resp) := Handle(cfg, s, ContextCompacted(ev, valid));
            var (missing, tainted) := (exists n :: n in ev.nodes && n !in s.store.dag, exists n :: n in ev.nodes && n in s.store.ledger);
            && (resp == BadRequest <==> missing) && (resp == Unauthorized <==> !missing && !valid)
            && (resp.TaintedCovers? <==> !missing && valid && tainted)
            && (resp.TaintedCovers? ==> forall n :: n in resp.covers <==> n in ev.nodes && n in s.store.ledger)
            && (if missing || !valid || tainted then t == s
                else resp == Ok(ev.node in s.store.dag) && t == s.(store := t.store) && t.store.ledger == s.store.ledger
                     && Adds(s.store, t.store, p, p) && p.id == ev.node)
  {
    hide CompactionPayload, Tainted, IsCompactionOf, Submit, Designate, Recur;
    p := CompactionPayload(s.store.dag, ev);
    CompactionFields(s.store.dag, ev);
    CoversMeaning(ev.nodes, s.store.ledger);
    CompactionId(s.store.dag, ev);
  }

  lemma CompactionId(dag: Dag, ev: CompactionEvent)
    ensures CompactionPayload(dag, ev).id == ev.node
  {
  }

  /** A designation is a 404 for an unknown node and a no-op for one that is quarantined already. */
  lemma DesignationAnswers(cfg: Config, s: State, root: Id, token: string, now: int)
    ensures var (t, resp) := Handle(cfg, s, DesignatePoison(root, token, now));
            && (resp == NotFound <==> root !in s.store.dag)
            && (resp == Ok(true) <==> root in s.store.dag && root in s.store.ledger)
            && (resp == Ok(false) <==> root in s.store.dag && root !in s.store.ledger)
            && (resp != Ok(false) ==> t == s)
  {
    hide Contain, Continuity, Reconstruct, Submit, Recur;
  }

  /** A declared effect counts for every closure that holds its node; other effects stay unless declared under the same key. */
  lemma EffectMeaning(cfg: Config, s: State, key: string, n: Id, c: set<Id>)
    ensures var (t, resp) := Handle(cfg, s, DeclareEffect(key, n));
            && resp == Ok(false) && t == s.(effects := t.effects)
            && (HadEffect(t, c) <==> n in c || exists k :: k in s.effects && k != key && s.effects[k] in c)
  {
    hide Submit, Designate, Recur;
    var t := Handle(cfg, s, DeclareEffect(key, n)).0;
    assert key in t.effects && t.effects[key] == n;
    if k :| k in s.effects && k != key && s.effects[k] in c {
      assert k in t.effects && t.effects[k] == s.effects[k];
    }
  }
}
