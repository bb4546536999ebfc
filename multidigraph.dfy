/** `ArgdownMultiDiGraph`: the argument map as a mutable multi-digraph.  Nodes are
    keyed by label, relations by source, target and valence (the key networkx
    stores them under).  Every method that may raise returns the exception it
    raises, and does so before it changes anything; each is proved to leave the
    graph as the corresponding function of `Model` (or of `Inference` for the
    inference pass) says. */
module MultiDiGraph {
  import opened Wrappers
  import opened Strings
  import opened Model
  import opened Inference

  /** A call with outcome `r` took the graph from `before` to `after` and reported
      `raised`: on success the new graph is the outcome, on failure the exception
      is reported and the graph is unchanged. */
  predicate Committed(before: Graph, r: Result<Graph, GraphError>, raised: Option<GraphError>, after: Graph) {
    match r
    case Success(g) => raised.None? && after == g
    case Failure(e) => raised == Some(e) && after == before
  }

  /** The keys networkx can hold between two nodes, in a fixed order. */
  const AllValences: seq<Valence> := [SUPPORT, ATTACK, CONTRADICT, UNDERCUT]

  lemma AllValencesComplete(val: Valence)
    ensures val in AllValences
  {
  }

  class ArgdownMultiDiGraph {
    var nodes: map<string, Node>
    var edges: map<EdgeKey, EdgeData>

    /** The graph as a value. */
    function Snapshot(): Graph
      reads this
    {
      Graph(nodes, edges)
    }

    constructor ()
      ensures Snapshot() == EmptyGraph
    {
      nodes := map[];
      edges := map[];
    }

    /** `copy.deepcopy(other)`: maps of values, so a copy of the fields is deep. */
    constructor Copy(other: ArgdownMultiDiGraph)
      ensures Snapshot() == other.Snapshot()
    {
      nodes := other.nodes;
      edges := other.edges;
    }

    /** `update_proposition(label, p)` */
    method UpdateProposition(lbl: string, p: Proposition) returns (raised: Option<GraphError>)
      modifies this
      ensures Committed(old(Snapshot()), Model.UpdateProposition(old(Snapshot()), lbl, p), raised, Snapshot())
    {
      if lbl !in nodes {
        return Some(MissingNode(lbl));
      }
      var n := nodes[lbl];
      if !n.PropositionNode? {
        return Some(WrongKind(lbl));
      }
      nodes := nodes[lbl := PropositionNode(Dedup(n.texts + p.texts), n.data + p.data)];
      return None;
    }

    /** `add_proposition(p, allow_exists)` */
    method AddProposition(p: Proposition, allowExists: bool) returns (raised: Option<GraphError>)
      modifies this
      ensures Committed(old(Snapshot()), Model.AddProposition(old(Snapshot()), p, allowExists), raised, Snapshot())
    {
      if p.nodeLabel in nodes {
        if !allowExists {
          return Some(LabelExists(p.nodeLabel));
        }
        raised := UpdateProposition(p.nodeLabel, p);
        return;
      }
      nodes := nodes[p.nodeLabel := PropositionNode(p.texts, p.data)];
      return None;
    }

    /** `update_argument(label, a, check_legal)` */
    method UpdateArgument(lbl: string, a: Argument, checkLegal: bool) returns (raised: Option<GraphError>)
      modifies this
      ensures Committed(old(Snapshot()), Model.UpdateArgument(old(Snapshot()), lbl, a, checkLegal), raised, Snapshot())
    {
      if checkLegal && |a.pcs| > 0 {
        var legal := HasLegalPcs(a.pcs).0;
        if !legal {
          return None;
        }
      }
      if lbl !in nodes {
        return Some(MissingNode(lbl));
      }
      var n := nodes[lbl];
      if !n.ArgumentNode? {
        return Some(WrongKind(lbl));
      }
      nodes := nodes[lbl := ArgumentNode(Dedup(n.gists + a.gists), n.data + a.data, a.pcs)];
      return None;
    }

    /** `add_argument(a, allow_exists, check_legal)` */
    method AddArgument(a: Argument, allowExists: bool, checkLegal: bool) returns (raised: Option<GraphError>)
      modifies this
      ensures Committed(old(Snapshot()), Model.AddArgument(old(Snapshot()), a, allowExists, checkLegal), raised, Snapshot())
    {
      if a.nodeLabel in nodes {
        if !allowExists {
          return Some(LabelExists(a.nodeLabel));
        }
        raised := UpdateArgument(a.nodeLabel, a, checkLegal);
        return;
      }
      if checkLegal && |a.pcs| > 0 {
        var legal := HasLegalPcs(a.pcs).0;
        if !legal {
          return None;
        }
      }
      var i := 0;
      while i < |a.pcs|
        invariant 0 <= i <= |a.pcs|
        invariant FirstMissingReference(Snapshot(), a.pcs, 0) == FirstMissingReference(Snapshot(), a.pcs, i)
      {
        if a.pcs[i].propositionLabel !in nodes {
          return Some(MissingReference(a.pcs[i].propositionLabel));
        }
        i := i + 1;
      }
      nodes := nodes[a.nodeLabel := ArgumentNode(a.gists, a.data, a.pcs)];
      return None;
    }

    /** `update_dialectical_relation(e)` */
    method UpdateDialecticalRelation(e: ArgdownEdge) returns (raised: Option<GraphError>)
      modifies this
      ensures Committed(old(Snapshot()), Model.UpdateDialecticalRelation(old(Snapshot()), e), raised, Snapshot())
    {
      var k := KeyOf(e);
      if k !in edges {
        return Some(MissingRelation(k));
      }
      var d := edges[k];
      edges := edges[k := EdgeData(d.dialectics + e.dialectics, d.data + e.data)];
      return None;
    }

    /** `add_dialectical_relation(e, allow_exists)` */
    method AddDialecticalRelation(e: ArgdownEdge, allowExists: bool) returns (raised: Option<GraphError>)
      modifies this
      ensures Committed(old(Snapshot()), Model.AddDialecticalRelation(old(Snapshot()), e, allowExists), raised, Snapshot())
    {
      var s, t := e.source, e.target;
      if s !in nodes || t !in nodes {
        return Some(MissingEndpoint(s, t));
      }
      if HasEdge(Snapshot(), s, t) {
        if !allowExists {
          return Some(RelationExists(s, t));
        }
        if KeyOf(e) in edges {
          raised := UpdateDialecticalRelation(e);
          return;
        }
      }
      edges := edges[KeyOf(e) := EdgeData(e.dialectics, e.data)];
      return None;
    }

    /** `make_label_unique(label)` */
    method MakeLabelUnique(lbl: string) returns (r: string)
      ensures r == UniqueLabel(nodes.Keys, lbl)
    {
      var labels := nodes.Keys;
      if lbl !in labels {
        return lbl;
      }
      var i := 1;
      while Suffixed(lbl, i) in labels
        invariant i >= 1
        invariant SuffixesTaken(labels, lbl, i)
        decreases |labels - Tried(lbl, i)|
      {
        TriedShrinks(labels, lbl, i);
        i := i + 1;
      }
      FirstFreeSuffixIsFirst(labels, lbl, i);
      return Suffixed(lbl, i);
    }

    /** The first loop of a pair in `_update`: remove GROUNDED from every relation
        from `u` to `v`. */
    method StripGrounded(u: string, v: string)
      modifies this
      ensures nodes == old(nodes)
      ensures forall k: EdgeKey :: Lookup(edges, k) ==
                if k.source == u && k.target == v then WithoutGrounded(Lookup(old(edges), k)) else Lookup(old(edges), k)
    {
      var i := 0;
      while i < |AllValences|
        invariant 0 <= i <= |AllValences|
        invariant nodes == old(nodes)
        invariant forall k: EdgeKey :: Lookup(edges, k) ==
                    if k.source == u && k.target == v && k.valence in AllValences[..i]
                    then WithoutGrounded(Lookup(old(edges), k)) else Lookup(old(edges), k)
      {
        var k := EdgeKey(u, v, AllValences[i]);
        assert AllValences[i] !in AllValences[..i];
        assert Lookup(edges, k) == Lookup(old(edges), k);
        if k in edges && GROUNDED in edges[k].dialectics {
          edges := edges[k := edges[k].(dialectics := edges[k].dialectics - {GROUNDED})];
        } else if k in edges {
          assert edges[k].dialectics - {GROUNDED} == edges[k].dialectics;
        }
        assert AllValences[..i + 1] == AllValences[..i] + [AllValences[i]];
        i := i + 1;
      }
      forall k: EdgeKey ensures k.valence in AllValences[..i] {
        AllValencesComplete(k.valence);
      }
    }

    /** The last loop of a pair in `_update`: remove every relation from `u` to `v`
        left without a dialectical type. */
    method DropEmptyRelations(u: string, v: string)
      modifies this
      ensures nodes == old(nodes)
      ensures forall k: EdgeKey :: Lookup(edges, k) ==
                if k.source == u && k.target == v then DropEmpty(Lookup(old(edges), k)) else Lookup(old(edges), k)
    {
      var i := 0;
      while i < |AllValences|
        invariant 0 <= i <= |AllValences|
        invariant nodes == old(nodes)
        invariant forall k: EdgeKey :: Lookup(edges, k) ==
                    if k.source == u && k.target == v && k.valence in AllValences[..i]
                    then DropEmpty(Lookup(old(edges), k)) else Lookup(old(edges), k)
      {
        var k := EdgeKey(u, v, AllValences[i]);
        assert AllValences[i] !in AllValences[..i];
        if k in edges && edges[k].dialectics == {} {
          edges := map k' | k' in edges && k' != k :: edges[k'];
        }
        assert AllValences[..i + 1] == AllValences[..i] + [AllValences[i]];
        i := i + 1;
      }
      forall k: EdgeKey ensures k.valence in AllValences[..i] {
        AllValencesComplete(k.valence);
      }
    }

    /** `any(probe(src, t) for t in ts)`, stopping at the first anchor that holds or
        raises; `None` when it raises. */
    method AnyHolds(probe: Probe, src: Option<string>, ts: seq<Option<string>>) returns (r: Option<bool>)
      ensures r == Scan(Snapshot(), probe, src, ts)
    {
      var i := 0;
      while i < |ts|
        invariant 0 <= i <= |ts|
        invariant Scan(Snapshot(), probe, src, ts) == Scan(Snapshot(), probe, src, ts[i..])
      {
        assert ts[i..][0] == ts[i] && ts[i..][1..] == ts[i + 1..];
        if src.None? || ts[i].None? {
          return None;
        }
        if Holds(Snapshot(), probe, src.value, ts[i].value) {
          return Some(true);
        }
        i := i + 1;
      }
      return Some(false);
    }

    /** `add_dialectical_relation(ArgdownEdge(u, v, val, [GROUNDED]))` between two
        nodes: it never raises and changes only the relation under its key. */
    method AddGrounded(u: string, v: string, val: Valence)
      requires u in nodes && v in nodes
      modifies this
      ensures nodes == old(nodes)
      ensures forall k: EdgeKey :: Lookup(edges, k) ==
                if k == EdgeKey(u, v, val) then Some(WithGrounded(Lookup(old(edges), k))) else Lookup(old(edges), k)
    {
      GroundedRelationAdded(Snapshot(), u, v, val);
      var _ := AddDialecticalRelation(ArgdownEdge(u, v, val, {GROUNDED}, map[]), true);
    }

    /** The comparison of a pair of nodes that both take part, after GROUNDED has
        been removed: the two `any` scans, the GROUNDED relations they call for,
        and the removal of empty relations. */
    method GroundPair(u: string, v: string) returns (ok: bool)
      requires Candidate(Snapshot(), u, v) && LegalNode(Snapshot(), u) && LegalNode(Snapshot(), v)
      modifies this
      ensures nodes == old(nodes)
      ensures ok <==> !PairResult(old(Snapshot()), u, v).Raised?
      ensures ok ==> PairResult(old(Snapshot()), u, v).Probed?
      ensures ok ==> forall k: EdgeKey :: Lookup(edges, k) ==
                       if k.source == u && k.target == v
                       then Ground(PairResult(old(Snapshot()), u, v).support, PairResult(old(Snapshot()), u, v).attack,
                                   k.valence, Lookup(old(edges), k))
                       else Lookup(old(edges), k)
    {
      ghost var g := Snapshot();
      var src := SourceAnchor(Snapshot(), u);
      var ts := TargetAnchors(Snapshot(), v);
      var s := AnyHolds(Entailment, src, ts);
      if s.None? {
        return false;
      }
      if s.value {
        AddGrounded(u, v, SUPPORT);
      }
      ghost var ga := Snapshot();
      OtherPairSameBase(g, ga, u, v);
      ScanSameBase(g, ga, Contradiction, src, ts);
      assert SourceAnchor(ga, u) == src && TargetAnchors(ga, v) == ts by {
        if g.nodes[v].ArgumentNode? {
          PremiseAnchorsSameNodes(g, ga, g.nodes[v].pcs);
        }
      }
      var a := AnyHolds(Contradiction, src, ts);
      if a.None? {
        return false;
      }
      assert PairResult(g, u, v) == Probed(s.value, a.value);
      if a.value {
        AddGrounded(u, v, ATTACK);
      }
      ghost var gb := Snapshot();
      DropEmptyRelations(u, v);
      forall k: EdgeKey | k.source == u && k.target == v
        ensures Lookup(edges, k) == Ground(s.value, a.value, k.valence, Lookup(g.edges, k))
      {
        GroundingSteps(g.edges, ga.edges, gb.edges, edges, k, s.value, a.value);
      }
      return true;
    }

    /** One pass of the body of the double loop of `_update`, for a pair it does not
        skip outright. */
    method UpdatePair(u: string, v: string) returns (ok: bool)
      requires Candidate(Snapshot(), u, v)
      modifies this
      ensures nodes == old(nodes)
      ensures ok <==> !PairResult(old(Snapshot()), u, v).Raised?
      ensures ok ==> forall k: EdgeKey :: Lookup(edges, k) ==
                       if k.source == u && k.target == v then UpdatedEdgeAt(old(Snapshot()), k) else Lookup(old(edges), k)
    {
      ghost var g := Snapshot();
      StripGrounded(u, v);
      ghost var gs := Snapshot();
      OtherPairSameBase(g, gs, u, v);
      PairResultSameBase(g, gs, u, v);
      if !LegalNode(Snapshot(), u) || !LegalNode(Snapshot(), v) {
        return true;
      }
      ok := GroundPair(u, v);
    }

    /** The inner loop of `_update`: every target `v` for the source `u`. */
    method UpdateRow(u: string, ghost g0: Graph, ghost done: set<string>) returns (ok: bool)
      requires nodes == g0.nodes && u in g0.nodes && u !in done
      requires Progress(g0, edges, done, u, {})
      modifies this
      ensures nodes == old(nodes)
      ensures ok ==> Progress(g0, edges, done, u, g0.nodes.Keys)
      ensures !ok ==> Raises(g0)
    {
      var targets := nodes.Keys;
      ghost var doneV: set<string> := {};
      while targets != {}
        invariant nodes == g0.nodes
        invariant targets + doneV == g0.nodes.Keys && targets !! doneV
        invariant Progress(g0, edges, done, u, doneV)
        decreases |targets|
      {
        var v :| v in targets;
        if u != v && !(IsProposition(Snapshot(), u) && IsProposition(Snapshot(), v)) {
          ghost var gc := Snapshot();
          ProgressSameBase(g0, gc, done, u, doneV);
          var pairOk := UpdatePair(u, v);
          if !pairOk {
            PairResultSameBase(g0, gc, u, v);
            return false;
          }
          ProgressPair(g0, gc, edges, done, u, doneV, v);
        } else {
          ProgressSkip(g0, edges, done, u, doneV, v);
        }
        targets := targets - {v};
        doneV := doneV + {v};
      }
      return true;
    }

    /** `_update`: the inference pass.  It reports whether it ran to the end; when it
        does, the graph is `Updated` of the graph it started from. */
    method Update() returns (ok: bool)
      modifies this
      ensures nodes == old(nodes)
      ensures ok <==> !Raises(old(Snapshot()))
      ensures ok ==> Snapshot() == Updated(old(Snapshot()))
    {
      ghost var g0 := Snapshot();
      var sources := nodes.Keys;
      ghost var done: set<string> := {};
      while sources != {}
        invariant nodes == g0.nodes
        invariant sources + done == g0.nodes.Keys && sources !! done
        invariant Progress(g0, edges, done, "", {})
        decreases |sources|
      {
        var u :| u in sources;
        ProgressStartRow(g0, edges, done, u);
        var rowOk := UpdateRow(u, g0, done);
        if !rowOk {
          return false;
        }
        ProgressEndRow(g0, edges, done, u);
        sources := sources - {u};
        done := done + {u};
      }
      ProgressComplete(g0, edges);
      UpdatedEdgesAre(g0, edges);
      return true;
    }
  }

  // ------------------------------------------------------------------ lemmas

  ghost predicate SuffixesTaken(labels: set<string>, lbl: string, i: nat) {
    forall j :: 1 <= j < i ==> Suffixed(lbl, j) in labels
  }

  /** The loop of `make_label_unique` stops at the suffix `UniqueLabel` picks. */
  lemma FirstFreeSuffixIsFirst(labels: set<string>, lbl: string, i: nat)
    requires lbl in labels
    requires i >= 1 && Suffixed(lbl, i) !in labels
    requires SuffixesTaken(labels, lbl, i)
    ensures UniqueLabel(labels, lbl) == Suffixed(lbl, i)
  {
    assert FirstFreeSuffix(labels, lbl, 1) == i;
  }

  /** Changing only relations from `u` to `v`, not both propositions, keeps the base. */
  lemma OtherPairSameBase(g: Graph, g': Graph, u: string, v: string)
    requires g.nodes == g'.nodes
    requires !(IsProposition(g, u) && IsProposition(g, v))
    requires forall k: EdgeKey :: k.source != u || k.target != v ==> Lookup(g'.edges, k) == Lookup(g.edges, k)
    ensures SameBase(g, g')
  {
  }

  /** `add_dialectical_relation(ArgdownEdge(u, v, val, [GROUNDED]))` between nodes. */
  lemma GroundedRelationAdded(g: Graph, u: string, v: string, val: Valence)
    requires u in g.nodes && v in g.nodes
    ensures var k := EdgeKey(u, v, val);
      Model.AddDialecticalRelation(g, ArgdownEdge(u, v, val, {GROUNDED}, map[]), true)
      == Success(g.(edges := g.edges[k := WithGrounded(Lookup(g.edges, k))]))
  {
    var k := EdgeKey(u, v, val);
    if k in g.edges {
      assert g.edges[k].data + map[] == g.edges[k].data;
    }
  }

  /** The three steps of a compared pair, at one key, give `Ground`. */
  lemma GroundingSteps(
    e0: map<EdgeKey, EdgeData>, ea: map<EdgeKey, EdgeData>,
    eb: map<EdgeKey, EdgeData>, e1: map<EdgeKey, EdgeData>, k: EdgeKey, s: bool, a: bool)
    requires Lookup(ea, k) == if s && k.valence == SUPPORT then Some(WithGrounded(Lookup(e0, k))) else Lookup(e0, k)
    requires Lookup(eb, k) == if a && k.valence == ATTACK then Some(WithGrounded(Lookup(ea, k))) else Lookup(ea, k)
    requires Lookup(e1, k) == DropEmpty(Lookup(eb, k))
    ensures Lookup(e1, k) == Ground(s, a, k.valence, Lookup(e0, k))
  {
  }

  // The state of the double loop of `_update`: which relations it has visited and
  // what they hold.

  ghost predicate Visited(done: set<string>, u: string, doneV: set<string>, k: EdgeKey) {
    k.source in done || (k.source == u && k.target in doneV)
  }

  ghost function Expected(g0: Graph, done: set<string>, u: string, doneV: set<string>, k: EdgeKey): Option<EdgeData> {
    if Visited(done, u, doneV, k) && PairOk(g0, k) then NewEdge(g0, k) else Lookup(g0.edges, k)
  }

  /** Every visited pair went through without raising, visited relations hold
      their final value and the others their first. */
  ghost predicate Progress(g0: Graph, edges: map<EdgeKey, EdgeData>, done: set<string>, u: string, doneV: set<string>) {
    && (forall k: EdgeKey :: Visited(done, u, doneV, k) ==> PairOk(g0, k))
    && (forall k: EdgeKey :: Lookup(edges, k) == Expected(g0, done, u, doneV, k))
  }

  lemma ProgressStartRow(g0: Graph, edges: map<EdgeKey, EdgeData>, done: set<string>, u: string)
    requires Progress(g0, edges, done, "", {}) && u !in done
    ensures Progress(g0, edges, done, u, {})
  {
    assert forall k: EdgeKey :: Visited(done, u, {}, k) == Visited(done, "", {}, k);
  }

  lemma ProgressEndRow(g0: Graph, edges: map<EdgeKey, EdgeData>, done: set<string>, u: string)
    requires Progress(g0, edges, done, u, g0.nodes.Keys) && u !in done
    ensures Progress(g0, edges, done + {u}, "", {})
  {
    forall k ensures Visited(done + {u}, "", {}, k) ==> PairOk(g0, k)
    {
      if k.source == u && k.target !in g0.nodes {
        assert !Candidate(g0, k.source, k.target);
      }
    }
    forall k ensures Lookup(edges, k) == Expected(g0, done + {u}, "", {}, k)
    {
      assert Lookup(edges, k) == Expected(g0, done, u, g0.nodes.Keys, k);
    }
  }

  lemma ProgressSkip(g0: Graph, edges: map<EdgeKey, EdgeData>, done: set<string>, u: string, doneV: set<string>, v: string)
    requires Progress(g0, edges, done, u, doneV) && u !in done && v !in doneV
    requires !Candidate(g0, u, v)
    ensures Progress(g0, edges, done, u, doneV + {v})
  {
    forall k ensures Lookup(edges, k) == Expected(g0, done, u, doneV + {v}, k)
    {
      assert Lookup(edges, k) == Expected(g0, done, u, doneV, k);
    }
  }

  /** Relations between propositions are never visited, so the loop keeps the base. */
  lemma ProgressSameBase(g0: Graph, gc: Graph, done: set<string>, u: string, doneV: set<string>)
    requires Progress(g0, gc.edges, done, u, doneV) && gc.nodes == g0.nodes
    ensures SameBase(g0, gc)
  {
    forall k: EdgeKey | IsProposition(g0, k.source) && IsProposition(g0, k.target)
      ensures Lookup(g0.edges, k) == Lookup(gc.edges, k)
    {
      assert Lookup(gc.edges, k) == Expected(g0, done, u, doneV, k);
    }
  }

  lemma ProgressPair(g0: Graph, gc: Graph, edges: map<EdgeKey, EdgeData>,
                     done: set<string>, u: string, doneV: set<string>, v: string)
    requires Progress(g0, gc.edges, done, u, doneV) && u !in done && v !in doneV
    requires gc.nodes == g0.nodes && SameBase(g0, gc)
    requires Candidate(gc, u, v) && !PairResult(gc, u, v).Raised?
    requires forall k: EdgeKey :: Lookup(edges, k) ==
               if k.source == u && k.target == v then UpdatedEdgeAt(gc, k) else Lookup(gc.edges, k)
    ensures Progress(g0, edges, done, u, doneV + {v})
  {
    PairResultSameBase(g0, gc, u, v);
    forall k ensures Lookup(edges, k) == Expected(g0, done, u, doneV + {v}, k)
    {
      assert Lookup(gc.edges, k) == Expected(g0, done, u, doneV, k);
      if k.source == u && k.target == v {
        UpdatedEdgeAtLocal(g0, gc, k);
      }
    }
  }

  /** At the end of the double loop every pair has been visited. */
  lemma ProgressComplete(g0: Graph, edges: map<EdgeKey, EdgeData>)
    requires Progress(g0, edges, g0.nodes.Keys, "", {})
    ensures !Raises(g0)
    ensures forall k: EdgeKey :: Lookup(edges, k) == NewEdge(g0, k)
  {
    forall u, v | u in g0.nodes && v in g0.nodes && Candidate(g0, u, v)
      ensures !PairResult(g0, u, v).Raised?
    {
      assert PairOk(g0, EdgeKey(u, v, SUPPORT));
    }
    forall k ensures Lookup(edges, k) == NewEdge(g0, k) {
      assert Lookup(edges, k) == Expected(g0, g0.nodes.Keys, "", {}, k);
    }
  }

  lemma UpdatedEdgesAre(g0: Graph, edges: map<EdgeKey, EdgeData>)
    requires !Raises(g0)
    requires forall k: EdgeKey :: Lookup(edges, k) == NewEdge(g0, k)
    ensures edges == Updated(g0).edges
  {
    forall k ensures Lookup(edges, k) == Lookup(Updated(g0).edges, k) {
      UpdatedAt(g0, k);
    }
    LookupExtensional(edges, Updated(g0).edges);
  }
}
