/** The inference pass `_update` of `ArgdownMultiDiGraph`, as a function of the graph.

    For every ordered pair (u, v) of distinct nodes that are not both propositions,
    the pass removes GROUNDED from the relations u -> v.  If u and v are both
    propositions or arguments with a legal PCS, it then compares the *source anchor*
    of u (u itself, or the proposition of the last PCS entry of u) with the *target
    anchors* of v (v itself, or the propositions of the premises of v): u -> v gets a
    GROUNDED SUPPORT relation when the source anchor equals, or has an AXIOMATIC
    SUPPORT relation to, some target anchor, and a GROUNDED ATTACK relation when an
    AXIOMATIC ATTACK or CONTRADICT relation joins them in either direction.  Finally
    it deletes the relations u -> v left with no dialectical type.

    The comparison raises (Python's `ValueError` in `_entails` / `_contradicts`)
    when it meets an anchor label that names no proposition; `Scan` returns `None`
    then.  Anchors are propositions, and the pass only rewrites relations that touch
    an argument, so every comparison sees the relations of the graph it started
    from: the result does not depend on the order in which pairs are visited. */
module Inference {
  import opened Wrappers
  import opened Model

  /** An argument node must have a legal PCS to take part in the comparison. */
  predicate LegalNode(g: Graph, l: string)
    requires l in g.nodes
  {
    g.nodes[l].ArgumentNode? ==> HasLegalPcs(g.nodes[l].pcs).0
  }

  /** The ordered pairs the pass visits. */
  predicate Candidate(g: Graph, u: string, v: string) {
    u in g.nodes && v in g.nodes && u != v && !(IsProposition(g, u) && IsProposition(g, v))
  }

  /** `get_proposition(label)`, keeping only the label. */
  function Anchor(g: Graph, l: string): (r: Option<string>)
    ensures r.Some? <==> IsProposition(g, l)
    ensures r.Some? ==> r.value == l
  {
    if IsProposition(g, l) then Some(l) else None
  }

  /** An anchor that is present names a proposition. */
  predicate Anchored(g: Graph, a: Option<string>) {
    a.Some? ==> IsProposition(g, a.value)
  }

  /** The source anchor of a node with a legal PCS. */
  function SourceAnchor(g: Graph, u: string): (r: Option<string>)
    requires u in g.nodes && LegalNode(g, u)
    ensures Anchored(g, r)
  {
    match g.nodes[u]
    case PropositionNode(_, _) => Some(u)
    case ArgumentNode(_, _, pcs) => Anchor(g, pcs[|pcs| - 1].propositionLabel)
  }

  /** The anchors of the premises of a PCS, in order. */
  function PremiseAnchors(g: Graph, pcs: seq<PropositionReference>): (r: seq<Option<string>>)
    ensures forall k :: 0 <= k < |r| ==> Anchored(g, r[k])
    ensures |pcs| > 0 && !pcs[0].Conclusion? ==> |r| > 0
  {
    if |pcs| == 0 then []
    else
      var rest := PremiseAnchors(g, pcs[1..]);
      if pcs[0].Conclusion? then rest else [Anchor(g, pcs[0].propositionLabel)] + rest
  }

  /** The target anchors of a node. */
  function TargetAnchors(g: Graph, v: string): (r: seq<Option<string>>)
    requires v in g.nodes && LegalNode(g, v)
    ensures forall k :: 0 <= k < |r| ==> Anchored(g, r[k])
    ensures |r| > 0
  {
    match g.nodes[v]
    case PropositionNode(_, _) => [Some(v)]
    case ArgumentNode(_, _, pcs) => PremiseAnchors(g, pcs)
  }

  predicate Axiomatic(g: Graph, k: EdgeKey) {
    k in g.edges && AXIOMATIC in g.edges[k].dialectics
  }

  /** `_entails(a, b)` */
  predicate Entails(g: Graph, a: string, b: string) {
    a == b || Axiomatic(g, EdgeKey(a, b, SUPPORT))
  }

  /** `_contradicts(a, b)` */
  predicate Contradicts(g: Graph, a: string, b: string) {
    || Axiomatic(g, EdgeKey(a, b, ATTACK)) || Axiomatic(g, EdgeKey(a, b, CONTRADICT))
    || Axiomatic(g, EdgeKey(b, a, ATTACK)) || Axiomatic(g, EdgeKey(b, a, CONTRADICT))
  }

  datatype Probe = Entailment | Contradiction

  predicate Holds(g: Graph, probe: Probe, a: string, b: string) {
    match probe
    case Entailment => Entails(g, a, b)
    case Contradiction => Contradicts(g, a, b)
  }

  /** `any(probe(src, t) for t in ts)`, evaluated left to right; `None` when a
      comparison with a missing anchor is reached and raises. */
  function Scan(g: Graph, probe: Probe, src: Option<string>, ts: seq<Option<string>>): (r: Option<bool>)
    ensures r == Some(true) ==>
      src.Some? && exists k :: 0 <= k < |ts| && ts[k].Some? && Holds(g, probe, src.value, ts[k].value)
    ensures r == Some(false) ==>
      forall k :: 0 <= k < |ts| ==> src.Some? && ts[k].Some? && !Holds(g, probe, src.value, ts[k].value)
    ensures src.Some? && (forall k :: 0 <= k < |ts| ==> ts[k].Some?) ==> r.Some?
  {
    if |ts| == 0 then Some(false)
    else if src.None? || ts[0].None? then None
    else if Holds(g, probe, src.value, ts[0].value) then Some(true)
    else
      var r := Scan(g, probe, src, ts[1..]);
      assert r == Some(true) ==> exists k :: 0 <= k < |ts| && ts[k].Some? && Holds(g, probe, src.value, ts[k].value) by {
        if r == Some(true) {
          var k :| 0 <= k < |ts[1..]| && ts[1..][k].Some? && Holds(g, probe, src.value, ts[1..][k].value);
          assert ts[k + 1] == ts[1..][k];
        }
      }
      assert src.Some? && (forall k :: 0 <= k < |ts| ==> ts[k].Some?) ==> r.Some? by {
        if forall k :: 0 <= k < |ts| ==> ts[k].Some? {
          assert forall k :: 0 <= k < |ts[1..]| ==> ts[1..][k] == ts[k + 1];
        }
      }
      r
  }

  /** What the pass does with one pair. */
  datatype PairOutcome = Skipped | Raised | Probed(support: bool, attack: bool)

  function PairResult(g: Graph, u: string, v: string): PairOutcome
    requires u in g.nodes && v in g.nodes
  {
    if !LegalNode(g, u) || !LegalNode(g, v) then Skipped
    else
      var src := SourceAnchor(g, u);
      var ts := TargetAnchors(g, v);
      match Scan(g, Entailment, src, ts)
      case None => Raised
      case Some(s) =>
        match Scan(g, Contradiction, src, ts)
        case None => Raised
        case Some(a) => Probed(s, a)
  }

  /** The pass raises for some pair. */
  predicate Raises(g: Graph) {
    exists u, v :: u in g.nodes && v in g.nodes && Candidate(g, u, v) && PairResult(g, u, v).Raised?
  }

  function WithoutGrounded(d: Option<EdgeData>): (r: Option<EdgeData>)
    ensures r.Some? <==> d.Some?
    ensures r.Some? ==> r.value.data == d.value.data && r.value.dialectics == d.value.dialectics - {GROUNDED}
  {
    match d
    case None => None
    case Some(e) => Some(e.(dialectics := e.dialectics - {GROUNDED}))
  }

  /** `add_dialectical_relation(ArgdownEdge(u, v, valence, [GROUNDED]))` at one key. */
  function WithGrounded(d: Option<EdgeData>): (r: EdgeData)
    ensures GROUNDED in r.dialectics
    ensures d.Some? ==> r.data == d.value.data && r.dialectics == d.value.dialectics + {GROUNDED}
    ensures d.None? ==> r == EdgeData({GROUNDED}, map[])
  {
    match d
    case None => EdgeData({GROUNDED}, map[])
    case Some(e) => e.(dialectics := e.dialectics + {GROUNDED})
  }

  function DropEmpty(d: Option<EdgeData>): (r: Option<EdgeData>)
    ensures r.Some? ==> r == d && r.value.dialectics != {}
    ensures d.Some? && d.value.dialectics != {} ==> r == d
  {
    if d.Some? && d.value.dialectics == {} then None else d
  }

  /** After GROUNDED is removed: add it back where the probes `s` (entailment) and
      `a` (contradiction) flagged the valence, and drop the relation if it is empty. */
  function Ground(s: bool, a: bool, val: Valence, d: Option<EdgeData>): Option<EdgeData> {
    if (val == SUPPORT && s) || (val == ATTACK && a) then Some(WithGrounded(d))
    else DropEmpty(d)
  }

  /** What visiting a pair with outcome `p` does to its relation of valence `val`. */
  function Step(p: PairOutcome, val: Valence, d: Option<EdgeData>): Option<EdgeData>
    requires !p.Raised?
  {
    var stripped := WithoutGrounded(d);
    match p
    case Skipped => stripped
    case Probed(s, a) => Ground(s, a, val, stripped)
  }

  /** Visiting a pair twice with the same outcome is visiting it once. */
  lemma StepIdempotent(p: PairOutcome, val: Valence, d: Option<EdgeData>)
    requires !p.Raised?
    ensures Step(p, val, Step(p, val, d)) == Step(p, val, d)
  {
    var stripped := WithoutGrounded(d);
    if stripped.Some? {
      assert stripped.value.dialectics - {GROUNDED} == stripped.value.dialectics;
      var e := WithGrounded(stripped);
      assert WithoutGrounded(Some(e)).value.dialectics == stripped.value.dialectics;
      assert WithoutGrounded(Some(e)) == stripped;
    } else {
      var e := WithGrounded(stripped);
      assert WithoutGrounded(Some(e)).value == EdgeData({}, map[]);
      assert WithGrounded(WithoutGrounded(Some(e))) == e by {
        var none: set<DialecticalType> := {};
        assert none + {GROUNDED} == {GROUNDED};
      }
    }
  }

  /** The relation under `k` after the pass visits the pair of `k`. */
  function UpdatedEdgeAt(g: Graph, k: EdgeKey): Option<EdgeData>
    requires Candidate(g, k.source, k.target) && !PairResult(g, k.source, k.target).Raised?
  {
    Step(PairResult(g, k.source, k.target), k.valence, Lookup(g.edges, k))
  }

  /** The pair of `k` is visited without raising, or not visited at all. */
  predicate PairOk(g: Graph, k: EdgeKey) {
    Candidate(g, k.source, k.target) ==> !PairResult(g, k.source, k.target).Raised?
  }

  /** The relation under `k` after the whole pass. */
  function NewEdge(g: Graph, k: EdgeKey): Option<EdgeData>
    requires PairOk(g, k)
  {
    if Candidate(g, k.source, k.target) then UpdatedEdgeAt(g, k) else Lookup(g.edges, k)
  }

  /** The keys the pass can create. */
  function GroundableKeys(g: Graph): set<EdgeKey> {
    (set u, v | u in g.nodes && v in g.nodes :: EdgeKey(u, v, SUPPORT))
    + (set u, v | u in g.nodes && v in g.nodes :: EdgeKey(u, v, ATTACK))
  }

  /** The graph after `_update`, when it does not raise. */
  function Updated(g: Graph): (r: Graph)
    requires !Raises(g)
    ensures r.nodes == g.nodes
  {
    Graph(g.nodes, map k | k in g.edges.Keys + GroundableKeys(g) && NewEdge(g, k).Some? :: NewEdge(g, k).value)
  }

  // ----------------------------------------------------------------- lemmas

  /** The pass, one relation at a time. */
  lemma UpdatedAt(g: Graph, k: EdgeKey)
    requires !Raises(g)
    ensures Lookup(Updated(g).edges, k) == NewEdge(g, k)
  {
    if NewEdge(g, k).Some? && k !in g.edges {
      assert Candidate(g, k.source, k.target);
      assert k.valence == SUPPORT || k.valence == ATTACK;
      if k.valence == SUPPORT {
        assert k == EdgeKey(k.source, k.target, SUPPORT);
      } else {
        assert k == EdgeKey(k.source, k.target, ATTACK);
      }
    }
  }

  /** After the pass, u -> v carries GROUNDED SUPPORT exactly when both nodes take
      part and the source anchor of u entails some target anchor of v. */
  lemma GroundedSupportIff(g: Graph, u: string, v: string)
    requires !Raises(g) && Candidate(g, u, v)
    ensures var d := Lookup(Updated(g).edges, EdgeKey(u, v, SUPPORT));
      (d.Some? && GROUNDED in d.value.dialectics)
      <==>
      (&& LegalNode(g, u) && LegalNode(g, v) && SourceAnchor(g, u).Some?
       && exists k :: 0 <= k < |TargetAnchors(g, v)| && TargetAnchors(g, v)[k].Some?
                      && Entails(g, SourceAnchor(g, u).value, TargetAnchors(g, v)[k].value))
  {
    var key := EdgeKey(u, v, SUPPORT);
    UpdatedAt(g, key);
    if LegalNode(g, u) && LegalNode(g, v) {
      var src := SourceAnchor(g, u);
      var ts := TargetAnchors(g, v);
      assert Scan(g, Entailment, src, ts).Some?;
    }
  }

  /** After the pass, u -> v carries GROUNDED ATTACK exactly when both nodes take
      part and an AXIOMATIC ATTACK or CONTRADICT relation joins the source anchor
      of u and some target anchor of v. */
  lemma GroundedAttackIff(g: Graph, u: string, v: string)
    requires !Raises(g) && Candidate(g, u, v)
    ensures var d := Lookup(Updated(g).edges, EdgeKey(u, v, ATTACK));
      (d.Some? && GROUNDED in d.value.dialectics)
      <==>
      (&& LegalNode(g, u) && LegalNode(g, v) && SourceAnchor(g, u).Some?
       && exists k :: 0 <= k < |TargetAnchors(g, v)| && TargetAnchors(g, v)[k].Some?
                      && Contradicts(g, SourceAnchor(g, u).value, TargetAnchors(g, v)[k].value))
  {
    var key := EdgeKey(u, v, ATTACK);
    UpdatedAt(g, key);
    if LegalNode(g, u) && LegalNode(g, v) {
      var src := SourceAnchor(g, u);
      var ts := TargetAnchors(g, v);
      assert Scan(g, Entailment, src, ts).Some?;
      assert Scan(g, Contradiction, src, ts).Some?;
    }
  }

  /** The pass grounds no CONTRADICT or UNDERCUT relation and removes GROUNDED from
      them. */
  lemma NoOtherGrounded(g: Graph, k: EdgeKey)
    requires !Raises(g) && Candidate(g, k.source, k.target)
    requires k.valence == CONTRADICT || k.valence == UNDERCUT
    ensures var d := Lookup(Updated(g).edges, k); d.Some? ==> GROUNDED !in d.value.dialectics
  {
    UpdatedAt(g, k);
  }

  /** Relations between two propositions, and self-loops, are left as they were. */
  lemma UntouchedPairs(g: Graph, k: EdgeKey)
    requires !Raises(g)
    requires k.source == k.target || (IsProposition(g, k.source) && IsProposition(g, k.target))
    ensures Lookup(Updated(g).edges, k) == Lookup(g.edges, k)
  {
    UpdatedAt(g, k);
  }

  /** For pairs that take part, no relation is left without a dialectical type. */
  lemma NoEmptyRelations(g: Graph, k: EdgeKey)
    requires !Raises(g) && Candidate(g, k.source, k.target)
    requires LegalNode(g, k.source) && LegalNode(g, k.target)
    ensures var d := Lookup(Updated(g).edges, k); d.Some? ==> d.value.dialectics != {}
  {
    UpdatedAt(g, k);
  }

  /** The pass adds and keeps only relations between nodes. */
  lemma UpdatedConnectsNodes(g: Graph)
    requires !Raises(g) && EdgesConnectNodes(g)
    ensures EdgesConnectNodes(Updated(g))
  {
    forall k | k in Updated(g).edges ensures k.source in g.nodes && k.target in g.nodes {
      UpdatedAt(g, k);
    }
  }

  /** Two graphs with the same nodes and the same relations between propositions. */
  ghost predicate SameBase(g: Graph, g': Graph) {
    && g.nodes == g'.nodes
    && forall k: EdgeKey :: IsProposition(g, k.source) && IsProposition(g, k.target) ==>
         Lookup(g.edges, k) == Lookup(g'.edges, k)
  }

  lemma {:induction false} ScanSameBase(g: Graph, g': Graph, probe: Probe, src: Option<string>, ts: seq<Option<string>>)
    requires SameBase(g, g') && Anchored(g, src)
    requires forall k :: 0 <= k < |ts| ==> Anchored(g, ts[k])
    ensures Scan(g, probe, src, ts) == Scan(g', probe, src, ts)
  {
    if |ts| > 0 && src.Some? && ts[0].Some? {
      var a, b := src.value, ts[0].value;
      assert Lookup(g.edges, EdgeKey(a, b, SUPPORT)) == Lookup(g'.edges, EdgeKey(a, b, SUPPORT));
      assert Lookup(g.edges, EdgeKey(a, b, ATTACK)) == Lookup(g'.edges, EdgeKey(a, b, ATTACK));
      assert Lookup(g.edges, EdgeKey(a, b, CONTRADICT)) == Lookup(g'.edges, EdgeKey(a, b, CONTRADICT));
      assert Lookup(g.edges, EdgeKey(b, a, ATTACK)) == Lookup(g'.edges, EdgeKey(b, a, ATTACK));
      assert Lookup(g.edges, EdgeKey(b, a, CONTRADICT)) == Lookup(g'.edges, EdgeKey(b, a, CONTRADICT));
      assert Holds(g, probe, a, b) == Holds(g', probe, a, b);
      ScanSameBase(g, g', probe, src, ts[1..]);
    }
  }

  /** What the pass does with a pair depends only on the nodes and on the relations
      between propositions. */
  lemma PairResultSameBase(g: Graph, g': Graph, u: string, v: string)
    requires SameBase(g, g') && u in g.nodes && v in g.nodes
    ensures PairResult(g, u, v) == PairResult(g', u, v)
  {
    if LegalNode(g, u) && LegalNode(g, v) {
      var src := SourceAnchor(g, u);
      var ts := TargetAnchors(g, v);
      assert SourceAnchor(g', u) == src;
      assert TargetAnchors(g', v) == ts by {
        if g.nodes[v].ArgumentNode? {
          PremiseAnchorsSameNodes(g, g', g.nodes[v].pcs);
        }
      }
      ScanSameBase(g, g', Entailment, src, ts);
      ScanSameBase(g, g', Contradiction, src, ts);
    }
  }

  lemma {:induction false} PremiseAnchorsSameNodes(g: Graph, g': Graph, pcs: seq<PropositionReference>)
    requires g.nodes == g'.nodes
    ensures PremiseAnchors(g, pcs) == PremiseAnchors(g', pcs)
  {
    if |pcs| > 0 {
      PremiseAnchorsSameNodes(g, g', pcs[1..]);
    }
  }

  /** The relation under `k` after visiting its pair depends only on the base and on
      the relation under `k` before. */
  lemma UpdatedEdgeAtLocal(g: Graph, g': Graph, k: EdgeKey)
    requires SameBase(g, g') && Lookup(g.edges, k) == Lookup(g'.edges, k)
    requires Candidate(g, k.source, k.target) && !PairResult(g, k.source, k.target).Raised?
    ensures Candidate(g', k.source, k.target) && !PairResult(g', k.source, k.target).Raised?
    ensures UpdatedEdgeAt(g, k) == UpdatedEdgeAt(g', k)
  {
    PairResultSameBase(g, g', k.source, k.target);
  }

  /** A graph and its update share their base. */
  lemma UpdatedSameBase(g: Graph)
    requires !Raises(g)
    ensures SameBase(g, Updated(g))
  {
    forall k: EdgeKey | IsProposition(g, k.source) && IsProposition(g, k.target)
      ensures Lookup(g.edges, k) == Lookup(Updated(g).edges, k)
    {
      UpdatedAt(g, k);
    }
  }

  /** Maps that agree at every key are equal. */
  lemma LookupExtensional(m1: map<EdgeKey, EdgeData>, m2: map<EdgeKey, EdgeData>)
    requires forall k :: Lookup(m1, k) == Lookup(m2, k)
    ensures m1 == m2
  {
    forall k | k in m1 ensures k in m2 && m1[k] == m2[k] {
      assert Lookup(m1, k) == Lookup(m2, k);
    }
    forall k | k in m2 ensures k in m1 {
      assert Lookup(m1, k) == Lookup(m2, k);
    }
  }

  /** The update of a graph raises no more than the graph. */
  lemma UpdatedDoesNotRaise(g: Graph)
    requires !Raises(g)
    ensures !Raises(Updated(g))
  {
    var g1 := Updated(g);
    UpdatedSameBase(g);
    forall u, v | u in g1.nodes && v in g1.nodes && Candidate(g1, u, v) ensures !PairResult(g1, u, v).Raised? {
      PairResultSameBase(g, g1, u, v);
    }
  }

  /** One relation of the twice-updated graph. */
  lemma UpdatedTwiceAt(g: Graph, k: EdgeKey)
    requires !Raises(g) && !Raises(Updated(g)) && SameBase(g, Updated(g))
    ensures Lookup(Updated(Updated(g)).edges, k) == Lookup(Updated(g).edges, k)
  {
    var g1 := Updated(g);
    UpdatedAt(g1, k);
    UpdatedAt(g, k);
    if Candidate(g, k.source, k.target) {
      PairResultSameBase(g, g1, k.source, k.target);
      StepIdempotent(PairResult(g, k.source, k.target), k.valence, Lookup(g.edges, k));
    }
  }

  /** The pass is idempotent: running it on its own result raises nothing and
      changes nothing. */
  lemma UpdateIdempotent(g: Graph)
    requires !Raises(g)
    ensures !Raises(Updated(g))
    ensures Updated(Updated(g)) == Updated(g)
  {
    UpdatedSameBase(g);
    UpdatedDoesNotRaise(g);
    forall k: EdgeKey ensures Lookup(Updated(Updated(g)).edges, k) == Lookup(Updated(g).edges, k) {
      UpdatedTwiceAt(g, k);
    }
    LookupExtensional(Updated(Updated(g)).edges, Updated(g).edges);
  }

  /** Every node is a proposition. */
  predicate OnlyPropositions(g: Graph) {
    forall l :: l in g.nodes ==> g.nodes[l].PropositionNode?
  }

  /** A graph without arguments has no pair that takes part: the pass raises
      nothing and leaves it as it is. */
  lemma PropositionsOnlyUnchanged(g: Graph)
    requires OnlyPropositions(g)
    ensures !Raises(g) && Updated(g) == g
  {
    assert !Raises(g);
    forall k: EdgeKey ensures Lookup(Updated(g).edges, k) == Lookup(g.edges, k) {
      UpdatedAt(g, k);
    }
    LookupExtensional(Updated(g).edges, g.edges);
  }

  /** Every PCS entry of every argument names a proposition. */
  predicate PcsNamesPropositions(g: Graph) {
    forall l, i :: l in g.nodes && g.nodes[l].ArgumentNode? && 0 <= i < |g.nodes[l].pcs| ==>
      IsProposition(g, g.nodes[l].pcs[i].propositionLabel)
  }

  lemma {:induction false} PremiseAnchorsPresent(g: Graph, pcs: seq<PropositionReference>)
    requires forall i :: 0 <= i < |pcs| ==> IsProposition(g, pcs[i].propositionLabel)
    ensures forall k :: 0 <= k < |PremiseAnchors(g, pcs)| ==> PremiseAnchors(g, pcs)[k].Some?
  {
    if |pcs| > 0 {
      PremiseAnchorsPresent(g, pcs[1..]);
    }
  }

  /** When every PCS entry names a proposition, the pass never raises. */
  lemma NoRaiseWhenPcsNamesPropositions(g: Graph)
    requires PcsNamesPropositions(g)
    ensures !Raises(g)
  {
    forall u, v | Candidate(g, u, v) ensures !PairResult(g, u, v).Raised? {
      if LegalNode(g, u) && LegalNode(g, v) {
        if g.nodes[u].ArgumentNode? {
          var pcs := g.nodes[u].pcs;
          assert IsProposition(g, pcs[|pcs| - 1].propositionLabel);
        }
        if g.nodes[v].ArgumentNode? {
          PremiseAnchorsPresent(g, g.nodes[v].pcs);
        }
      }
    }
  }

  // ------------------------------------------------ the scenario of the test suite

  /** Propositions P1, P2, P3 and arguments A1 = (1) P1 -- (2) P2 and
      A2 = (1) P2 -- (2) P3, with no relations. */
  function ChainGraph(): Graph {
    Graph(map[
      "P1" := PropositionNode(["Proposition 1"], map[]),
      "P2" := PropositionNode(["Proposition 2"], map[]),
      "P3" := PropositionNode(["Proposition 3"], map[]),
      "A1" := ArgumentNode(["Argument 1"], map[], [Reference("P1", "1"), Conclusion("P2", "2", None, map[])]),
      "A2" := ArgumentNode(["Argument 2"], map[], [Reference("P2", "1"), Conclusion("P3", "2", None, map[])])],
      map[])
  }

  lemma ChainDoesNotRaise()
    ensures !Raises(ChainGraph())
  {
    NoRaiseWhenPcsNamesPropositions(ChainGraph());
  }

  /** A1's conclusion P2 is A2's only premise, and no relation is AXIOMATIC. */
  lemma ChainPairOutcome()
    ensures PairResult(ChainGraph(), "A1", "A2") == Probed(true, false)
  {
    var g := ChainGraph();
    var src := SourceAnchor(g, "A1");
    var ts := TargetAnchors(g, "A2");
    assert src == Some("P2");
    assert ts == [Some("P2")];
  }

  /** The conclusion of A1 is a premise of A2, so the pass adds exactly one relation
      from A1 to A2: a GROUNDED SUPPORT. */
  lemma ChainIsGroundedSupport()
    ensures !Raises(ChainGraph())
    ensures Lookup(Updated(ChainGraph()).edges, EdgeKey("A1", "A2", SUPPORT)) == Some(EdgeData({GROUNDED}, map[]))
    ensures Lookup(Updated(ChainGraph()).edges, EdgeKey("A1", "A2", ATTACK)).None?
    ensures Lookup(Updated(ChainGraph()).edges, EdgeKey("A1", "A2", CONTRADICT)).None?
    ensures Lookup(Updated(ChainGraph()).edges, EdgeKey("A1", "A2", UNDERCUT)).None?
  {
    var g := ChainGraph();
    ChainDoesNotRaise();
    ChainPairOutcome();
    var none: set<DialecticalType> := {};
    assert none + {GROUNDED} == {GROUNDED};
    UpdatedAt(g, EdgeKey("A1", "A2", SUPPORT));
    UpdatedAt(g, EdgeKey("A1", "A2", ATTACK));
    UpdatedAt(g, EdgeKey("A1", "A2", CONTRADICT));
    UpdatedAt(g, EdgeKey("A1", "A2", UNDERCUT));
  }

  /** The chain after the pass, with P4 added and A2 changed to (1) P4 -- (2) P3. */
  function RewiredGraph(): Graph
    requires !Raises(ChainGraph())
  {
    var g1 := Updated(ChainGraph());
    Graph(g1.nodes["P4" := PropositionNode(["Proposition 4"], map[])]
                   ["A2" := ArgumentNode(["Argument 2"], map[], [Reference("P4", "1"), Conclusion("P3", "2", None, map[])])],
          g1.edges)
  }

  /** The rewired chain is what `add_proposition(P4)` and then
      `update_argument("A2", …)` make of the chain after the pass. */
  lemma RewiredByModelCalls()
    requires !Raises(ChainGraph())
    ensures AddProposition(Updated(ChainGraph()), Proposition("P4", ["Proposition 4"], map[]), false).Success?
    ensures UpdateArgument(
              AddProposition(Updated(ChainGraph()), Proposition("P4", ["Proposition 4"], map[]), false).value,
              "A2", Argument("A2", ["Argument 2"], map[], [Reference("P4", "1"), Conclusion("P3", "2", None, map[])]), true)
            == Success(RewiredGraph())
  {
    RewiringSteps(Updated(ChainGraph()));
  }

  /** The two calls of the rewiring on any graph that has A2 and no P4. */
  lemma RewiringSteps(g: Graph)
    requires "P4" !in g.nodes && "A2" in g.nodes
    requires g.nodes["A2"] == ArgumentNode(["Argument 2"], map[], [Reference("P2", "1"), Conclusion("P3", "2", None, map[])])
    ensures AddProposition(g, Proposition("P4", ["Proposition 4"], map[]), false)
            == Success(Graph(g.nodes["P4" := PropositionNode(["Proposition 4"], map[])], g.edges))
    ensures UpdateArgument(
              Graph(g.nodes["P4" := PropositionNode(["Proposition 4"], map[])], g.edges),
              "A2", Argument("A2", ["Argument 2"], map[], [Reference("P4", "1"), Conclusion("P3", "2", None, map[])]), true)
            == Success(Graph(g.nodes["P4" := PropositionNode(["Proposition 4"], map[])]
                                     ["A2" := ArgumentNode(["Argument 2"], map[], [Reference("P4", "1"), Conclusion("P3", "2", None, map[])])],
                             g.edges))
  {
    var gists := ["Argument 2"];
    assert Dedup(gists + gists) == gists by {
      assert (gists + gists)[..1] == gists;
      assert Dedup(gists) == gists by {
        assert gists[..0] == [];
      }
    }
    var empty: Metadata := map[];
    assert empty + empty == empty;
  }

  /** No relation joins P2 and P4 in the rewired chain. */
  lemma RewiredHasNoBaseRelation(val: Valence, a: string, b: string)
    requires !Raises(ChainGraph())
    requires (a, b) == ("P2", "P4") || (a, b) == ("P4", "P2")
    ensures Lookup(RewiredGraph().edges, EdgeKey(a, b, val)).None?
  {
    var g := ChainGraph();
    var k := EdgeKey(a, b, val);
    assert "P4" !in g.nodes && g.edges == map[];
    assert !Candidate(g, a, b);
    UpdatedAt(g, k);
    assert NewEdge(g, k) == Lookup(g.edges, k);
  }

  lemma RewiredDoesNotRaise()
    requires !Raises(ChainGraph())
    ensures !Raises(RewiredGraph())
  {
    RewiredNamesPropositions();
    NoRaiseWhenPcsNamesPropositions(RewiredGraph());
  }

  lemma RewiredNodes()
    requires !Raises(ChainGraph())
    ensures RewiredGraph().nodes["A1"] == ChainGraph().nodes["A1"]
    ensures RewiredGraph().nodes["A2"].pcs == [Reference("P4", "1"), Conclusion("P3", "2", None, map[])]
    ensures IsProposition(RewiredGraph(), "P2") && IsProposition(RewiredGraph(), "P4")
  {
  }

  lemma RewiredPairOutcome()
    requires !Raises(ChainGraph())
    ensures PairResult(RewiredGraph(), "A1", "A2") == Probed(false, false)
  {
    var g := RewiredGraph();
    RewiredAnchors(g);
    SingleAnchorPair(g, "A1", "A2", "P2", "P4");
    RewiredHasNoBaseRelation(SUPPORT, "P2", "P4");
    RewiredHasNoBaseRelation(ATTACK, "P2", "P4");
    RewiredHasNoBaseRelation(CONTRADICT, "P2", "P4");
    RewiredHasNoBaseRelation(ATTACK, "P4", "P2");
    RewiredHasNoBaseRelation(CONTRADICT, "P4", "P2");
  }

  /** A1 and A2 keep their anchors P2 and P4 in every graph with the rewired nodes. */
  lemma RewiredAnchors(g: Graph)
    requires !Raises(ChainGraph())
    requires g.nodes == RewiredGraph().nodes
    ensures "A1" in g.nodes && "A2" in g.nodes && LegalNode(g, "A1") && LegalNode(g, "A2")
    ensures SourceAnchor(g, "A1") == Some("P2") && TargetAnchors(g, "A2") == [Some("P4")]
  {
    RewiredNodes();
    assert IsProposition(g, "P2") && IsProposition(g, "P4");
    var pcs := [Reference("P4", "1"), Conclusion("P3", "2", None, map[])];
    assert g.nodes["A2"].pcs == pcs;
    assert pcs[1..][1..] == [];
    assert PremiseAnchors(g, pcs[1..]) == [];
  }

  /** A pair with one anchor on each side is decided by the two anchors alone. */
  lemma SingleAnchorPair(g: Graph, u: string, v: string, a: string, b: string)
    requires u in g.nodes && v in g.nodes && LegalNode(g, u) && LegalNode(g, v)
    requires SourceAnchor(g, u) == Some(a) && TargetAnchors(g, v) == [Some(b)]
    ensures PairResult(g, u, v) == Probed(Entails(g, a, b), Contradicts(g, a, b))
  {
    var ts := [Some(b)];
    assert ts[1..] == [];
  }

  /** Once A2 no longer rests on A1's conclusion, the pass removes every relation
      from A1 to A2. */
  lemma RewiredLosesSupport()
    ensures !Raises(ChainGraph()) && !Raises(RewiredGraph())
    ensures !HasEdge(Updated(RewiredGraph()), "A1", "A2")
  {
    ChainIsGroundedSupport();
    RewiredDoesNotRaise();
    RewiredPairOutcome();
    var g := RewiredGraph();
    forall val: Valence ensures EdgeKey("A1", "A2", val) !in Updated(g).edges {
      UpdatedAt(g, EdgeKey("A1", "A2", val));
    }
  }

  /** The rewired chain after the pass, with an AXIOMATIC CONTRADICT relation from
      P2 to P4 added. */
  function ContradictedGraph(): Graph
    requires !Raises(ChainGraph()) && !Raises(RewiredGraph())
  {
    var g2 := Updated(RewiredGraph());
    Graph(g2.nodes, g2.edges[EdgeKey("P2", "P4", CONTRADICT) := EdgeData({AXIOMATIC}, map[])])
  }

  lemma ContradictedNodes()
    requires !Raises(ChainGraph()) && !Raises(RewiredGraph())
    ensures ContradictedGraph().nodes == RewiredGraph().nodes
    ensures ContradictedGraph().nodes["A1"] == ChainGraph().nodes["A1"]
    ensures ContradictedGraph().nodes["A2"].pcs == [Reference("P4", "1"), Conclusion("P3", "2", None, map[])]
    ensures IsProposition(ContradictedGraph(), "P2") && IsProposition(ContradictedGraph(), "P4")
  {
  }

  /** Whether every PCS entry names a proposition depends only on the nodes. */
  lemma PcsNamesPropositionsSameNodes(g: Graph, g': Graph)
    requires g.nodes == g'.nodes && PcsNamesPropositions(g)
    ensures PcsNamesPropositions(g')
  {
    forall l, i | l in g'.nodes && g'.nodes[l].ArgumentNode? && 0 <= i < |g'.nodes[l].pcs|
      ensures IsProposition(g', g'.nodes[l].pcs[i].propositionLabel)
    {
      assert IsProposition(g, g.nodes[l].pcs[i].propositionLabel);
    }
  }

  lemma RewiredNamesPropositions()
    requires !Raises(ChainGraph())
    ensures PcsNamesPropositions(RewiredGraph())
  {
  }

  lemma ContradictedDoesNotRaise()
    requires !Raises(ChainGraph()) && !Raises(RewiredGraph())
    ensures !Raises(ContradictedGraph())
  {
    ContradictedNodes();
    RewiredNamesPropositions();
    PcsNamesPropositionsSameNodes(RewiredGraph(), ContradictedGraph());
    NoRaiseWhenPcsNamesPropositions(ContradictedGraph());
  }

  /** The only relation between P2 and P4 is the added one. */
  lemma ContradictedBase(val: Valence)
    requires !Raises(ChainGraph()) && !Raises(RewiredGraph())
    requires val != CONTRADICT
    ensures Lookup(ContradictedGraph().edges, EdgeKey("P2", "P4", val)).None?
  {
    UntouchedPairs(RewiredGraph(), EdgeKey("P2", "P4", val));
    RewiredHasNoBaseRelation(val, "P2", "P4");
  }

  lemma ContradictedPairOutcome()
    requires !Raises(ChainGraph()) && !Raises(RewiredGraph())
    ensures PairResult(ContradictedGraph(), "A1", "A2") == Probed(false, true)
  {
    var g := ContradictedGraph();
    ContradictedNodes();
    RewiredAnchors(g);
    SingleAnchorPair(g, "A1", "A2", "P2", "P4");
    ContradictedBase(SUPPORT);
    assert Axiomatic(g, EdgeKey("P2", "P4", CONTRADICT));
  }

  /** With A1's conclusion P2 contradicting A2's premise P4, the pass adds exactly
      one relation from A1 to A2: a GROUNDED ATTACK. */
  lemma ContradictedIsGroundedAttack()
    ensures !Raises(ChainGraph()) && !Raises(RewiredGraph()) && !Raises(ContradictedGraph())
    ensures Lookup(Updated(ContradictedGraph()).edges, EdgeKey("A1", "A2", ATTACK)) == Some(EdgeData({GROUNDED}, map[]))
    ensures forall val: Valence :: val != ATTACK ==> EdgeKey("A1", "A2", val) !in Updated(ContradictedGraph()).edges
  {
    RewiredLosesSupport();
    ContradictedDoesNotRaise();
    ContradictedPairOutcome();
    var g := ContradictedGraph();
    var none: set<DialecticalType> := {};
    assert none + {GROUNDED} == {GROUNDED};
    forall val: Valence ensures Lookup(g.edges, EdgeKey("A1", "A2", val)).None? {
      assert EdgeKey("A1", "A2", val) !in Updated(RewiredGraph()).edges;
    }
    forall val: Valence ensures Lookup(Updated(g).edges, EdgeKey("A1", "A2", val)) ==
      (if val == ATTACK then Some(EdgeData({GROUNDED}, map[])) else None)
    {
      UpdatedAt(g, EdgeKey("A1", "A2", val));
    }
  }
}
