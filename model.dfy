/** The argument graph of pyargdown (`ArgdownMultiDiGraph`) at the level of values.

    A graph stores propositions and arguments as nodes keyed by their label, and
    dialectical relations as edges keyed by (source, target, valence).  Every
    operation of the graph is given here as a function from the graph before the
    call to the graph after it, or to the error the call raises; the class in
    `multidigraph.dfy` performs the same steps in place and is proved to agree
    with these functions. */
module Model {
  import opened Wrappers
  import opened Strings

  datatype Valence = SUPPORT | ATTACK | CONTRADICT | UNDERCUT

  datatype DialecticalType = SKETCHED | GROUNDED | AXIOMATIC

  /** A value that the YAML loader can produce (floats apart). */
  datatype Value =
    | Null
    | Bool(b: bool)
    | Int(i: int)
    | Str(s: string)
    | List(items: seq<Value>)
    | Dict(entries: map<string, Value>)

  /** The `data` dictionaries attached to nodes, edges and conclusions. */
  type Metadata = map<string, Value>

  /** An entry of a premise-conclusion structure: a premise (`PropositionReference`)
      or a `Conclusion`, which also carries the annotation of the inference step
      leading to it. */
  datatype PropositionReference =
    | Reference(propositionLabel: string, pcsLabel: string)
    | Conclusion(propositionLabel: string, pcsLabel: string,
                 inferenceInfo: Option<string>, inferenceData: Metadata)

  datatype Proposition = Proposition(nodeLabel: string, texts: seq<string>, data: Metadata)

  datatype Argument =
    Argument(nodeLabel: string, gists: seq<string>, data: Metadata, pcs: seq<PropositionReference>)

  datatype ArgdownEdge = ArgdownEdge(
    source: string, target: string, valence: Valence,
    dialectics: set<DialecticalType>, data: Metadata)

  /** The attributes stored at a node; the node's label is its key in the graph. */
  datatype Node =
    | PropositionNode(texts: seq<string>, data: Metadata)
    | ArgumentNode(gists: seq<string>, data: Metadata, pcs: seq<PropositionReference>)

  /** A multigraph edge is identified by its endpoints and its valence. */
  datatype EdgeKey = EdgeKey(source: string, target: string, valence: Valence)

  datatype EdgeData = EdgeData(dialectics: set<DialecticalType>, data: Metadata)

  datatype Graph = Graph(nodes: map<string, Node>, edges: map<EdgeKey, EdgeData>)

  /** The exceptions the graph operations raise. */
  datatype GraphError =
    | LabelExists(nodeLabel: string)                    // ValueError: "... already exists."
    | MissingNode(nodeLabel: string)                    // KeyError: no node under the label
    | WrongKind(nodeLabel: string)                      // KeyError: node lacks "texts" / "gists"
    | MissingReference(nodeLabel: string)               // ValueError: PCS names an absent node
    | MissingEndpoint(source: string, target: string)   // ValueError: nodes must exist
    | RelationExists(source: string, target: string)    // ValueError: relation already exists
    | MissingRelation(key: EdgeKey)                     // ValueError: cannot be updated

  const EmptyGraph: Graph := Graph(map[], map[])

  function KeyOf(e: ArgdownEdge): EdgeKey {
    EdgeKey(e.source, e.target, e.valence)
  }

  function Lookup(edges: map<EdgeKey, EdgeData>, k: EdgeKey): Option<EdgeData> {
    if k in edges then Some(edges[k]) else None
  }

  predicate IsProposition(g: Graph, lbl: string) {
    lbl in g.nodes && g.nodes[lbl].PropositionNode?
  }

  predicate IsArgument(g: Graph, lbl: string) {
    lbl in g.nodes && g.nodes[lbl].ArgumentNode?
  }

  /** networkx's `has_edge(s, t)`: some relation runs from `s` to `t`. */
  predicate HasEdge(g: Graph, s: string, t: string) {
    exists v: Valence :: EdgeKey(s, t, v) in g.edges
  }

  // ---------------------------------------------------------------- helpers

  function Elems(s: seq<string>): set<string> {
    set x | x in s
  }

  predicate NoDuplicates(s: seq<string>) {
    forall i, j :: 0 <= i < j < |s| ==> s[i] != s[j]
  }

  /** `d` is `base` after `base.update(upd)`. */
  predicate Overrides(d: Metadata, base: Metadata, upd: Metadata) {
    && d.Keys == base.Keys + upd.Keys
    && (forall k :: k in upd ==> d[k] == upd[k])
    && (forall k :: k in base && k !in upd ==> d[k] == base[k])
  }

  /** `list(set(s))`: every element of `s`, once.  Python leaves the order open;
      this model keeps first occurrences. */
  function Dedup(s: seq<string>): (r: seq<string>)
    ensures Elems(r) == Elems(s)
    ensures NoDuplicates(r)
  {
    if |s| == 0 then []
    else
      var d := Dedup(s[..|s| - 1]);
      assert Elems(s) == Elems(s[..|s| - 1]) + {s[|s| - 1]} by {
        assert s == s[..|s| - 1] + [s[|s| - 1]];
      }
      if s[|s| - 1] in d then d else d + [s[|s| - 1]]
  }

  // ------------------------------------------------------------- invariants

  /** Every relation connects two nodes of the graph. */
  predicate EdgesConnectNodes(g: Graph) {
    forall k :: k in g.edges ==> k.source in g.nodes && k.target in g.nodes
  }

  /** Every node of `g` is still a node of `g'`, of the same kind. */
  predicate KindsPreserved(g: Graph, g': Graph) {
    forall l :: l in g.nodes ==>
      l in g'.nodes && g'.nodes[l].PropositionNode? == g.nodes[l].PropositionNode?
  }

  /** `g'` differs from `g` at most in the node under `lbl`, which it has. */
  predicate OnlyNodeChanged(g: Graph, g': Graph, lbl: string) {
    && g'.edges == g.edges
    && g'.nodes.Keys == g.nodes.Keys + {lbl}
    && (forall l :: l in g.nodes && l != lbl ==> g'.nodes[l] == g.nodes[l])
  }

  /** `g'` differs from `g` at most in the edge under `k`, which it has. */
  predicate OnlyEdgeChanged(g: Graph, g': Graph, k: EdgeKey) {
    && g'.nodes == g.nodes
    && g'.edges.Keys == g.edges.Keys + {k}
    && (forall k' :: k' in g.edges && k' != k ==> g'.edges[k'] == g.edges[k'])
  }

  /** The proposition node `n'` holds the texts of `n` and of `p`, each once, and
      the data of `n` overridden by that of `p`. */
  predicate MergedProposition(n: Node, p: Proposition, n': Node)
    requires n.PropositionNode?
  {
    && n'.PropositionNode?
    && Elems(n'.texts) == Elems(n.texts) + Elems(p.texts)
    && NoDuplicates(n'.texts)
    && Overrides(n'.data, n.data, p.data)
  }

  /** The argument node `n'` holds the gists of `n` and of `a`, each once, the data
      of `n` overridden by that of `a`, and exactly the PCS of `a`. */
  predicate MergedArgument(n: Node, a: Argument, n': Node)
    requires n.ArgumentNode?
  {
    && n'.ArgumentNode?
    && Elems(n'.gists) == Elems(n.gists) + Elems(a.gists)
    && NoDuplicates(n'.gists)
    && Overrides(n'.data, n.data, a.data)
    && n'.pcs == a.pcs
  }

  /** The edge data `d'` carries the dialectics of `d` and of `e`, and the data of
      `d` overridden by that of `e`. */
  predicate MergedEdge(d: EdgeData, e: ArgdownEdge, d': EdgeData) {
    d'.dialectics == d.dialectics + e.dialectics && Overrides(d'.data, d.data, e.data)
  }

  // ---------------------------------------------------------------- queries

  /** `get_proposition` */
  function GetProposition(g: Graph, lbl: string): (r: Option<Proposition>)
    ensures r.Some? <==> IsProposition(g, lbl)
    ensures r.Some? ==> r.value.nodeLabel == lbl && PropositionNode(r.value.texts, r.value.data) == g.nodes[lbl]
  {
    if IsProposition(g, lbl) then
      Some(Proposition(lbl, g.nodes[lbl].texts, g.nodes[lbl].data))
    else None
  }

  /** `get_argument` */
  function GetArgument(g: Graph, lbl: string): (r: Option<Argument>)
    ensures r.Some? <==> IsArgument(g, lbl)
    ensures r.Some? ==>
      r.value.nodeLabel == lbl && ArgumentNode(r.value.gists, r.value.data, r.value.pcs) == g.nodes[lbl]
  {
    if IsArgument(g, lbl) then
      var n := g.nodes[lbl];
      Some(Argument(lbl, n.gists, n.data, n.pcs))
    else None
  }

  /** `get_dialectical_relation(s, t)`: `None` without an edge from `s` to `t`,
      otherwise every edge from `s` to `t`. */
  function GetDialecticalRelation(g: Graph, s: string, t: string): (r: Option<set<ArgdownEdge>>)
    ensures r.None? <==> !HasEdge(g, s, t)
    ensures r.Some? ==> forall e :: e in r.value <==>
      (e.source == s && e.target == t && KeyOf(e) in g.edges
       && g.edges[KeyOf(e)] == EdgeData(e.dialectics, e.data))
  {
    if !HasEdge(g, s, t) then None
    else
      Some(set k | k in g.edges && k.source == s && k.target == t
             :: ArgdownEdge(s, t, k.valence, g.edges[k].dialectics, g.edges[k].data))
  }

  const NoPcsMessage := "No premise conclusion structure found."
  const ConclusionFirstMessage :=
    "Premise conclusion structure starts with a conclusion, but must start with a premise."
  const NoFinalConclusionMessage := "Premise conclusion structure does not end with a conclusion."

  /** `has_legal_pcs`: whether the PCS is legal, and the error message if not. */
  function HasLegalPcs(pcs: seq<PropositionReference>): (r: (bool, Option<string>))
    ensures r.0 <==> |pcs| > 0 && !pcs[0].Conclusion? && pcs[|pcs| - 1].Conclusion?
    ensures r.0 <==> r.1.None?
  {
    if |pcs| == 0 then (false, Some(NoPcsMessage))
    else if pcs[0].Conclusion? then (false, Some(ConclusionFirstMessage))
    else if !pcs[|pcs| - 1].Conclusion? then (false, Some(NoFinalConclusionMessage))
    else (true, None)
  }

  /** `f"{label}_{i}"` */
  function Suffixed(lbl: string, i: nat): string {
    lbl + "_" + NatToString(i)
  }

  lemma SuffixedInjective(lbl: string, i: nat, j: nat)
    requires Suffixed(lbl, i) == Suffixed(lbl, j)
    ensures i == j
  {
    var n := |lbl| + 1;
    assert NatToString(i) == Suffixed(lbl, i)[n..];
    assert NatToString(j) == Suffixed(lbl, j)[n..];
    NatToStringInjective(i, j);
  }

  /** The suffixed labels tried before suffix `i`. */
  function Tried(lbl: string, i: nat): set<string> {
    set j | 1 <= j < i :: Suffixed(lbl, j)
  }

  /** Suffix `i` is not among the suffixes tried before it. */
  lemma NotTriedBefore(lbl: string, i: nat)
    ensures Suffixed(lbl, i) !in Tried(lbl, i)
  {
    if Suffixed(lbl, i) in Tried(lbl, i) {
      var j :| 1 <= j < i && Suffixed(lbl, j) == Suffixed(lbl, i);
      SuffixedInjective(lbl, i, j);
    }
  }

  lemma TriedStep(lbl: string, i: nat)
    requires i >= 1
    ensures Tried(lbl, i + 1) == Tried(lbl, i) + {Suffixed(lbl, i)}
  {
    forall y | y in Tried(lbl, i + 1) ensures y in Tried(lbl, i) + {Suffixed(lbl, i)} {
      var j :| 1 <= j < i + 1 && Suffixed(lbl, j) == y;
      if j < i {
        assert y in Tried(lbl, i);
      }
    }
  }

  /** Trying one more suffix that is taken leaves fewer labels untried. */
  lemma TriedShrinks(labels: set<string>, lbl: string, i: nat)
    requires i >= 1 && Suffixed(lbl, i) in labels
    ensures |labels - Tried(lbl, i + 1)| < |labels - Tried(lbl, i)|
  {
    var x := Suffixed(lbl, i);
    NotTriedBefore(lbl, i);
    TriedStep(lbl, i);
    var rest := labels - Tried(lbl, i);
    assert labels - Tried(lbl, i + 1) == rest - {x};
    assert rest == (rest - {x}) + {x};
  }

  /** The first suffix from `i` on whose suffixed label is not among `labels`. */
  function FirstFreeSuffix(labels: set<string>, lbl: string, i: nat): (r: nat)
    requires i >= 1
    requires forall j :: 1 <= j < i ==> Suffixed(lbl, j) in labels
    ensures r >= i && Suffixed(lbl, r) !in labels
    ensures forall j :: 1 <= j < r ==> Suffixed(lbl, j) in labels
    decreases |labels - Tried(lbl, i)|
  {
    if Suffixed(lbl, i) !in labels then i
    else
      TriedShrinks(labels, lbl, i);
      FirstFreeSuffix(labels, lbl, i + 1)
  }

  /** `make_label_unique`, against the set of node labels. */
  function UniqueLabel(labels: set<string>, lbl: string): (r: string)
    ensures r !in labels
    ensures lbl !in labels ==> r == lbl
    ensures lbl in labels ==> r == Suffixed(lbl, FirstFreeSuffix(labels, lbl, 1))
  {
    if lbl !in labels then lbl else Suffixed(lbl, FirstFreeSuffix(labels, lbl, 1))
  }

  /** The first PCS entry from index `i` on that names no node of the graph. */
  function FirstMissingReference(g: Graph, pcs: seq<PropositionReference>, i: nat): (r: Option<nat>)
    ensures r.Some? ==> i <= r.value < |pcs| && pcs[r.value].propositionLabel !in g.nodes
    ensures r.Some? ==> forall j :: i <= j < r.value ==> pcs[j].propositionLabel in g.nodes
    ensures r.None? ==> forall j :: i <= j < |pcs| ==> pcs[j].propositionLabel in g.nodes
    decreases |pcs| - i
  {
    if i >= |pcs| then None
    else if pcs[i].propositionLabel !in g.nodes then Some(i)
    else FirstMissingReference(g, pcs, i + 1)
  }

  // ------------------------------------------------------------- operations

  /** `update_proposition(label, p)` */
  function UpdateProposition(g: Graph, lbl: string, p: Proposition): (r: Result<Graph, GraphError>)
    ensures lbl !in g.nodes ==> r == Failure(MissingNode(lbl))
    ensures IsArgument(g, lbl) ==> r == Failure(WrongKind(lbl))
    ensures IsProposition(g, lbl) ==>
      r.Success? && OnlyNodeChanged(g, r.value, lbl)
      && MergedProposition(g.nodes[lbl], p, r.value.nodes[lbl])
    ensures r.Success? ==> KindsPreserved(g, r.value)
    ensures r.Success? && EdgesConnectNodes(g) ==> EdgesConnectNodes(r.value)
  {
    if lbl !in g.nodes then Failure(MissingNode(lbl))
    else if g.nodes[lbl].ArgumentNode? then Failure(WrongKind(lbl))
    else
      var n := g.nodes[lbl];
      Success(g.(nodes := g.nodes[lbl := PropositionNode(Dedup(n.texts + p.texts), n.data + p.data)]))
  }

  /** `add_proposition(p, allow_exists)` */
  function AddProposition(g: Graph, p: Proposition, allowExists: bool): (r: Result<Graph, GraphError>)
    ensures p.nodeLabel in g.nodes && !allowExists ==> r == Failure(LabelExists(p.nodeLabel))
    ensures p.nodeLabel in g.nodes && allowExists ==> r == UpdateProposition(g, p.nodeLabel, p)
    ensures p.nodeLabel !in g.nodes ==>
      r.Success? && OnlyNodeChanged(g, r.value, p.nodeLabel) && GetProposition(r.value, p.nodeLabel) == Some(p)
    ensures r.Success? ==> KindsPreserved(g, r.value)
    ensures r.Success? && EdgesConnectNodes(g) ==> EdgesConnectNodes(r.value)
  {
    if p.nodeLabel in g.nodes then
      if !allowExists then Failure(LabelExists(p.nodeLabel))
      else UpdateProposition(g, p.nodeLabel, p)
    else
      Success(g.(nodes := g.nodes[p.nodeLabel := PropositionNode(p.texts, p.data)]))
  }

  /** The PCS check of `add_argument` and `update_argument`: a non-empty illegal
      PCS makes the call return without a change. */
  predicate RejectedPcs(a: Argument, checkLegal: bool) {
    checkLegal && |a.pcs| > 0 && !HasLegalPcs(a.pcs).0
  }

  /** `update_argument(label, a, check_legal)` */
  function UpdateArgument(g: Graph, lbl: string, a: Argument, checkLegal: bool): (r: Result<Graph, GraphError>)
    ensures RejectedPcs(a, checkLegal) ==> r == Success(g)
    ensures !RejectedPcs(a, checkLegal) && lbl !in g.nodes ==> r == Failure(MissingNode(lbl))
    ensures !RejectedPcs(a, checkLegal) && IsProposition(g, lbl) ==> r == Failure(WrongKind(lbl))
    ensures !RejectedPcs(a, checkLegal) && IsArgument(g, lbl) ==>
      r.Success? && OnlyNodeChanged(g, r.value, lbl)
      && MergedArgument(g.nodes[lbl], a, r.value.nodes[lbl])
    ensures r.Success? ==> KindsPreserved(g, r.value)
    ensures r.Success? && EdgesConnectNodes(g) ==> EdgesConnectNodes(r.value)
  {
    if RejectedPcs(a, checkLegal) then Success(g)
    else if lbl !in g.nodes then Failure(MissingNode(lbl))
    else if g.nodes[lbl].PropositionNode? then Failure(WrongKind(lbl))
    else
      var n := g.nodes[lbl];
      Success(g.(nodes := g.nodes[lbl := ArgumentNode(Dedup(n.gists + a.gists), n.data + a.data, a.pcs)]))
  }

  /** `add_argument(a, allow_exists, check_legal)` */
  function AddArgument(g: Graph, a: Argument, allowExists: bool, checkLegal: bool): (r: Result<Graph, GraphError>)
    ensures a.nodeLabel in g.nodes && !allowExists ==> r == Failure(LabelExists(a.nodeLabel))
    ensures a.nodeLabel in g.nodes && allowExists ==> r == UpdateArgument(g, a.nodeLabel, a, checkLegal)
    ensures a.nodeLabel !in g.nodes && RejectedPcs(a, checkLegal) ==> r == Success(g)
    ensures a.nodeLabel !in g.nodes && !RejectedPcs(a, checkLegal) ==>
      match FirstMissingReference(g, a.pcs, 0)
      case Some(i) => r == Failure(MissingReference(a.pcs[i].propositionLabel))
      case None =>
        r.Success? && OnlyNodeChanged(g, r.value, a.nodeLabel) && GetArgument(r.value, a.nodeLabel) == Some(a)
    ensures r.Success? ==> KindsPreserved(g, r.value)
    ensures r.Success? && EdgesConnectNodes(g) ==> EdgesConnectNodes(r.value)
  {
    if a.nodeLabel in g.nodes then
      if !allowExists then Failure(LabelExists(a.nodeLabel))
      else UpdateArgument(g, a.nodeLabel, a, checkLegal)
    else if RejectedPcs(a, checkLegal) then Success(g)
    else match FirstMissingReference(g, a.pcs, 0)
      case Some(i) => Failure(MissingReference(a.pcs[i].propositionLabel))
      case None => Success(g.(nodes := g.nodes[a.nodeLabel := ArgumentNode(a.gists, a.data, a.pcs)]))
  }

  /** `update_dialectical_relation(e)` */
  function UpdateDialecticalRelation(g: Graph, e: ArgdownEdge): (r: Result<Graph, GraphError>)
    ensures KeyOf(e) !in g.edges ==> r == Failure(MissingRelation(KeyOf(e)))
    ensures KeyOf(e) in g.edges ==>
      r.Success? && OnlyEdgeChanged(g, r.value, KeyOf(e))
      && MergedEdge(g.edges[KeyOf(e)], e, r.value.edges[KeyOf(e)])
    ensures r.Success? ==> r.value.nodes == g.nodes
    ensures r.Success? && EdgesConnectNodes(g) ==> EdgesConnectNodes(r.value)
  {
    var k := KeyOf(e);
    if k !in g.edges then Failure(MissingRelation(k))
    else
      var d := g.edges[k];
      Success(g.(edges := g.edges[k := EdgeData(d.dialectics + e.dialectics, d.data + e.data)]))
  }

  /** `add_dialectical_relation(e, allow_exists)` */
  function AddDialecticalRelation(g: Graph, e: ArgdownEdge, allowExists: bool): (r: Result<Graph, GraphError>)
    ensures e.source !in g.nodes || e.target !in g.nodes ==>
      r == Failure(MissingEndpoint(e.source, e.target))
    ensures e.source in g.nodes && e.target in g.nodes && HasEdge(g, e.source, e.target) && !allowExists ==>
      r == Failure(RelationExists(e.source, e.target))
    ensures e.source in g.nodes && e.target in g.nodes && (allowExists || !HasEdge(g, e.source, e.target)) ==>
      && r.Success? && OnlyEdgeChanged(g, r.value, KeyOf(e))
      && (KeyOf(e) in g.edges ==> MergedEdge(g.edges[KeyOf(e)], e, r.value.edges[KeyOf(e)]))
      && (KeyOf(e) !in g.edges ==> r.value.edges[KeyOf(e)] == EdgeData(e.dialectics, e.data))
    ensures r.Success? ==> r.value.nodes == g.nodes
    ensures r.Success? && EdgesConnectNodes(g) ==> EdgesConnectNodes(r.value)
  {
    var k := KeyOf(e);
    if e.source !in g.nodes || e.target !in g.nodes then Failure(MissingEndpoint(e.source, e.target))
    else if HasEdge(g, e.source, e.target) && !allowExists then Failure(RelationExists(e.source, e.target))
    else if k in g.edges then UpdateDialecticalRelation(g, e)
    else Success(g.(edges := g.edges[k := EdgeData(e.dialectics, e.data)]))
  }

  // ----------------------------------------------------------------- lemmas

  /** Adding a proposition that is already there merges it: it still has every text
      it had, and every new text. */
  lemma {:induction false} AddExistingPropositionMerges(g: Graph, p: Proposition, t: string)
    requires IsProposition(g, p.nodeLabel)
    requires t in g.nodes[p.nodeLabel].texts || t in p.texts
    ensures AddProposition(g, p, true).Success?
    ensures var g' := AddProposition(g, p, true).value;
      IsProposition(g', p.nodeLabel) && t in g'.nodes[p.nodeLabel].texts
  {
    var g' := AddProposition(g, p, true).value;
    assert t in Elems(g.nodes[p.nodeLabel].texts) + Elems(p.texts);
    assert t in Elems(g'.nodes[p.nodeLabel].texts);
  }
}
