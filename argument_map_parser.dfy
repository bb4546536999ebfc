/** The argument-map transformer (`ArgumentMapTreeTransformer`) and
    `ArgumentMapParser.ingest_in_argmap`.

    A map block parses into roots; each root and each child holds a reason and
    the children below it, and every child is introduced by a relation marker.
    The transformer works bottom-up, in the order of the tree: it registers a
    reason (a proposition, or an argument without a PCS) when it meets it, then
    the children below it, and then draws the edges between the reason and its
    children.  Ingesting works on a copy of the graph: if the transformer raises,
    the original graph is returned unchanged; otherwise the inference pass runs
    on the copy, and an exception it raises reaches the caller. */
module ArgumentMapParser {
  import opened Wrappers
  import opened Strings
  import opened Model
  import opened Base
  import opened Inference
  import opened MultiDiGraph

  /** `child: relation reason [children]` */
  datatype MapChild = MapChild(relation: ReasonRelation, reason: Reason, children: seq<MapChild>)

  /** `root: reason [children]` */
  datatype MapRoot = MapRoot(reason: Reason, children: seq<MapChild>)

  /** The text and the data of a reason: the YAML mapping split off its text,
      and the rest stripped; no text gives `("", {})`. */
  function ReasonText(text: string, load: string -> Option<Metadata>): (string, Metadata) {
    if text == "" then ("", map[])
    else
      var extracted := ExtractedYaml(text, load);
      (Strip(extracted.0), extracted.1)
  }

  /** `[text] if text else []` */
  function TextList(text: string): (r: seq<string>)
    ensures text == "" <==> r == []
  {
    if text == "" then [] else [text]
  }

  /** A proposition reason: `add_proposition` with `allow_exists=True`. */
  function RegisterProposition(g: Graph, l: string, text: string, load: string -> Option<Metadata>)
    : (res: Result<(Graph, string), GraphError>)
    ensures res.Success? <==> !IsArgument(g, l)
    ensures res.Success? ==> res.value.1 == l && IsProposition(res.value.0, l)
    ensures res.Success? ==> KindsPreserved(g, res.value.0) && res.value.0.edges == g.edges
  {
    var (t, yaml) := ReasonText(text, load);
    match AddProposition(g, Proposition(l, TextList(t), yaml), true)
    case Failure(e) => Failure(e)
    case Success(g') => Success((g', l))
  }

  /** An argument reason: `add_argument` of an argument without a PCS, with `allow_exists=True`. */
  function RegisterArgument(g: Graph, l: string, text: string, load: string -> Option<Metadata>)
    : (res: Result<(Graph, string), GraphError>)
    ensures res.Success? <==> !IsProposition(g, l)
    ensures res.Success? ==> res.value.1 == l && IsArgument(res.value.0, l)
    ensures res.Success? ==> KindsPreserved(g, res.value.0) && res.value.0.edges == g.edges
  {
    var (t, yaml) := ReasonText(text, load);
    match AddArgument(g, Argument(l, TextList(t), yaml, []), true, true)
    case Failure(e) => Failure(e)
    case Success(g') => Success((g', l))
  }

  /** The `reason` callback: add the proposition or the argument it names, with
      `allow_exists=True`, and return its label.  Bare text names a fresh
      `UNNAMED_PROPOSITION` label. */
  function RegisterReason(g: Graph, r: Reason, load: string -> Option<Metadata>): (res: Result<(Graph, string), GraphError>)
    ensures res.Success? ==> res.value.1 in res.value.0.nodes
    ensures res.Success? ==> KindsPreserved(g, res.value.0) && res.value.0.edges == g.edges
    ensures r.PropositionReason? ==>
      (res.Success? <==> !IsArgument(g, r.nodeLabel))
      && (res.Success? ==> res.value.1 == r.nodeLabel && IsProposition(res.value.0, r.nodeLabel))
    ensures r.ArgumentReason? ==>
      (res.Success? <==> !IsProposition(g, r.nodeLabel))
      && (res.Success? ==> res.value.1 == r.nodeLabel && IsArgument(res.value.0, r.nodeLabel))
    ensures r.TextReason? ==>
      res.Success? && res.value.1 !in g.nodes && IsUnlabeled(res.value.1)
      && IsProposition(res.value.0, res.value.1)
  {
    match r
    case PropositionReason(l, text) => RegisterProposition(g, l, text, load)
    case ArgumentReason(l, text) => RegisterArgument(g, l, text, load)
    case TextReason(text) =>
      UniqueUnnamedIsUnlabeled(g.nodes.Keys);
      RegisterProposition(g, UniqueLabel(g.nodes.Keys, UnnamedProposition), text, load)
  }

  /** One edge of `process_children`, between the reason `parent` and its child. */
  function AddReasonRelation(g: Graph, parent: string, rel: ReasonRelation, child: string): (r: Result<Graph, GraphError>)
    ensures parent in g.nodes && child in g.nodes <==> r.Success?
    ensures r.Success? ==>
      var k := EdgeKey(Orient(rel, parent, child).0, Orient(rel, parent, child).1, ValenceOf(rel));
      && OnlyEdgeChanged(g, r.value, k)
      && (IsProposition(g, parent) && IsProposition(g, child) ==> AXIOMATIC in r.value.edges[k].dialectics)
      && (!(IsProposition(g, parent) && IsProposition(g, child)) ==> SKETCHED in r.value.edges[k].dialectics)
      && (k in g.edges ==> g.edges[k].dialectics <= r.value.edges[k].dialectics)
  {
    var (s, t, val) := Orient(rel, parent, child);
    var dialectic := if IsProposition(g, parent) && IsProposition(g, child) then AXIOMATIC else SKETCHED;
    AddDialecticalRelation(g, ArgdownEdge(s, t, val, {dialectic}, map[]), true)
  }

  /** `process_children(parent, children)`: the edges to the children, in order.
      It fails exactly when the parent or a child is not a node. */
  function ChildEdges(g: Graph, parent: string, kids: seq<(ReasonRelation, string)>): (r: Result<Graph, GraphError>)
    ensures r.Success? ==> r.value.nodes == g.nodes
    ensures r.Success? <==>
      (|kids| == 0 || parent in g.nodes) && forall i :: 0 <= i < |kids| ==> kids[i].1 in g.nodes
    decreases |kids|
  {
    if |kids| == 0 then Success(g)
    else
      var g' :- AddReasonRelation(g, parent, kids[0].0, kids[0].1);
      assert forall i :: 0 <= i < |kids| - 1 ==> kids[1..][i] == kids[i + 1];
      ChildEdges(g', parent, kids[1..])
  }

  /** The key of the relation between `parent` and one child: oriented by the
      child's marker, under the marker's valence. */
  function ChildKey(parent: string, kid: (ReasonRelation, string)): EdgeKey {
    EdgeKey(Orient(kid.0, parent, kid.1).0, Orient(kid.0, parent, kid.1).1, ValenceOf(kid.0))
  }

  /** The keys of the relations to all the children. */
  function ChildKeys(parent: string, kids: seq<(ReasonRelation, string)>): set<EdgeKey> {
    set i | 0 <= i < |kids| :: ChildKey(parent, kids[i])
  }

  /** The relation data `d` between `parent` and `child` is marked AXIOMATIC when
      both are propositions of `g` and SKETCHED otherwise. */
  predicate MarkedFor(g: Graph, parent: string, child: string, d: EdgeData) {
    && (IsProposition(g, parent) && IsProposition(g, child) ==> AXIOMATIC in d.dialectics)
    && (!(IsProposition(g, parent) && IsProposition(g, child)) ==> SKETCHED in d.dialectics)
  }

  /** `g'` has the relations of `g` and those under `keys`; a relation not under
      `keys` is untouched, and no relation loses a dialectic. */
  predicate EdgesFramed(g: Graph, g': Graph, keys: set<EdgeKey>) {
    && g'.edges.Keys == g.edges.Keys + keys
    && (forall k :: k in g.edges && k !in keys ==> g'.edges[k] == g.edges[k])
    && (forall k :: k in g.edges ==> g.edges[k].dialectics <= g'.edges[k].dialectics)
  }

  /** Two framed steps make one. */
  lemma EdgesFramedTrans(g: Graph, g1: Graph, g2: Graph, k1: set<EdgeKey>, k2: set<EdgeKey>)
    requires EdgesFramed(g, g1, k1) && EdgesFramed(g1, g2, k2)
    ensures EdgesFramed(g, g2, k1 + k2)
  {
  }

  /** The keys of a non-empty list of children: the first child's and the rest's. */
  lemma ChildKeysCons(parent: string, kids: seq<(ReasonRelation, string)>)
    requires |kids| > 0
    ensures ChildKeys(parent, kids) == {ChildKey(parent, kids[0])} + ChildKeys(parent, kids[1..])
  {
    var rest := kids[1..];
    forall k | k in ChildKeys(parent, kids)
      ensures k in {ChildKey(parent, kids[0])} + ChildKeys(parent, rest)
    {
      var i :| 0 <= i < |kids| && k == ChildKey(parent, kids[i]);
      if i > 0 {
        assert kids[i] == rest[i - 1];
      }
    }
    forall k | k in ChildKeys(parent, rest) ensures k in ChildKeys(parent, kids) {
      var i :| 0 <= i < |rest| && k == ChildKey(parent, rest[i]);
      assert rest[i] == kids[i + 1];
    }
  }

  /** `process_children` draws the relations under the children's keys and
      touches no other relation. */
  lemma {:induction false} ChildEdgesFramed(g: Graph, parent: string, kids: seq<(ReasonRelation, string)>)
    requires ChildEdges(g, parent, kids).Success?
    ensures EdgesFramed(g, ChildEdges(g, parent, kids).value, ChildKeys(parent, kids))
    decreases |kids|
  {
    if |kids| > 0 {
      var g1 := AddReasonRelation(g, parent, kids[0].0, kids[0].1).value;
      var rest := kids[1..];
      ChildEdgesFramed(g1, parent, rest);
      assert EdgesFramed(g, g1, {ChildKey(parent, kids[0])});
      EdgesFramedTrans(g, g1, ChildEdges(g1, parent, rest).value, {ChildKey(parent, kids[0])}, ChildKeys(parent, rest));
      ChildKeysCons(parent, kids);
    }
  }

  /** What `process_children` draws: a relation under each child's key, marked
      AXIOMATIC or SKETCHED, and no other change to the relations. */
  lemma {:induction false} ChildEdgesDraws(g: Graph, parent: string, kids: seq<(ReasonRelation, string)>)
    requires ChildEdges(g, parent, kids).Success?
    ensures EdgesFramed(g, ChildEdges(g, parent, kids).value, ChildKeys(parent, kids))
    ensures forall i :: 0 <= i < |kids| ==>
      && ChildKey(parent, kids[i]) in ChildEdges(g, parent, kids).value.edges
      && MarkedFor(g, parent, kids[i].1, ChildEdges(g, parent, kids).value.edges[ChildKey(parent, kids[i])])
    decreases |kids|
  {
    ChildEdgesFramed(g, parent, kids);
    if |kids| > 0 {
      var g1 := AddReasonRelation(g, parent, kids[0].0, kids[0].1).value;
      var rest := kids[1..];
      ChildEdgesDraws(g1, parent, rest);
      ChildEdgesFramed(g1, parent, rest);
      var g' := ChildEdges(g1, parent, rest).value;
      assert g' == ChildEdges(g, parent, kids).value;
      var k0 := ChildKey(parent, kids[0]);
      assert MarkedFor(g, parent, kids[0].1, g1.edges[k0]);
      assert g1.edges[k0].dialectics <= g'.edges[k0].dialectics;
      forall i | 0 <= i < |kids|
        ensures ChildKey(parent, kids[i]) in g'.edges
        ensures MarkedFor(g, parent, kids[i].1, g'.edges[ChildKey(parent, kids[i])])
      {
        if i > 0 {
          assert kids[i] == rest[i - 1];
        }
      }
    }
  }

  /** The `child` callback after its subtrees: the relation and label it returns. */
  function TransformChild(g: Graph, c: MapChild, load: string -> Option<Metadata>): (r: Result<(Graph, (ReasonRelation, string)), GraphError>)
    ensures r.Success? ==> KindsPreserved(g, r.value.0) && r.value.1.1 in r.value.0.nodes
    ensures r.Success? ==> r.value.1.0 == c.relation
    ensures r.Success? ==>
      RegisterReason(g, c.reason, load).Success? && r.value.1.1 == RegisterReason(g, c.reason, load).value.1
    decreases c, 1
  {
    var reg :- RegisterReason(g, c.reason, load);
    var sub :- TransformChildren(reg.0, c.children, load);
    KindsPreservedTrans(g, reg.0, sub.0);
    var g' :- ChildEdges(sub.0, reg.1, sub.1);
    Success((g', (c.relation, reg.1)))
  }

  /** The children of a reason, left to right. */
  function TransformChildren(g: Graph, cs: seq<MapChild>, load: string -> Option<Metadata>): (r: Result<(Graph, seq<(ReasonRelation, string)>), GraphError>)
    ensures r.Success? ==> KindsPreserved(g, r.value.0) && |r.value.1| == |cs|
    ensures r.Success? ==> forall i :: 0 <= i < |cs| ==> r.value.1[i].0 == cs[i].relation
    decreases cs, 0
  {
    if |cs| == 0 then Success((g, []))
    else
      var first :- TransformChild(g, cs[0], load);
      var rest :- TransformChildren(first.0, cs[1..], load);
      KindsPreservedTrans(g, first.0, rest.0);
      Success((rest.0, [first.1] + rest.1))
  }

  /** The `root` callback after its subtrees: the label it returns. */
  function TransformRoot(g: Graph, root: MapRoot, load: string -> Option<Metadata>): (r: Result<(Graph, string), GraphError>)
    ensures r.Success? ==> KindsPreserved(g, r.value.0) && r.value.1 in r.value.0.nodes
    ensures r.Success? ==>
      RegisterReason(g, root.reason, load).Success? && r.value.1 == RegisterReason(g, root.reason, load).value.1
  {
    var reg :- RegisterReason(g, root.reason, load);
    var sub :- TransformChildren(reg.0, root.children, load);
    KindsPreservedTrans(g, reg.0, sub.0);
    var g' :- ChildEdges(sub.0, reg.1, sub.1);
    Success((g', reg.1))
  }

  /** `transform(tree)`: the roots, top to bottom. */
  function TransformMap(g: Graph, roots: seq<MapRoot>, load: string -> Option<Metadata>): (r: Result<Graph, GraphError>)
    ensures r.Success? ==> KindsPreserved(g, r.value)
    decreases |roots|
  {
    if |roots| == 0 then Success(g)
    else
      var first :- TransformRoot(g, roots[0], load);
      var rest :- TransformMap(first.0, roots[1..], load);
      KindsPreservedTrans(g, first.0, rest);
      Success(rest)
  }

  /** `ingest_in_argmap(tree, argdown)`: `None` when the inference pass raises. */
  function Ingest(g: Graph, roots: seq<MapRoot>, load: string -> Option<Metadata>): Option<Graph> {
    match TransformMap(g, roots, load)
    case Failure(_) => Some(g)
    case Success(g') => if Raises(g') then None else Some(Updated(g'))
  }

  lemma KindsPreservedTrans(g1: Graph, g2: Graph, g3: Graph)
    requires KindsPreserved(g1, g2) && KindsPreserved(g2, g3)
    ensures KindsPreserved(g1, g3)
  {
  }

  // ------------------------------------------------------------------ lemmas

  /** Ingesting is all or nothing: a map the transformer rejects leaves the graph
      as it was, and whatever it returns is a fixpoint of the inference pass or
      the graph it was given. */
  lemma IngestAllOrNothing(g: Graph, roots: seq<MapRoot>, load: string -> Option<Metadata>)
    ensures TransformMap(g, roots, load).Failure? ==> Ingest(g, roots, load) == Some(g)
    ensures TransformMap(g, roots, load).Success? ==>
      var g' := Ingest(g, roots, load);
      g'.Some? ==> !Raises(g'.value) && Updated(g'.value) == g'.value
  {
    match TransformMap(g, roots, load)
    case Failure(_) =>
    case Success(t) =>
      if !Raises(t) {
        UpdateIdempotent(t);
      }
  }

  /** Ingesting a map keeps every node the graph had, with its kind. */
  lemma IngestKeepsNodes(g: Graph, roots: seq<MapRoot>, load: string -> Option<Metadata>)
    requires Ingest(g, roots, load).Some?
    ensures KindsPreserved(g, Ingest(g, roots, load).value)
  {
  }

  /** Mentioning an argument `<A>` in a map merges its gists and data, and replaces
      its PCS by the empty one (`update_argument` overwrites the PCS unconditionally). */
  lemma ArgumentMentionClearsPcs(g: Graph, l: string, text: string, load: string -> Option<Metadata>)
    requires IsArgument(g, l)
    ensures var res := RegisterReason(g, ArgumentReason(l, text), load);
      res.Success? && IsArgument(res.value.0, l) && res.value.0.nodes[l].pcs == []
  {
    var (t, yaml) := ReasonText(text, load);
    var a := Argument(l, TextList(t), yaml, []);
    assert !RejectedPcs(a, true);
  }

  /** Changing one node keeps every PCS naming propositions, as long as no node
      changes its kind and the changed node, if an argument, names propositions. */
  lemma NamesKept(g: Graph, g': Graph, l: string)
    requires PcsNamesPropositions(g) && KindsPreserved(g, g')
    requires forall m :: m in g'.nodes && m != l ==> m in g.nodes && g'.nodes[m] == g.nodes[m]
    requires l in g'.nodes && g'.nodes[l].ArgumentNode? ==>
      forall i :: 0 <= i < |g'.nodes[l].pcs| ==> IsProposition(g', g'.nodes[l].pcs[i].propositionLabel)
    ensures PcsNamesPropositions(g')
  {
  }

  /** A reason adds a proposition or an argument without a PCS: every PCS of the
      graph still names propositions. */
  lemma RegisterReasonKeepsNames(g: Graph, r: Reason, load: string -> Option<Metadata>)
    requires PcsNamesPropositions(g)
    requires RegisterReason(g, r, load).Success?
    ensures PcsNamesPropositions(RegisterReason(g, r, load).value.0)
  {
    var g' := RegisterReason(g, r, load).value.0;
    match r
    case ArgumentReason(l, text) =>
      var (t, yaml) := ReasonText(text, load);
      assert !RejectedPcs(Argument(l, TextList(t), yaml, []), true);
      NamesKept(g, g', l);
    case PropositionReason(l, _) =>
      NamesKept(g, g', l);
    case TextReason(_) =>
      NamesKept(g, g', UniqueLabel(g.nodes.Keys, UnnamedProposition));
  }

  lemma {:induction false} ChildKeepsNames(g: Graph, c: MapChild, load: string -> Option<Metadata>)
    requires PcsNamesPropositions(g) && TransformChild(g, c, load).Success?
    ensures PcsNamesPropositions(TransformChild(g, c, load).value.0)
    decreases c, 1
  {
    var reg := RegisterReason(g, c.reason, load).value;
    RegisterReasonKeepsNames(g, c.reason, load);
    ChildrenKeepNames(reg.0, c.children, load);
    var sub := TransformChildren(reg.0, c.children, load).value;
    PcsNamesPropositionsSameNodes(sub.0, ChildEdges(sub.0, reg.1, sub.1).value);
  }

  lemma {:induction false} ChildrenKeepNames(g: Graph, cs: seq<MapChild>, load: string -> Option<Metadata>)
    requires PcsNamesPropositions(g) && TransformChildren(g, cs, load).Success?
    ensures PcsNamesPropositions(TransformChildren(g, cs, load).value.0)
    decreases cs, 0
  {
    if |cs| > 0 {
      ChildKeepsNames(g, cs[0], load);
      ChildrenKeepNames(TransformChild(g, cs[0], load).value.0, cs[1..], load);
    }
  }

  lemma {:induction false} MapKeepsNames(g: Graph, roots: seq<MapRoot>, load: string -> Option<Metadata>)
    requires PcsNamesPropositions(g) && TransformMap(g, roots, load).Success?
    ensures PcsNamesPropositions(TransformMap(g, roots, load).value)
    decreases |roots|
  {
    if |roots| > 0 {
      var root := roots[0];
      var reg := RegisterReason(g, root.reason, load).value;
      RegisterReasonKeepsNames(g, root.reason, load);
      ChildrenKeepNames(reg.0, root.children, load);
      var sub := TransformChildren(reg.0, root.children, load).value;
      var first := ChildEdges(sub.0, reg.1, sub.1).value;
      PcsNamesPropositionsSameNodes(sub.0, first);
      MapKeepsNames(first, roots[1..], load);
    }
  }

  /** Ingesting a map into a graph whose every PCS names propositions never makes
      the inference pass raise, and the graph it returns has that property again. */
  lemma IngestNeverRaises(g: Graph, roots: seq<MapRoot>, load: string -> Option<Metadata>)
    requires PcsNamesPropositions(g)
    ensures Ingest(g, roots, load).Some?
    ensures PcsNamesPropositions(Ingest(g, roots, load).value)
  {
    if TransformMap(g, roots, load).Success? {
      var t := TransformMap(g, roots, load).value;
      MapKeepsNames(g, roots, load);
      NoRaiseWhenPcsNamesPropositions(t);
      PcsNamesPropositionsSameNodes(t, Updated(t));
    }
  }

  // ------------------------------------------------------ the transformer class

  /** A callback either returns (`raised == None`) what the function describes,
      leaving the graph as the function says, or raises the error it names. */
  predicate Outcome<T(==)>(r: Result<(Graph, T), GraphError>, raised: Option<GraphError>, value: T, after: Graph) {
    match r
    case Success(p) => raised.None? && after == p.0 && value == p.1
    case Failure(e) => raised == Some(e)
  }

  /** The same for callbacks that return no value. */
  predicate GraphOutcome(r: Result<Graph, GraphError>, raised: Option<GraphError>, after: Graph) {
    match r
    case Success(g) => raised.None? && after == g
    case Failure(e) => raised == Some(e)
  }

  /** The `Success` of a list of children, with the results before them prepended. */
  function Prepend<T>(acc: seq<T>, r: Result<(Graph, seq<T>), GraphError>): Result<(Graph, seq<T>), GraphError> {
    match r
    case Success(p) => Success((p.0, acc + p.1))
    case Failure(e) => Failure(e)
  }

  /** `ArgumentMapTreeTransformer`: lark calls `reason`, `child` and `root` bottom-up,
      left to right, and every callback changes the graph it was built for. */
  class ArgumentMapTreeTransformer {
    const argdown: ArgdownMultiDiGraph
    /** `yaml.safe_load`, as far as `extract_yaml` needs it. */
    const load: string -> Option<Metadata>

    constructor (argdown: ArgdownMultiDiGraph, load: string -> Option<Metadata>)
      ensures this.argdown == argdown && this.load == load
    {
      this.argdown := argdown;
      this.load := load;
    }

    /** `reason`: the label of the proposition or argument it adds or merges. */
    method Reason(r: Reason) returns (lbl: string, raised: Option<GraphError>)
      modifies argdown
      ensures Outcome(RegisterReason(old(argdown.Snapshot()), r, load), raised, lbl, argdown.Snapshot())
      ensures raised.Some? ==> argdown.Snapshot() == old(argdown.Snapshot())
    {
      var text, yaml := "", map[];
      if r.text != "" {
        text, yaml := ExtractYaml(r.text, load);
      }
      text := Strip(text);
      match r
      case ArgumentReason(l, _) =>
        lbl := l;
        raised := argdown.AddArgument(Argument(lbl, TextList(text), yaml, []), true, true);
      case PropositionReason(l, _) =>
        lbl := l;
        raised := argdown.AddProposition(Proposition(lbl, TextList(text), yaml), true);
      case TextReason(_) =>
        lbl := argdown.MakeLabelUnique(UnnamedProposition);
        raised := argdown.AddProposition(Proposition(lbl, TextList(text), yaml), true);
    }

    /** `process_children`: one edge per child, in order; the first edge that
        fails raises, and the edges before it stay. */
    method ProcessChildren(parent: string, kids: seq<(ReasonRelation, string)>) returns (raised: Option<GraphError>)
      modifies argdown
      ensures GraphOutcome(ChildEdges(old(argdown.Snapshot()), parent, kids), raised, argdown.Snapshot())
    {
      ghost var g0 := argdown.Snapshot();
      var i := 0;
      while i < |kids|
        invariant 0 <= i <= |kids|
        invariant ChildEdges(g0, parent, kids)
          == ChildEdges(argdown.Snapshot(), parent, kids[i..])
      {
        ghost var g := argdown.Snapshot();
        ProcessChildrenStep(g, parent, kids, i);
        var (rel, child) := kids[i];
        var (s, t, val) := Orient(rel, parent, child);
        var dialectic := SKETCHED;
        if GetProposition(argdown.Snapshot(), parent).Some? && GetProposition(argdown.Snapshot(), child).Some? {
          dialectic := AXIOMATIC;
        }
        ghost var step := AddReasonRelation(g, parent, rel, child);
        assert step == Model.AddDialecticalRelation(g, ArgdownEdge(s, t, val, {dialectic}, map[]), true);
        raised := argdown.AddDialecticalRelation(ArgdownEdge(s, t, val, {dialectic}, map[]), true);
        assert Committed(g, step, raised, argdown.Snapshot());
        if raised.Some? {
          return;
        }
        assert step.Success? && argdown.Snapshot() == step.value;
        i := i + 1;
      }
      assert kids[i..] == [];
      raised := None;
    }

    /** `child`: its reason, then the children below it, then the edges to them. */
    method Child(c: MapChild) returns (res: (ReasonRelation, string), raised: Option<GraphError>)
      modifies argdown
      ensures Outcome(TransformChild(old(argdown.Snapshot()), c, load), raised, res, argdown.Snapshot())
      decreases c, 1
    {
      ghost var g0 := argdown.Snapshot();
      var lbl;
      lbl, raised := Reason(c.reason);
      res := (c.relation, lbl);
      if raised.Some? {
        return;
      }
      var kids;
      kids, raised := Children(c.children);
      if raised.Some? {
        return;
      }
      raised := ProcessChildren(lbl, kids);
    }

    /** The children of a reason, left to right. */
    method Children(cs: seq<MapChild>) returns (kids: seq<(ReasonRelation, string)>, raised: Option<GraphError>)
      modifies argdown
      ensures Outcome(TransformChildren(old(argdown.Snapshot()), cs, load), raised, kids, argdown.Snapshot())
      decreases cs, 0
    {
      ghost var g0 := argdown.Snapshot();
      kids := [];
      var i := 0;
      assert cs[i..] == cs;
      PrependNothing(TransformChildren(g0, cs, load));
      while i < |cs|
        invariant 0 <= i <= |cs|
        invariant TransformChildren(g0, cs, load) == Prepend(kids, TransformChildren(argdown.Snapshot(), cs[i..], load))
      {
        ChildrenStep(argdown.Snapshot(), cs, i, load);
        var kid;
        kid, raised := Child(cs[i]);
        if raised.Some? {
          return;
        }
        PrependTwice(kids, kid, TransformChildren(argdown.Snapshot(), cs[i + 1..], load));
        kids := kids + [kid];
        i := i + 1;
      }
      assert cs[i..] == [];
      assert kids + [] == kids;
      raised := None;
    }

    /** `root`: its reason, then the children below it, then the edges to them. */
    method Root(root: MapRoot) returns (lbl: string, raised: Option<GraphError>)
      modifies argdown
      ensures Outcome(TransformRoot(old(argdown.Snapshot()), root, load), raised, lbl, argdown.Snapshot())
    {
      lbl, raised := Reason(root.reason);
      if raised.Some? {
        return;
      }
      var kids;
      kids, raised := Children(root.children);
      if raised.Some? {
        return;
      }
      raised := ProcessChildren(lbl, kids);
    }

    /** `transform(tree)`: the roots, top to bottom. */
    method Transform(roots: seq<MapRoot>) returns (raised: Option<GraphError>)
      modifies argdown
      ensures GraphOutcome(TransformMap(old(argdown.Snapshot()), roots, load), raised, argdown.Snapshot())
    {
      ghost var g0 := argdown.Snapshot();
      var i := 0;
      assert roots[i..] == roots;
      while i < |roots|
        invariant 0 <= i <= |roots|
        invariant TransformMap(g0, roots, load) == TransformMap(argdown.Snapshot(), roots[i..], load)
      {
        ghost var gs := argdown.Snapshot();
        var lbl;
        lbl, raised := Root(roots[i]);
        TransformAdvance(g0, gs, argdown.Snapshot(), roots, i, lbl, raised, load);
        if raised.Some? {
          return;
        }
        i := i + 1;
      }
      assert roots[i..] == [];
      raised := None;
    }
  }

  /** `ingest_in_argmap(tree, argdown)`: the transformer works on a copy; if it
      raises, the original object is returned, untouched; otherwise the copy is
      returned after the inference pass, whose exception (`raised`) reaches the caller. */
  method IngestInArgmap(tree: seq<MapRoot>, argdown: ArgdownMultiDiGraph, load: string -> Option<Metadata>)
    returns (result: ArgdownMultiDiGraph, raised: bool)
    ensures Ingest(argdown.Snapshot(), tree, load).Some? <==> !raised
    ensures !raised ==> result.Snapshot() == Ingest(argdown.Snapshot(), tree, load).value
    ensures TransformMap(argdown.Snapshot(), tree, load).Failure? ==> result == argdown && !raised
    ensures TransformMap(argdown.Snapshot(), tree, load).Success? ==> fresh(result)
  {
    var working := new ArgdownMultiDiGraph.Copy(argdown);
    var transformer := new ArgumentMapTreeTransformer(working, load);
    var error := transformer.Transform(tree);
    if error.Some? {
      return argdown, false;
    }
    var ok := working.Update();
    return working, !ok;
  }

  lemma ProcessChildrenStep(g: Graph, parent: string, kids: seq<(ReasonRelation, string)>, i: nat)
    requires i < |kids|
    ensures ChildEdges(g, parent, kids[i..]) ==
      match AddReasonRelation(g, parent, kids[i].0, kids[i].1)
      case Failure(e) => Failure(e)
      case Success(g') => ChildEdges(g', parent, kids[i + 1..])
  {
    assert kids[i..][0] == kids[i];
    assert kids[i..][1..] == kids[i + 1..];
  }

  lemma ChildrenStep(g: Graph, cs: seq<MapChild>, i: nat, load: string -> Option<Metadata>)
    requires i < |cs|
    ensures TransformChildren(g, cs[i..], load) ==
      match TransformChild(g, cs[i], load)
      case Failure(e) => Failure(e)
      case Success(first) => Prepend([first.1], TransformChildren(first.0, cs[i + 1..], load))
  {
    assert cs[i..][0] == cs[i];
    assert cs[i..][1..] == cs[i + 1..];
  }

  /** Helper (sequence algebra, no source counterpart): prepending nothing changes
      no result. */
  lemma PrependNothing<T>(r: Result<(Graph, seq<T>), GraphError>)
    ensures Prepend([], r) == r
  {
    if r.Success? {
      assert [] + r.value.1 == r.value.1;
    }
  }

  /** Helper (sequence algebra, no source counterpart): prepending `[x]` and then
      `acc` is prepending `acc + [x]`. */
  lemma PrependTwice<T>(acc: seq<T>, x: T, r: Result<(Graph, seq<T>), GraphError>)
    ensures Prepend(acc, Prepend([x], r)) == Prepend(acc + [x], r)
  {
    if r.Success? {
      assert acc + ([x] + r.value.1) == acc + [x] + r.value.1;
    }
  }

  /** One root of `transform`: the rest of the map after it, or the error it raises. */
  lemma TransformAdvance(g0: Graph, gs: Graph, gn: Graph, roots: seq<MapRoot>, i: nat, lbl: string,
                         raised: Option<GraphError>, load: string -> Option<Metadata>)
    requires i < |roots|
    requires TransformMap(g0, roots, load) == TransformMap(gs, roots[i..], load)
    requires Outcome(TransformRoot(gs, roots[i], load), raised, lbl, gn)
    ensures raised.None? ==> TransformMap(g0, roots, load) == TransformMap(gn, roots[i + 1..], load)
    ensures raised.Some? ==> GraphOutcome(TransformMap(g0, roots, load), raised, gn)
  {
    TransformStep(gs, roots, i, load);
  }

  lemma TransformStep(g: Graph, roots: seq<MapRoot>, i: nat, load: string -> Option<Metadata>)
    requires i < |roots|
    ensures TransformMap(g, roots[i..], load) ==
      match TransformRoot(g, roots[i], load)
      case Failure(e) => Failure(e)
      case Success(first) => TransformMap(first.0, roots[i + 1..], load)
  {
    assert roots[i..][0] == roots[i];
    assert roots[i..][1..] == roots[i + 1..];
  }

  // ------------------------------------------------- the maps of the test suite

  /** `[label]: text` */
  function Prop(l: string, text: string): Reason {
    PropositionReason(l, text)
  }

  /** [C]: Claim. / + [Pro1]: Pro1. / - [Con1]: Con1. / - [Rbt1]: Rebuttal1. (nested under Con1) */
  function ClaimFirst(): seq<MapRoot> {
    [MapRoot(Prop("C", "Claim."), [
      MapChild(LEFT_PRO, Prop("Pro1", "Pro1."), []),
      MapChild(LEFT_CON, Prop("Con1", "Con1."), [
        MapChild(LEFT_CON, Prop("Rbt1", "Rebuttal1."), [])])])]
  }

  /** [Pro1]: Pro1. / +> [C]: Claim. / - [Con1]: Con1. / - [Rbt1]: Rebuttal1., each under the one before */
  function ProFirst(): seq<MapRoot> {
    [MapRoot(Prop("Pro1", "Pro1."), [
      MapChild(RIGHT_PRO, Prop("C", "Claim."), [
        MapChild(LEFT_CON, Prop("Con1", "Con1."), [
          MapChild(LEFT_CON, Prop("Rbt1", "Rebuttal1."), [])])])])]
  }

  /** The graph both maps describe: four propositions and three AXIOMATIC edges. */
  function ClaimGraph(): Graph {
    Graph(
      map["C" := PropositionNode(["Claim."], map[]), "Pro1" := PropositionNode(["Pro1."], map[]),
          "Con1" := PropositionNode(["Con1."], map[]), "Rbt1" := PropositionNode(["Rebuttal1."], map[])],
      map[EdgeKey("Pro1", "C", SUPPORT) := EdgeData({AXIOMATIC}, map[]),
          EdgeKey("Con1", "C", ATTACK) := EdgeData({AXIOMATIC}, map[]),
          EdgeKey("Rbt1", "Con1", ATTACK) := EdgeData({AXIOMATIC}, map[])])
  }

  /** A text without a closing brace carries no data. */
  lemma PlainText(text: string, load: string -> Option<Metadata>)
    requires text != "" && text[|text| - 1] == '.' && !IsSpace(text[0])
    ensures ReasonText(text, load) == (text, map[])
  {
    assert RStrip(text) == text;
    assert !EndsWith(text, "}");
    assert LStrip(text) == text;
  }

  /** A proposition mentioned for the first time, with a plain text. */
  lemma RegisterNewProposition(g: Graph, l: string, text: string, load: string -> Option<Metadata>)
    requires l !in g.nodes && text != "" && text[|text| - 1] == '.' && !IsSpace(text[0])
    ensures RegisterReason(g, Prop(l, text), load)
      == Success((g.(nodes := g.nodes[l := PropositionNode([text], map[])]), l))
  {
    PlainText(text, load);
  }

  /** A child without children that mentions a new proposition with a plain text. */
  lemma LeafChild(g: Graph, rel: ReasonRelation, l: string, text: string, load: string -> Option<Metadata>)
    requires l !in g.nodes && text != "" && text[|text| - 1] == '.' && !IsSpace(text[0])
    ensures TransformChild(g, MapChild(rel, Prop(l, text), []), load)
      == Success((g.(nodes := g.nodes[l := PropositionNode([text], map[])]), (rel, l)))
  {
    RegisterNewProposition(g, l, text, load);
  }

  /** A new edge between two propositions is AXIOMATIC. */
  lemma AxiomaticRelation(g: Graph, parent: string, rel: ReasonRelation, child: string)
    requires IsProposition(g, parent) && IsProposition(g, child)
    requires EdgeKey(Orient(rel, parent, child).0, Orient(rel, parent, child).1, ValenceOf(rel)) !in g.edges
    ensures AddReasonRelation(g, parent, rel, child) ==
      Success(g.(edges := g.edges[EdgeKey(Orient(rel, parent, child).0, Orient(rel, parent, child).1, ValenceOf(rel))
                                  := EdgeData({AXIOMATIC}, map[])]))
  {
  }

  lemma ProcessOneChild(g: Graph, parent: string, rel: ReasonRelation, child: string)
    requires IsProposition(g, parent) && IsProposition(g, child)
    requires EdgeKey(Orient(rel, parent, child).0, Orient(rel, parent, child).1, ValenceOf(rel)) !in g.edges
    ensures ChildEdges(g, parent, [(rel, child)]) == AddReasonRelation(g, parent, rel, child)
  {
    AxiomaticRelation(g, parent, rel, child);
    assert [(rel, child)][1..] == [];
  }

  function WithProposition(g: Graph, l: string, text: string): Graph {
    g.(nodes := g.nodes[l := PropositionNode([text], map[])])
  }

  function WithAxiomatic(g: Graph, s: string, t: string, val: Valence): Graph {
    g.(edges := g.edges[EdgeKey(s, t, val) := EdgeData({AXIOMATIC}, map[])])
  }

  /** One leaf child, as the only child of a reason. */
  lemma LeafRow(g: Graph, rel: ReasonRelation, l: string, text: string, load: string -> Option<Metadata>)
    requires l !in g.nodes && text != "" && text[|text| - 1] == '.' && !IsSpace(text[0])
    ensures TransformChildren(g, [MapChild(rel, Prop(l, text), [])], load)
      == Success((WithProposition(g, l, text), [(rel, l)]))
  {
    var c := MapChild(rel, Prop(l, text), []);
    LeafChild(g, rel, l, text, load);
    var g1 := WithProposition(g, l, text);
    assert TransformChild(g, [c][0], load) == Success((g1, (rel, l)));
    assert [c][1..] == [];
    assert TransformChildren(g1, [], load) == Success((g1, []));
    assert [(rel, l)] + [] == [(rel, l)];
  }

  /** - [Con1]: Con1. with - [Rbt1]: Rebuttal1. below it, after C and Pro1. */
  lemma ConChild(g: Graph, load: string -> Option<Metadata>)
    requires "Con1" !in g.nodes && "Rbt1" !in g.nodes && g.edges == map[]
    ensures TransformChild(g, MapChild(LEFT_CON, Prop("Con1", "Con1."), [
              MapChild(LEFT_CON, Prop("Rbt1", "Rebuttal1."), [])]), load)
      == Success((WithAxiomatic(WithProposition(WithProposition(g, "Con1", "Con1."), "Rbt1", "Rebuttal1."),
                                "Rbt1", "Con1", ATTACK), (LEFT_CON, "Con1")))
  {
    var g1 := WithProposition(g, "Con1", "Con1.");
    RegisterNewProposition(g, "Con1", "Con1.", load);
    LeafRow(g1, LEFT_CON, "Rbt1", "Rebuttal1.", load);
    var g2 := WithProposition(g1, "Rbt1", "Rebuttal1.");
    assert IsProposition(g2, "Con1") && IsProposition(g2, "Rbt1");
    ProcessOneChild(g2, "Con1", LEFT_CON, "Rbt1");
  }

  /** The graph after the children of `[C]`, before its own edges. */
  function ClaimBase(): Graph {
    Graph(
      map["C" := PropositionNode(["Claim."], map[]), "Pro1" := PropositionNode(["Pro1."], map[]),
          "Con1" := PropositionNode(["Con1."], map[]), "Rbt1" := PropositionNode(["Rebuttal1."], map[])],
      map[EdgeKey("Rbt1", "Con1", ATTACK) := EdgeData({AXIOMATIC}, map[])])
  }

  lemma ClaimBaseIs(g1: Graph)
    requires g1 == WithProposition(EmptyGraph, "C", "Claim.")
    ensures WithAxiomatic(WithProposition(WithProposition(WithProposition(g1, "Pro1", "Pro1."), "Con1", "Con1."),
                                          "Rbt1", "Rebuttal1."), "Rbt1", "Con1", ATTACK) == ClaimBase()
  {
  }

  /** The two children of `[C]`: the supporter Pro1 and the attacker Con1 with its rebuttal. */
  lemma ClaimChildren(load: string -> Option<Metadata>)
    ensures TransformChildren(WithProposition(EmptyGraph, "C", "Claim."), ClaimFirst()[0].children, load)
      == Success((ClaimBase(), [(LEFT_PRO, "Pro1"), (LEFT_CON, "Con1")]))
  {
    var g1 := WithProposition(EmptyGraph, "C", "Claim.");
    var pro := MapChild(LEFT_PRO, Prop("Pro1", "Pro1."), []);
    var con := MapChild(LEFT_CON, Prop("Con1", "Con1."), [MapChild(LEFT_CON, Prop("Rbt1", "Rebuttal1."), [])]);
    assert ClaimFirst()[0].children == [pro, con];
    assert "Pro1" !in g1.nodes;
    LeafChild(g1, LEFT_PRO, "Pro1", "Pro1.", load);
    var g2 := WithProposition(g1, "Pro1", "Pro1.");
    assert "Con1" !in g2.nodes && "Rbt1" !in g2.nodes && g2.edges == map[];
    ConChild(g2, load);
    TwoChildren(g1, pro, con, load);
    ClaimBaseIs(g1);
  }

  /** A reason with two children. */
  lemma TwoChildren(g: Graph, c: MapChild, d: MapChild, load: string -> Option<Metadata>)
    requires TransformChild(g, c, load).Success?
    requires TransformChild(TransformChild(g, c, load).value.0, d, load).Success?
    ensures var first := TransformChild(g, c, load).value;
      var second := TransformChild(first.0, d, load).value;
      TransformChildren(g, [c, d], load) == Success((second.0, [first.1, second.1]))
  {
    var first := TransformChild(g, c, load).value;
    SingleChild(first.0, d, load);
    assert [c, d][1..] == [d];
    assert [first.1] + [TransformChild(first.0, d, load).value.1] == [first.1, TransformChild(first.0, d, load).value.1];
  }

  /** A reason with one child. */
  lemma SingleChild(g: Graph, c: MapChild, load: string -> Option<Metadata>)
    requires TransformChild(g, c, load).Success?
    ensures TransformChildren(g, [c], load)
      == Success((TransformChild(g, c, load).value.0, [TransformChild(g, c, load).value.1]))
  {
    var first := TransformChild(g, c, load).value;
    assert [c][1..] == [];
    assert TransformChildren(first.0, [], load) == Success((first.0, []));
    assert [first.1] + [] == [first.1];
  }

  /** The edges from `[C]` to its two children. */
  lemma ClaimEdges()
    ensures ChildEdges(ClaimBase(), "C", [(LEFT_PRO, "Pro1"), (LEFT_CON, "Con1")]) == Success(ClaimGraph())
  {
    var g3 := ClaimBase();
    AxiomaticRelation(g3, "C", LEFT_PRO, "Pro1");
    var g4 := WithAxiomatic(g3, "Pro1", "C", SUPPORT);
    ProcessOneChild(g4, "C", LEFT_CON, "Con1");
    assert [(LEFT_PRO, "Pro1"), (LEFT_CON, "Con1")][1..] == [(LEFT_CON, "Con1")];
    assert WithAxiomatic(g4, "Con1", "C", ATTACK) == ClaimGraph();
  }

  /** The root `[C]` after its subtrees. */
  lemma ClaimRoot(load: string -> Option<Metadata>)
    ensures TransformRoot(EmptyGraph, ClaimFirst()[0], load) == Success((ClaimGraph(), "C"))
  {
    RegisterNewProposition(EmptyGraph, "C", "Claim.", load);
    ClaimChildren(load);
    ClaimEdges();
    RootSteps(EmptyGraph, ClaimFirst()[0], load);
  }

  /** The root callback, step by step. */
  lemma RootSteps(g: Graph, root: MapRoot, load: string -> Option<Metadata>)
    requires RegisterReason(g, root.reason, load).Success?
    requires var reg := RegisterReason(g, root.reason, load).value;
      TransformChildren(reg.0, root.children, load).Success?
    ensures var reg := RegisterReason(g, root.reason, load).value;
      var sub := TransformChildren(reg.0, root.children, load).value;
      TransformRoot(g, root, load) == (match ChildEdges(sub.0, reg.1, sub.1)
                                       case Success(g') => Success((g', reg.1))
                                       case Failure(e) => Failure(e))
  {
  }

  /** The map of `test_ingest1` builds four propositions and three AXIOMATIC edges:
      Pro1 supports C, Con1 attacks C, Rbt1 attacks Con1. */
  lemma ClaimFirstGraph(load: string -> Option<Metadata>)
    ensures TransformMap(EmptyGraph, ClaimFirst(), load) == Success(ClaimGraph())
  {
    ClaimRoot(load);
    OneRoot(EmptyGraph, ClaimFirst()[0], load);
  }

  /** The graph after the children of `[C]` in the map that starts from Pro1. */
  function ProBase(): Graph {
    Graph(
      map["Pro1" := PropositionNode(["Pro1."], map[]), "C" := PropositionNode(["Claim."], map[]),
          "Con1" := PropositionNode(["Con1."], map[]), "Rbt1" := PropositionNode(["Rebuttal1."], map[])],
      map[EdgeKey("Rbt1", "Con1", ATTACK) := EdgeData({AXIOMATIC}, map[]),
          EdgeKey("Con1", "C", ATTACK) := EdgeData({AXIOMATIC}, map[])])
  }

  /** The children of `+> [C]`: Con1 with its rebuttal. */
  lemma ProClaimChildren(load: string -> Option<Metadata>)
    ensures TransformChildren(WithProposition(WithProposition(EmptyGraph, "Pro1", "Pro1."), "C", "Claim."),
                              ProFirst()[0].children[0].children, load)
      == Success((WithAxiomatic(WithProposition(WithProposition(
                    WithProposition(WithProposition(EmptyGraph, "Pro1", "Pro1."), "C", "Claim."),
                    "Con1", "Con1."), "Rbt1", "Rebuttal1."), "Rbt1", "Con1", ATTACK),
                  [(LEFT_CON, "Con1")]))
  {
    var g1 := WithProposition(WithProposition(EmptyGraph, "Pro1", "Pro1."), "C", "Claim.");
    ConChild(g1, load);
    SingleChild(g1, ProFirst()[0].children[0].children[0], load);
  }

  /** The child `+> [C]` after its own subtree. */
  lemma ProClaimChild(load: string -> Option<Metadata>)
    ensures TransformChild(WithProposition(EmptyGraph, "Pro1", "Pro1."), ProFirst()[0].children[0], load)
      == Success((ProBase(), (RIGHT_PRO, "C")))
  {
    var g0 := WithProposition(EmptyGraph, "Pro1", "Pro1.");
    var g1 := WithProposition(g0, "C", "Claim.");
    RegisterNewProposition(g0, "C", "Claim.", load);
    ProClaimChildren(load);
    ProClaimEdge();
    ChildSteps(g0, ProFirst()[0].children[0], load);
  }

  /** The edge from `[C]` to `- [Con1]` runs from Con1 to C. */
  lemma ProClaimEdge()
    ensures ChildEdges(WithAxiomatic(WithProposition(WithProposition(
                              WithProposition(WithProposition(EmptyGraph, "Pro1", "Pro1."), "C", "Claim."),
                              "Con1", "Con1."), "Rbt1", "Rebuttal1."), "Rbt1", "Con1", ATTACK),
                            "C", [(LEFT_CON, "Con1")]) == Success(ProBase())
  {
    var g2 := WithAxiomatic(WithProposition(WithProposition(
                WithProposition(WithProposition(EmptyGraph, "Pro1", "Pro1."), "C", "Claim."),
                "Con1", "Con1."), "Rbt1", "Rebuttal1."), "Rbt1", "Con1", ATTACK);
    ProcessOneChild(g2, "C", LEFT_CON, "Con1");
    assert WithAxiomatic(g2, "Con1", "C", ATTACK) == ProBase();
  }

  /** The child callback, step by step. */
  lemma ChildSteps(g: Graph, c: MapChild, load: string -> Option<Metadata>)
    requires RegisterReason(g, c.reason, load).Success?
    requires var reg := RegisterReason(g, c.reason, load).value;
      TransformChildren(reg.0, c.children, load).Success?
    ensures var reg := RegisterReason(g, c.reason, load).value;
      var sub := TransformChildren(reg.0, c.children, load).value;
      TransformChild(g, c, load) == (match ChildEdges(sub.0, reg.1, sub.1)
                                     case Success(g') => Success((g', (c.relation, reg.1)))
                                     case Failure(e) => Failure(e))
  {
  }

  /** The root `[Pro1]` after its subtree. */
  lemma ProRoot(load: string -> Option<Metadata>)
    ensures TransformRoot(EmptyGraph, ProFirst()[0], load) == Success((ClaimGraph(), "Pro1"))
  {
    var g0 := WithProposition(EmptyGraph, "Pro1", "Pro1.");
    RegisterNewProposition(EmptyGraph, "Pro1", "Pro1.", load);
    ProClaimChild(load);
    SingleChild(g0, ProFirst()[0].children[0], load);
    ProRootEdge();
    RootSteps(EmptyGraph, ProFirst()[0], load);
  }

  /** The edge from `[Pro1]` to `+> [C]` runs from Pro1 to C. */
  lemma ProRootEdge()
    ensures ChildEdges(ProBase(), "Pro1", [(RIGHT_PRO, "C")]) == Success(ClaimGraph())
  {
    ProcessOneChild(ProBase(), "Pro1", RIGHT_PRO, "C");
    assert WithAxiomatic(ProBase(), "Pro1", "C", SUPPORT) == ClaimGraph();
  }

  /** The map of `test_equiv12`, `[Pro1]` with `+> [C]` below it, builds the
      same graph as the map of `test_ingest1`. */
  lemma ProFirstGraph(load: string -> Option<Metadata>)
    ensures TransformMap(EmptyGraph, ProFirst(), load) == Success(ClaimGraph())
    ensures TransformMap(EmptyGraph, ProFirst(), load) == TransformMap(EmptyGraph, ClaimFirst(), load)
  {
    ProRoot(load);
    OneRoot(EmptyGraph, ProFirst()[0], load);
    ClaimFirstGraph(load);
  }

  /** Ingesting a map whose transform yields only propositions returns exactly that graph. */
  lemma IngestPropositionsOnly(g: Graph, roots: seq<MapRoot>, load: string -> Option<Metadata>, h: Graph)
    requires TransformMap(g, roots, load) == Success(h) && OnlyPropositions(h)
    ensures Ingest(g, roots, load) == Some(h)
  {
    PropositionsOnlyUnchanged(h);
  }

  /** Ingesting the map of `test_ingest1` into an empty graph gives the graph of
      the map: it holds only propositions, so the inference pass leaves it alone. */
  lemma IngestClaimFirst(load: string -> Option<Metadata>)
    ensures Ingest(EmptyGraph, ClaimFirst(), load) == Some(ClaimGraph())
  {
    ClaimFirstGraph(load);
    ClaimGraphPropositionsOnly();
    IngestPropositionsOnly(EmptyGraph, ClaimFirst(), load, ClaimGraph());
  }

  /** The same for the map of `test_equiv12`. */
  lemma IngestProFirst(load: string -> Option<Metadata>)
    ensures Ingest(EmptyGraph, ProFirst(), load) == Some(ClaimGraph())
  {
    ProFirstGraph(load);
    ClaimGraphPropositionsOnly();
    IngestPropositionsOnly(EmptyGraph, ProFirst(), load, ClaimGraph());
  }

  lemma ClaimGraphPropositionsOnly()
    ensures OnlyPropositions(ClaimGraph())
  {
  }

  /** A map of one root. */
  lemma OneRoot(g: Graph, root: MapRoot, load: string -> Option<Metadata>)
    requires TransformRoot(g, root, load).Success?
    ensures TransformMap(g, [root], load) == Success(TransformRoot(g, root, load).value.0)
  {
    var first := TransformRoot(g, root, load).value;
    assert [root][1..] == [];
    assert TransformMap(first.0, [], load) == Success(first.0);
  }
}
