/** The argument transformer (`ArgumentTreeTransformer`) and
    `ArgumentParser.ingest_in_argmap`.

    An argument block parses into an optional head `<label>: gist` and a body:
    premises `(1) ...`, conclusions below an inference line `(n) ...`, and reasons
    embedded under a PCS entry.  lark runs the callbacks bottom-up, left to right:
    first the head (which records the argument's label), then every body item,
    which registers its proposition or its reason in the graph; then
    `argument_body` collects the PCS and draws the embedded reasons' edges to the
    entry before them; and `start` adds the argument itself.  Statements without a
    proposition label get a label made of the argument's label, the kind of entry
    and its PCS label. */
module ArgumentParser {
  import opened Wrappers
  import opened Strings
  import opened Model
  import opened Base
  import opened Inference
  import opened MultiDiGraph
  import opened ArgumentMapParser

  const UnnamedPremise := "UNNAMED_PREMISE_"
  const UnnamedConclusion := "UNNAMED_CONCLUSION_"

  /** `argument_head: <label> [: text]`, the label without its brackets and `""`
      for a missing text. */
  datatype Head = Head(argLabel: string, text: string)

  /** One line of the body; labels come without their brackets or parentheses, and
      `""` stands for a missing text.  `inference` is the `INFERENCE_INFO` token of
      a conclusion (`-- info --` with its line breaks), `None` under a plain rule. */
  datatype BodyItem =
    | PremiseItem(pcsLabel: string, propLabel: Option<string>, text: string)
    | ConclusionItem(inference: Option<string>, pcsLabel: string, propLabel: Option<string>, text: string)
    | ReasonItem(relation: ReasonRelation, reason: Reason)

  /** `start: [argument_head] argument_body` */
  datatype ArgumentTree = ArgumentTree(head: Option<Head>, body: seq<BodyItem>)

  /** The dictionary `argument_head` returns. */
  datatype HeadInfo = HeadInfo(argLabel: string, text: string, data: Metadata)

  /** The edge `reason` returns.  One of its ends is the placeholder that
      `argument_body` replaces by the PCS entry before the reason: the reason's
      own label is the source when `reasonIsSource`, the target otherwise. */
  datatype PendingEdge = PendingEdge(reasonLabel: string, reasonIsSource: bool, valence: Valence, dialectic: DialecticalType)

  /** What a body callback hands to `argument_body`. */
  datatype Item = EntryItem(entry: PropositionReference) | EdgeItem(edge: PendingEdge)

  /** The exceptions of the transformer: those of the graph, and the assertion that
      an embedded reason follows some PCS entry. */
  datatype TransformError = GraphFailure(cause: GraphError) | NoPrecedingEntry

  function Lift<T>(r: Result<T, GraphError>): (l: Result<T, TransformError>)
    ensures l.Success? <==> r.Success?
    ensures l.Success? ==> l.value == r.value
    ensures r.Failure? ==> l == Failure(GraphFailure(r.error))
  {
    match r
    case Success(v) => Success(v)
    case Failure(e) => Failure(GraphFailure(e))
  }

  // ------------------------------------------------------------------ the head

  /** `argument_head`: the label, and the gist and the data split off the text. */
  function HeadInfoOf(h: Head, load: string -> Option<Metadata>): (r: HeadInfo)
    ensures r.argLabel == h.argLabel
    ensures h.text == "" ==> r.text == "" && r.data == map[]
    ensures (forall j :: !LoadsAt(h.text, load, j)) ==> r.text == Strip(h.text) && r.data == map[]
  {
    var (t, yaml) := ReasonText(h.text, load);
    HeadInfo(h.argLabel, t, yaml)
  }

  // ------------------------------------------------------ premises, conclusions

  /** The label an unnamed premise or conclusion asks for: `UNNAMED_PREMISE_<n>` or
      `UNNAMED_CONCLUSION_<n>`, after the argument's label with its blanks turned
      into underscores. */
  function SynthesizedLabel(current: Option<string>, kind: string, pcsLabel: string): (r: string)
    ensures EndsWith(r, kind + pcsLabel)
    ensures current.None? ==> r == kind + pcsLabel
    ensures current.Some? ==>
      StartsWith(r, ReplaceChar(current.value, ' ', '_')) && ' ' !in r[..|current.value|]
    ensures current.Some? ==>
      |r| == |current.value| + 1 + |kind| + |pcsLabel| && r[|current.value|] == '_'
  {
    match current
    case None => kind + pcsLabel
    case Some(c) =>
      var prefix := ReplaceChar(c, ' ', '_') + "_";
      assert (prefix + kind + pcsLabel)[..|c|] == ReplaceChar(c, ' ', '_');
      assert (prefix + kind + pcsLabel)[|prefix|..] == kind + pcsLabel;
      prefix + kind + pcsLabel
  }

  /** The label of a PCS statement: its `[label]`, or a synthesized one made unique. */
  function EntryLabel(g: Graph, current: Option<string>, kind: string, pcsLabel: string, propLabel: Option<string>): (r: string)
    ensures propLabel.Some? ==> r == propLabel.value
    ensures propLabel.None? ==> r !in g.nodes && StartsWith(r, SynthesizedLabel(current, kind, pcsLabel))
  {
    match propLabel
    case Some(l) => l
    case None =>
      SuffixedStartsWith(g.nodes.Keys, SynthesizedLabel(current, kind, pcsLabel));
      UniqueLabel(g.nodes.Keys, SynthesizedLabel(current, kind, pcsLabel))
  }

  /** The texts and the data of a PCS statement: the YAML mapping split off, the
      rest kept as it is (not stripped). */
  function EntryText(text: string, load: string -> Option<Metadata>): (r: (seq<string>, Metadata))
    ensures |r.0| <= 1
    ensures text == "" ==> r == ([], map[])
    ensures (forall j :: !LoadsAt(text, load, j)) ==> r == (TextList(text), map[])
  {
    if text == "" then ([], map[])
    else
      var extracted := ExtractedYaml(text, load);
      (TextList(extracted.0), extracted.1)
  }

  /** A PCS statement enters the graph: `add_proposition` with `allow_exists=False`
      when there is no proposition under its label, `update_proposition` otherwise. */
  function RegisterEntry(g: Graph, l: string, text: string, load: string -> Option<Metadata>): (r: Result<Graph, GraphError>)
    ensures IsArgument(g, l) ==> r == Failure(LabelExists(l))
    ensures l !in g.nodes ==>
      r.Success? && OnlyNodeChanged(g, r.value, l)
      && GetProposition(r.value, l) == Some(Proposition(l, EntryText(text, load).0, EntryText(text, load).1))
    ensures IsProposition(g, l) ==>
      r.Success? && OnlyNodeChanged(g, r.value, l)
      && MergedProposition(g.nodes[l], Proposition(l, EntryText(text, load).0, EntryText(text, load).1), r.value.nodes[l])
    ensures r.Success? ==> KindsPreserved(g, r.value) && IsProposition(r.value, l)
  {
    var (texts, yaml) := EntryText(text, load);
    var p := Proposition(l, texts, yaml);
    if GetProposition(g, l).None? then AddProposition(g, p, false) else UpdateProposition(g, l, p)
  }

  /** `s[2:-2]` */
  function PyInner(s: string): (r: string)
    ensures |s| >= 4 ==> r == s[2..|s| - 2]
    ensures |s| < 4 ==> r == ""
  {
    if |s| >= 4 then s[2..|s| - 2] else ""
  }

  /** The inference information of a conclusion: the token stripped of line breaks
      and blanks, its two dashes at either end cut off and the rest stripped, then
      its YAML mapping split off; nothing left, or a plain rule, gives `(None, {})`. */
  function InferenceInfo(token: Option<string>, load: string -> Option<Metadata>): (r: (Option<string>, Metadata))
    ensures token.None? ==> r == (None, map[])
    ensures r.0.None? ==> r.1 == map[]
  {
    match token
    case None => (None, map[])
    case Some(tok) =>
      var info := Strip(PyInner(StripChars(tok, {'\n', ' '})));
      if info == "" then (None, map[])
      else
        var extracted := ExtractedYaml(info, load);
        (Some(extracted.0), extracted.1)
  }

  /** The `premise` callback. */
  function TransformPremise(g: Graph, current: Option<string>, pcsLabel: string, propLabel: Option<string>,
                            text: string, load: string -> Option<Metadata>): (r: Result<(Graph, PropositionReference), GraphError>)
    ensures var l := EntryLabel(g, current, UnnamedPremise, pcsLabel, propLabel);
      && (r.Success? <==> !IsArgument(g, l))
      && (r.Success? ==> r.value.1 == Reference(l, pcsLabel) && IsProposition(r.value.0, l))
    ensures r.Success? ==> KindsPreserved(g, r.value.0) && r.value.0.edges == g.edges
  {
    var l := EntryLabel(g, current, UnnamedPremise, pcsLabel, propLabel);
    match RegisterEntry(g, l, text, load)
    case Failure(e) => Failure(e)
    case Success(g') => Success((g', Reference(l, pcsLabel)))
  }

  /** The `conclusion` callback. */
  function TransformConclusion(g: Graph, current: Option<string>, inference: Option<string>, pcsLabel: string,
                               propLabel: Option<string>, text: string, load: string -> Option<Metadata>)
    : (r: Result<(Graph, PropositionReference), GraphError>)
    ensures var l := EntryLabel(g, current, UnnamedConclusion, pcsLabel, propLabel);
      && (r.Success? <==> !IsArgument(g, l))
      && (r.Success? ==>
            && r.value.1 == Conclusion(l, pcsLabel, InferenceInfo(inference, load).0, InferenceInfo(inference, load).1)
            && IsProposition(r.value.0, l))
    ensures r.Success? ==> KindsPreserved(g, r.value.0) && r.value.0.edges == g.edges
  {
    var l := EntryLabel(g, current, UnnamedConclusion, pcsLabel, propLabel);
    var (info, infoData) := InferenceInfo(inference, load);
    match RegisterEntry(g, l, text, load)
    case Failure(e) => Failure(e)
    case Success(g') => Success((g', Conclusion(l, pcsLabel, info, infoData)))
  }

  // ---------------------------------------------------------- embedded reasons

  /** The `reason` callback: the reason is registered exactly as in a map, and the
      edge to the PCS entry before it is left pending; it is axiomatic exactly when
      the reason is a `[proposition]`. */
  function TransformReason(g: Graph, rel: ReasonRelation, reason: Reason, load: string -> Option<Metadata>)
    : (r: Result<(Graph, PendingEdge), GraphError>)
    ensures r.Success? <==> RegisterReason(g, reason, load).Success?
    ensures r.Success? ==>
      && r.value.0 == RegisterReason(g, reason, load).value.0
      && r.value.1.reasonLabel == RegisterReason(g, reason, load).value.1
      && r.value.1.reasonIsSource == ChildIsSource(rel)
      && r.value.1.valence == ValenceOf(rel)
      && (r.value.1.dialectic == AXIOMATIC <==> reason.PropositionReason?)
      && (r.value.1.dialectic != AXIOMATIC ==> r.value.1.dialectic == SKETCHED)
  {
    match RegisterReason(g, reason, load)
    case Failure(e) => Failure(e)
    case Success(reg) =>
      var dialectic := if reason.PropositionReason? then AXIOMATIC else SKETCHED;
      Success((reg.0, PendingEdge(reg.1, ChildIsSource(rel), ValenceOf(rel), dialectic)))
  }

  /** The PCS entry `e` stands for the statement `line`: same PCS label, a
      conclusion exactly for a conclusion, its `[label]` when it has one, and
      otherwise a label that begins with the argument's label, blanks turned
      into underscores. */
  predicate EntryMatches(current: Option<string>, line: BodyItem, e: PropositionReference)
    requires !line.ReasonItem?
  {
    && e.pcsLabel == line.pcsLabel
    && (e.Conclusion? <==> line.ConclusionItem?)
    && (line.propLabel.Some? ==> e.propositionLabel == line.propLabel.value)
    && (line.propLabel.None? && current.Some? ==> StartsWith(e.propositionLabel, ReplaceChar(current.value, ' ', '_')))
  }

  /** What a callback hands on for a body item: an entry for a statement, a
      pending edge for a reason. */
  predicate Matches(current: Option<string>, it: BodyItem, x: Item) {
    && (it.ReasonItem? <==> x.EdgeItem?)
    && (x.EntryItem? && !it.ReasonItem? ==> EntryMatches(current, it, x.entry))
  }

  lemma StartsWithTrans(s: string, t: string, u: string)
    requires StartsWith(s, t) && StartsWith(t, u)
    ensures StartsWith(s, u)
  {
    assert s[..|u|] == s[..|t|][..|u|];
  }

  /** An unnamed statement's label begins with the argument's label. */
  lemma EntryLabelPrefix(g: Graph, current: Option<string>, kind: string, pcsLabel: string)
    ensures current.Some? ==>
      StartsWith(EntryLabel(g, current, kind, pcsLabel, None), ReplaceChar(current.value, ' ', '_'))
  {
    if current.Some? {
      StartsWithTrans(EntryLabel(g, current, kind, pcsLabel, None), SynthesizedLabel(current, kind, pcsLabel),
                      ReplaceChar(current.value, ' ', '_'));
    }
  }

  /** The callback lark runs on one body item. */
  function TransformItem(g: Graph, current: Option<string>, it: BodyItem, load: string -> Option<Metadata>)
    : (r: Result<(Graph, Item), GraphError>)
    ensures r.Success? ==> KindsPreserved(g, r.value.0) && r.value.0.edges == g.edges
    ensures r.Success? ==> Matches(current, it, r.value.1)
    ensures r.Success? && r.value.1.EntryItem? ==> IsProposition(r.value.0, r.value.1.entry.propositionLabel)
    ensures r.Success? && r.value.1.EdgeItem? ==> r.value.1.edge.reasonLabel in r.value.0.nodes
  {
    match it
    case PremiseItem(pcsLabel, propLabel, text) =>
      EntryLabelPrefix(g, current, UnnamedPremise, pcsLabel);
      (match TransformPremise(g, current, pcsLabel, propLabel, text, load)
       case Failure(e) => Failure(e)
       case Success(p) => Success((p.0, EntryItem(p.1))))
    case ConclusionItem(inference, pcsLabel, propLabel, text) =>
      EntryLabelPrefix(g, current, UnnamedConclusion, pcsLabel);
      (match TransformConclusion(g, current, inference, pcsLabel, propLabel, text, load)
       case Failure(e) => Failure(e)
       case Success(p) => Success((p.0, EntryItem(p.1))))
    case ReasonItem(rel, reason) =>
      match TransformReason(g, rel, reason, load)
      case Failure(e) => Failure(e)
      case Success(p) => Success((p.0, EdgeItem(p.1)))
  }

  /** The items `out` answer the body lines `items` one by one, and the entries and
      reasons they name are in `g`. */
  predicate ItemsFit(g: Graph, current: Option<string>, items: seq<BodyItem>, out: seq<Item>) {
    && |out| == |items|
    && (forall i :: 0 <= i < |items| ==> Matches(current, items[i], out[i]))
    && (forall i :: 0 <= i < |items| && out[i].EntryItem? ==> IsProposition(g, out[i].entry.propositionLabel))
    && (forall i :: 0 <= i < |items| && out[i].EdgeItem? ==> out[i].edge.reasonLabel in g.nodes)
  }

  /** One more item in front of items that fit. */
  lemma ItemsFitCons(g1: Graph, g2: Graph, current: Option<string>, items: seq<BodyItem>, first: Item, rest: seq<Item>)
    requires |items| > 0 && KindsPreserved(g1, g2)
    requires Matches(current, items[0], first)
    requires first.EntryItem? ==> IsProposition(g1, first.entry.propositionLabel)
    requires first.EdgeItem? ==> first.edge.reasonLabel in g1.nodes
    requires ItemsFit(g2, current, items[1..], rest)
    ensures ItemsFit(g2, current, items, [first] + rest)
  {
    var out := [first] + rest;
    forall i | 0 <= i < |items|
      ensures Matches(current, items[i], out[i])
      ensures out[i].EntryItem? ==> IsProposition(g2, out[i].entry.propositionLabel)
      ensures out[i].EdgeItem? ==> out[i].edge.reasonLabel in g2.nodes
    {
      if i > 0 {
        assert out[i] == rest[i - 1] && items[i] == items[1..][i - 1];
      }
    }
  }

  /** The body items, in order. */
  function TransformItems(g: Graph, current: Option<string>, items: seq<BodyItem>, load: string -> Option<Metadata>)
    : (r: Result<(Graph, seq<Item>), GraphError>)
    ensures r.Success? ==> KindsPreserved(g, r.value.0) && r.value.0.edges == g.edges
    ensures r.Success? ==> ItemsFit(r.value.0, current, items, r.value.1)
    decreases |items|
  {
    if |items| == 0 then Success((g, []))
    else
      match TransformItem(g, current, items[0], load)
      case Failure(e) => Failure(e)
      case Success(first) =>
        match TransformItems(first.0, current, items[1..], load)
        case Failure(e) => Failure(e)
        case Success(rest) =>
          KindsPreservedTrans(g, first.0, rest.0);
          ItemsFitCons(first.0, rest.0, current, items, first.1, rest.1);
          Success((rest.0, [first.1] + rest.1))
  }

  // ------------------------------------------------------------ argument_body

  /** The PCS entries among the items, in order. */
  function Entries(items: seq<Item>): (r: seq<PropositionReference>)
    ensures |r| <= |items|
  {
    if |items| == 0 then []
    else if items[0].EntryItem? then [items[0].entry] + Entries(items[1..])
    else Entries(items[1..])
  }

  /** The edge of an embedded reason once its placeholder is the label `entry`. */
  function Resolve(e: PendingEdge, entry: string): ArgdownEdge {
    if e.reasonIsSource then ArgdownEdge(e.reasonLabel, entry, e.valence, {e.dialectic}, map[])
    else ArgdownEdge(entry, e.reasonLabel, e.valence, {e.dialectic}, map[])
  }

  /** Every edge of `g` is still in `g'`, with at least its dialectics. */
  predicate EdgesGrow(g: Graph, g': Graph) {
    forall k :: k in g.edges ==> k in g'.edges && g.edges[k].dialectics <= g'.edges[k].dialectics
  }

  /** `argument_body`, from the PCS `pcs` collected so far: entries are appended to
      the PCS, and each embedded reason's edge is drawn to the last entry before it
      (`add_dialectical_relation` with `allow_exists=True`). */
  function ResolveBody(g: Graph, items: seq<Item>, pcs: seq<PropositionReference>)
    : (r: Result<(Graph, seq<PropositionReference>), TransformError>)
    ensures r.Success? ==> r.value.1 == pcs + Entries(items)
    ensures r.Success? ==> r.value.0.nodes == g.nodes && EdgesGrow(g, r.value.0)
    ensures pcs == [] && |items| > 0 && items[0].EdgeItem? ==> r == Failure(NoPrecedingEntry)
    decreases |items|
  {
    if |items| == 0 then
      assert pcs + [] == pcs;
      Success((g, pcs))
    else
      match items[0]
      case EntryItem(e) =>
        assert pcs + Entries(items) == (pcs + [e]) + Entries(items[1..]);
        ResolveBody(g, items[1..], pcs + [e])
      case EdgeItem(pe) =>
        if |pcs| == 0 then Failure(NoPrecedingEntry)
        else
          match AddDialecticalRelation(g, Resolve(pe, pcs[|pcs| - 1].propositionLabel), true)
          case Failure(err) => Failure(GraphFailure(err))
          case Success(g') => ResolveBody(g', items[1..], pcs)
  }

  // ---------------------------------------------------------------------- start

  /** The argument `start` builds: the head's label, gist and data, or without a
      head a fresh `UNNAMED_ARGUMENT` label, no gist and no data. */
  function StartArgument(g: Graph, head: Option<HeadInfo>, pcs: seq<PropositionReference>): (a: Argument)
    ensures a.pcs == pcs
    ensures head.None? ==> a.nodeLabel !in g.nodes && IsUnlabeled(a.nodeLabel) && a.gists == [] && a.data == map[]
    ensures head.Some? ==> a.nodeLabel == head.value.argLabel && a.data == head.value.data
    ensures head.Some? ==> (a.gists == [head.value.text] <==> head.value.text != "")
    ensures head.Some? ==> (a.gists == [] <==> head.value.text == "")
  {
    match head
    case None =>
      UniqueUnnamedIsUnlabeled(g.nodes.Keys);
      Argument(UniqueLabel(g.nodes.Keys, UnnamedArgument), [], map[], pcs)
    case Some(h) => Argument(h.argLabel, TextList(h.text), h.data, pcs)
  }

  /** `start`: `add_argument` of that argument with `allow_exists=True`. */
  function Started(g: Graph, head: Option<HeadInfo>, pcs: seq<PropositionReference>): (r: Result<(Graph, Argument), GraphError>)
    ensures r.Success? ==> r.value.1 == StartArgument(g, head, pcs)
    ensures r.Success? ==> KindsPreserved(g, r.value.0) && r.value.0.edges == g.edges
    ensures |pcs| > 0 && !HasLegalPcs(pcs).0 ==> r == Success((g, StartArgument(g, head, pcs)))
    ensures HasLegalPcs(pcs).0 && (forall i :: 0 <= i < |pcs| ==> IsProposition(g, pcs[i].propositionLabel)) ==>
      var l := StartArgument(g, head, pcs).nodeLabel;
      && (r.Success? <==> !IsProposition(g, l))
      && (r.Success? ==> IsArgument(r.value.0, l) && r.value.0.nodes[l].pcs == pcs)
  {
    var a := StartArgument(g, head, pcs);
    match AddArgument(g, a, true, true)
    case Failure(e) => Failure(e)
    case Success(g') => Success((g', a))
  }

  /** `transform(tree)`: the head, the body items, `argument_body` and `start`.
      `current` is the argument label the transformer tracked before; a head
      replaces it. */
  function TransformTree(g: Graph, current: Option<string>, tree: ArgumentTree, load: string -> Option<Metadata>)
    : (r: Result<(Graph, Argument), TransformError>)
    ensures r.Success? ==> KindsPreserved(g, r.value.0)
  {
    var head := match tree.head case None => None case Some(h) => Some(HeadInfoOf(h, load));
    var tracked := match tree.head case None => current case Some(h) => Some(h.argLabel);
    match TransformItems(g, tracked, tree.body, load)
    case Failure(e) => Failure(GraphFailure(e))
    case Success(items) =>
      match ResolveBody(items.0, items.1, [])
      case Failure(e) => Failure(e)
      case Success(body) =>
        assert KindsPreserved(items.0, body.0);
        match Started(body.0, head, body.1)
        case Failure(e) => Failure(GraphFailure(e))
        case Success(s) =>
          KindsPreservedTrans(g, items.0, body.0);
          KindsPreservedTrans(g, body.0, s.0);
          Success(s)
  }

  /** `ingest_in_argmap(tree, argdown)` with a fresh transformer: `None` when the
      inference pass raises. */
  function Ingest(g: Graph, tree: ArgumentTree, load: string -> Option<Metadata>): Option<Graph> {
    match TransformTree(g, None, tree, load)
    case Failure(_) => Some(g)
    case Success(t) => if Raises(t.0) then None else Some(Updated(t.0))
  }

  // ------------------------------------------------------ the transformer class

  /** The same as `Outcome`, for the errors of the transformer. */
  predicate TreeOutcome<T(==)>(r: Result<(Graph, T), TransformError>, raised: Option<TransformError>, value: T, after: Graph) {
    match r
    case Success(p) => raised.None? && after == p.0 && value == p.1
    case Failure(e) => raised == Some(e)
  }

  /** `ArgumentTreeTransformer`: lark calls `argument_head`, the body callbacks,
      `argument_body` and `start` in this order; `currentArgumentLabel` is the label
      the head recorded for the unnamed statements after it. */
  class ArgumentTreeTransformer {
    const argdown: ArgdownMultiDiGraph
    /** `yaml.safe_load`, as far as `extract_yaml` needs it. */
    const load: string -> Option<Metadata>
    var currentArgumentLabel: Option<string>

    constructor (argdown: ArgdownMultiDiGraph, load: string -> Option<Metadata>)
      ensures this.argdown == argdown && this.load == load && currentArgumentLabel == None
    {
      this.argdown := argdown;
      this.load := load;
      currentArgumentLabel := None;
    }

    /** `argument_head`: records the label for the statements that follow. */
    method ArgumentHead(h: Head) returns (info: HeadInfo)
      modifies this
      ensures info == HeadInfoOf(h, load)
      ensures currentArgumentLabel == Some(h.argLabel)
    {
      var text, yaml := "", map[];
      if h.text != "" {
        text, yaml := ExtractYaml(h.text, load);
      }
      text := Strip(text);
      currentArgumentLabel := Some(h.argLabel);
      info := HeadInfo(h.argLabel, text, yaml);
    }

    /** The label of a statement: its `[label]`, or a generated one made unique. */
    method StatementLabel(kind: string, pcsLabel: string, propLabel: Option<string>) returns (l: string)
      ensures l == EntryLabel(argdown.Snapshot(), currentArgumentLabel, kind, pcsLabel, propLabel)
    {
      if propLabel.Some? {
        return propLabel.value;
      }
      var wanted := kind + pcsLabel;
      if currentArgumentLabel.Some? {
        var prefix := ReplaceChar(currentArgumentLabel.value, ' ', '_') + "_";
        assert prefix + wanted == prefix + kind + pcsLabel;
        wanted := prefix + wanted;
      }
      l := argdown.MakeLabelUnique(wanted);
    }

    /** Adds the statement under `l`, or merges it into the proposition there. */
    method Statement(l: string, text: string) returns (raised: Option<GraphError>)
      modifies argdown
      ensures Committed(old(argdown.Snapshot()), RegisterEntry(old(argdown.Snapshot()), l, text, load), raised, argdown.Snapshot())
    {
      var texts, yaml := [], map[];
      if text != "" {
        var t;
        t, yaml := ExtractYaml(text, load);
        texts := TextList(t);
      }
      var p := Proposition(l, texts, yaml);
      if GetProposition(argdown.Snapshot(), l).None? {
        raised := argdown.AddProposition(p, false);
      } else {
        raised := argdown.UpdateProposition(l, p);
      }
    }

    /** `premise` */
    method Premise(pcsLabel: string, propLabel: Option<string>, text: string) returns (ref: PropositionReference, raised: Option<GraphError>)
      modifies argdown
      ensures Outcome(TransformPremise(old(argdown.Snapshot()), currentArgumentLabel, pcsLabel, propLabel, text, load),
                      raised, ref, argdown.Snapshot())
    {
      var l := StatementLabel(UnnamedPremise, pcsLabel, propLabel);
      raised := Statement(l, text);
      ref := Reference(l, pcsLabel);
    }

    /** `conclusion` */
    method Conclusion(inference: Option<string>, pcsLabel: string, propLabel: Option<string>, text: string)
      returns (ref: PropositionReference, raised: Option<GraphError>)
      modifies argdown
      ensures Outcome(TransformConclusion(old(argdown.Snapshot()), currentArgumentLabel, inference, pcsLabel, propLabel, text, load),
                      raised, ref, argdown.Snapshot())
    {
      var l := StatementLabel(UnnamedConclusion, pcsLabel, propLabel);
      var info: Option<string>, infoData: Metadata := None, map[];
      if inference.Some? {
        var stripped := Strip(PyInner(StripChars(inference.value, {'\n', ' '})));
        if stripped != "" {
          var t;
          t, infoData := ExtractYaml(stripped, load);
          info := Some(t);
        }
      }
      raised := Statement(l, text);
      ref := Model.Conclusion(l, pcsLabel, info, infoData);
    }

    /** The first half of `reason`: the proposition or argument it names. */
    method RegisterReason(r: Reason) returns (lbl: string, raised: Option<GraphError>)
      modifies argdown
      ensures Outcome(ArgumentMapParser.RegisterReason(old(argdown.Snapshot()), r, load), raised, lbl, argdown.Snapshot())
    {
      var text, yaml := "", map[];
      if r.text != "" {
        text, yaml := ExtractYaml(r.text, load);
      }
      text := Strip(text);
      match r
      case ArgumentReason(l, _) =>
        lbl := l;
        raised := argdown.AddArgument(Argument(lbl, TextList(text), yaml, []), true, true);
      case PropositionReason(l, _) =>
        lbl := l;
        raised := argdown.AddProposition(Proposition(lbl, TextList(text), yaml), true);
      case TextReason(_) =>
        lbl := argdown.MakeLabelUnique(UnnamedProposition);
        raised := argdown.AddProposition(Proposition(lbl, TextList(text), yaml), true);
    }

    /** `reason`: registers the reason and returns its edge, pending. */
    method Reason(rel: ReasonRelation, r: Reason) returns (edge: PendingEdge, raised: Option<GraphError>)
      modifies argdown
      ensures Outcome(TransformReason(old(argdown.Snapshot()), rel, r, load), raised, edge, argdown.Snapshot())
    {
      var lbl;
      lbl, raised := RegisterReason(r);
      var dialectic := if r.PropositionReason? then AXIOMATIC else SKETCHED;
      edge := PendingEdge(lbl, ChildIsSource(rel), ValenceOf(rel), dialectic);
    }

    /** The callback of one body item. */
    method Visit(it: BodyItem) returns (item: Item, raised: Option<GraphError>)
      modifies argdown
      ensures Outcome(TransformItem(old(argdown.Snapshot()), currentArgumentLabel, it, load), raised, item, argdown.Snapshot())
    {
      match it
      case PremiseItem(pcsLabel, propLabel, text) =>
        var ref;
        ref, raised := Premise(pcsLabel, propLabel, text);
        item := EntryItem(ref);
      case ConclusionItem(inference, pcsLabel, propLabel, text) =>
        var ref;
        ref, raised := Conclusion(inference, pcsLabel, propLabel, text);
        item := EntryItem(ref);
      case ReasonItem(rel, r) =>
        var edge;
        edge, raised := Reason(rel, r);
        item := EdgeItem(edge);
    }

    /** The body items, left to right. */
    method Items(body: seq<BodyItem>) returns (items: seq<Item>, raised: Option<GraphError>)
      modifies argdown
      ensures Outcome(TransformItems(old(argdown.Snapshot()), currentArgumentLabel, body, load), raised, items, argdown.Snapshot())
    {
      ghost var g0 := argdown.Snapshot();
      items := [];
      var i := 0;
      assert body[i..] == body;
      PrependNothing(TransformItems(g0, currentArgumentLabel, body, load));
      while i < |body|
        invariant 0 <= i <= |body|
        invariant TransformItems(g0, currentArgumentLabel, body, load)
          == Prepend(items, TransformItems(argdown.Snapshot(), currentArgumentLabel, body[i..], load))
      {
        ghost var gs := argdown.Snapshot();
        var item;
        item, raised := Visit(body[i]);
        ItemsAdvance(g0, gs, argdown.Snapshot(), currentArgumentLabel, body, i, items, item, raised, load);
        if raised.Some? {
          return;
        }
        items := items + [item];
        i := i + 1;
      }
      assert body[i..] == [];
      assert items + [] == items;
      raised := None;
    }

    /** `argument_body`: the PCS, with every embedded reason's edge drawn to the
        entry before it. */
    method ArgumentBody(items: seq<Item>) returns (pcs: seq<PropositionReference>, raised: Option<TransformError>)
      modifies argdown
      ensures TreeOutcome(ResolveBody(old(argdown.Snapshot()), items, []), raised, pcs, argdown.Snapshot())
    {
      ghost var g0 := argdown.Snapshot();
      pcs := [];
      var i := 0;
      assert items[i..] == items;
      while i < |items|
        invariant 0 <= i <= |items|
        invariant ResolveBody(g0, items, []) == ResolveBody(argdown.Snapshot(), items[i..], pcs)
      {
        assert items[i..][0] == items[i] && items[i..][1..] == items[i + 1..];
        match items[i] {
          case EntryItem(e) =>
            pcs := pcs + [e];
          case EdgeItem(pe) =>
            if |pcs| == 0 {
              return pcs, Some(NoPrecedingEntry);
            }
            var error := argdown.AddDialecticalRelation(Resolve(pe, pcs[|pcs| - 1].propositionLabel), true);
            if error.Some? {
              return pcs, Some(GraphFailure(error.value));
            }
        }
        i := i + 1;
      }
      assert items[i..] == [];
      raised := None;
    }

    /** `start`: adds the argument, under a fresh `UNNAMED_ARGUMENT` label when
        there is no head. */
    method Start(head: Option<HeadInfo>, pcs: seq<PropositionReference>) returns (a: Argument, raised: Option<GraphError>)
      modifies argdown
      ensures Outcome(Started(old(argdown.Snapshot()), head, pcs), raised, a, argdown.Snapshot())
    {
      match head {
        case None =>
          var lbl := argdown.MakeLabelUnique(UnnamedArgument);
          a := Argument(lbl, [], map[], pcs);
        case Some(h) =>
          a := Argument(h.argLabel, TextList(h.text), h.data, pcs);
      }
      raised := argdown.AddArgument(a, true, true);
    }

    /** `transform(tree)`: the argument `start` returns. */
    method Transform(tree: ArgumentTree) returns (a: Argument, raised: Option<TransformError>)
      modifies this, argdown
      ensures TreeOutcome(TransformTree(old(argdown.Snapshot()), old(currentArgumentLabel), tree, load),
                          raised, a, argdown.Snapshot())
    {
      a := Argument("", [], map[], []);
      var head: Option<HeadInfo> := None;
      if tree.head.Some? {
        var info := ArgumentHead(tree.head.value);
        head := Some(info);
      }
      var items, error := Items(tree.body);
      if error.Some? {
        return a, Some(GraphFailure(error.value));
      }
      var pcs;
      pcs, raised := ArgumentBody(items);
      if raised.Some? {
        return;
      }
      a, error := Start(head, pcs);
      if error.Some? {
        raised := Some(GraphFailure(error.value));
      }
    }
  }

  /** `ingest_in_argmap(tree, argdown)`: a fresh transformer works on a copy; if it
      raises, the original object is returned, untouched; otherwise the copy is
      returned after the inference pass, whose exception (`raised`) reaches the caller. */
  method IngestInArgmap(tree: ArgumentTree, argdown: ArgdownMultiDiGraph, load: string -> Option<Metadata>)
    returns (result: ArgdownMultiDiGraph, raised: bool)
    ensures Ingest(argdown.Snapshot(), tree, load).Some? <==> !raised
    ensures !raised ==> result.Snapshot() == Ingest(argdown.Snapshot(), tree, load).value
    ensures TransformTree(argdown.Snapshot(), None, tree, load).Failure? ==> result == argdown && !raised
    ensures TransformTree(argdown.Snapshot(), None, tree, load).Success? ==> fresh(result)
  {
    var working := new ArgdownMultiDiGraph.Copy(argdown);
    var transformer := new ArgumentTreeTransformer(working, load);
    var _, error := transformer.Transform(tree);
    if error.Some? {
      return argdown, false;
    }
    var ok := working.Update();
    return working, !ok;
  }

  /** One body item of `Items`: the rest of the body after it, or the error it raises. */
  lemma ItemsAdvance(g0: Graph, gs: Graph, gn: Graph, current: Option<string>, body: seq<BodyItem>, i: nat,
                     items: seq<Item>, item: Item, raised: Option<GraphError>, load: string -> Option<Metadata>)
    requires i < |body|
    requires TransformItems(g0, current, body, load) == Prepend(items, TransformItems(gs, current, body[i..], load))
    requires Outcome(TransformItem(gs, current, body[i], load), raised, item, gn)
    ensures raised.None? ==>
      TransformItems(g0, current, body, load) == Prepend(items + [item], TransformItems(gn, current, body[i + 1..], load))
    ensures raised.Some? ==> Outcome(TransformItems(g0, current, body, load), raised, items, gn)
  {
    ItemsStep(gs, current, body, i, load);
    if raised.None? {
      PrependTwice(items, item, TransformItems(gn, current, body[i + 1..], load));
    }
  }

  lemma ItemsStep(g: Graph, current: Option<string>, body: seq<BodyItem>, i: nat, load: string -> Option<Metadata>)
    requires i < |body|
    ensures TransformItems(g, current, body[i..], load) ==
      match TransformItem(g, current, body[i], load)
      case Failure(e) => Failure(e)
      case Success(first) => Prepend([first.1], TransformItems(first.0, current, body[i + 1..], load))
  {
    assert body[i..][0] == body[i];
    assert body[i..][1..] == body[i + 1..];
  }

  // ------------------------------------------------------------------ lemmas

  /** The statements of the body, in order: the lines PCS entries come from. */
  function EntryLines(body: seq<BodyItem>): (r: seq<BodyItem>)
    ensures forall k :: 0 <= k < |r| ==> !r[k].ReasonItem?
  {
    if |body| == 0 then []
    else if body[0].ReasonItem? then EntryLines(body[1..])
    else [body[0]] + EntryLines(body[1..])
  }

  /** Collecting the entries keeps one entry per statement, in order. */
  lemma {:induction false} EntriesFollowLines(current: Option<string>, body: seq<BodyItem>, out: seq<Item>)
    requires |body| == |out|
    requires forall i :: 0 <= i < |body| ==> Matches(current, body[i], out[i])
    ensures |Entries(out)| == |EntryLines(body)|
    ensures forall k :: 0 <= k < |Entries(out)| ==> EntryMatches(current, EntryLines(body)[k], Entries(out)[k])
    decreases |body|
  {
    if |body| > 0 {
      assert Matches(current, body[0], out[0]);
      EntriesFollowLines(current, body[1..], out[1..]);
    }
  }

  /** Every entry collected from the items names a proposition of `g`. */
  lemma {:induction false} EntriesNamePropositions(g: Graph, out: seq<Item>)
    requires forall i :: 0 <= i < |out| && out[i].EntryItem? ==> IsProposition(g, out[i].entry.propositionLabel)
    ensures forall k :: 0 <= k < |Entries(out)| ==> IsProposition(g, Entries(out)[k].propositionLabel)
    decreases |out|
  {
    if |out| > 0 {
      EntriesNamePropositions(g, out[1..]);
    }
  }

  /** The edge of the reason `e`, drawn to the last entry of `before`, is in `g`
      and carries the reason's dialectic. */
  predicate DrawnToLast(g: Graph, e: PendingEdge, before: seq<PropositionReference>) {
    && |before| > 0
    && var k := KeyOf(Resolve(e, before[|before| - 1].propositionLabel));
    && k in g.edges && e.dialectic in g.edges[k].dialectics
  }

  /** `argument_body` succeeds only if every embedded reason has a PCS entry before
      it, and then draws the reason's edge, with its dialectic, to the last one. */
  lemma {:induction false} EmbeddedReasonDrawn(g: Graph, items: seq<Item>, pcs: seq<PropositionReference>, j: nat)
    requires ResolveBody(g, items, pcs).Success?
    requires j < |items| && items[j].EdgeItem?
    ensures DrawnToLast(ResolveBody(g, items, pcs).value.0, items[j].edge, pcs + Entries(items[..j]))
    decreases j
  {
    if j == 0 {
      assert items[..0] == [];
      assert pcs + [] == pcs;
      FirstReasonDrawn(g, items, pcs);
    } else {
      var rest := items[1..];
      assert items[..j][1..] == rest[..j - 1];
      assert rest[j - 1] == items[j];
      match items[0]
      case EntryItem(en) =>
        assert Entries(items[..j]) == [en] + Entries(rest[..j - 1]);
        assert pcs + Entries(items[..j]) == (pcs + [en]) + Entries(rest[..j - 1]);
        assert ResolveBody(g, items, pcs) == ResolveBody(g, rest, pcs + [en]);
        EmbeddedReasonDrawn(g, rest, pcs + [en], j - 1);
      case EdgeItem(pe) =>
        assert Entries(items[..j]) == Entries(rest[..j - 1]);
        var g1 := AddDialecticalRelation(g, Resolve(pe, pcs[|pcs| - 1].propositionLabel), true).value;
        assert ResolveBody(g, items, pcs) == ResolveBody(g1, rest, pcs);
        EmbeddedReasonDrawn(g1, rest, pcs, j - 1);
    }
  }

  /** The edge of a leading embedded reason is drawn to the last entry of the PCS. */
  lemma FirstReasonDrawn(g: Graph, items: seq<Item>, pcs: seq<PropositionReference>)
    requires ResolveBody(g, items, pcs).Success?
    requires |items| > 0 && items[0].EdgeItem?
    ensures DrawnToLast(ResolveBody(g, items, pcs).value.0, items[0].edge, pcs)
  {
    var e := Resolve(items[0].edge, pcs[|pcs| - 1].propositionLabel);
    var g1 := AddDialecticalRelation(g, e, true).value;
    assert KeyOf(e) in g1.edges && items[0].edge.dialectic in g1.edges[KeyOf(e)].dialectics;
    assert ResolveBody(g, items, pcs) == ResolveBody(g1, items[1..], pcs);
  }

  /** A reason embedded before any PCS entry trips the assertion of `argument_body`. */
  lemma NoEntryBeforeReason(g: Graph, items: seq<Item>, j: nat)
    requires j < |items| && items[j].EdgeItem? && Entries(items[..j]) == []
    ensures ResolveBody(g, items, []) == Failure(NoPrecedingEntry)
  {
    if j > 0 {
      assert items[..j][0] == items[0];
      assert items[0].EdgeItem?;
    }
  }

  /** One statement enters the graph: every PCS still names propositions. */
  lemma ItemKeepsNames(g: Graph, current: Option<string>, it: BodyItem, load: string -> Option<Metadata>)
    requires PcsNamesPropositions(g) && TransformItem(g, current, it, load).Success?
    ensures PcsNamesPropositions(TransformItem(g, current, it, load).value.0)
  {
    var g' := TransformItem(g, current, it, load).value.0;
    match it
    case PremiseItem(pcsLabel, propLabel, text) =>
      NamesKept(g, g', EntryLabel(g, current, UnnamedPremise, pcsLabel, propLabel));
    case ConclusionItem(_, pcsLabel, propLabel, text) =>
      NamesKept(g, g', EntryLabel(g, current, UnnamedConclusion, pcsLabel, propLabel));
    case ReasonItem(rel, reason) =>
      RegisterReasonKeepsNames(g, reason, load);
  }

  lemma {:induction false} ItemsKeepNames(g: Graph, current: Option<string>, items: seq<BodyItem>, load: string -> Option<Metadata>)
    requires PcsNamesPropositions(g) && TransformItems(g, current, items, load).Success?
    ensures PcsNamesPropositions(TransformItems(g, current, items, load).value.0)
    decreases |items|
  {
    if |items| > 0 {
      ItemKeepsNames(g, current, items[0], load);
      ItemsKeepNames(TransformItem(g, current, items[0], load).value.0, current, items[1..], load);
    }
  }

  /** `start` adds an argument whose PCS names propositions, or nothing. */
  lemma StartedKeepsNames(g: Graph, head: Option<HeadInfo>, pcs: seq<PropositionReference>)
    requires PcsNamesPropositions(g)
    requires forall i :: 0 <= i < |pcs| ==> IsProposition(g, pcs[i].propositionLabel)
    requires Started(g, head, pcs).Success?
    ensures PcsNamesPropositions(Started(g, head, pcs).value.0)
  {
    var a := StartArgument(g, head, pcs);
    var g' := Started(g, head, pcs).value.0;
    if !RejectedPcs(a, true) {
      if a.nodeLabel !in g.nodes {
        assert FirstMissingReference(g, a.pcs, 0).None?;
      }
      NamesKept(g, g', a.nodeLabel);
    }
  }

  /** Transforming an argument block keeps every PCS of the graph naming propositions. */
  lemma TreeKeepsNames(g: Graph, current: Option<string>, tree: ArgumentTree, load: string -> Option<Metadata>)
    requires PcsNamesPropositions(g) && TransformTree(g, current, tree, load).Success?
    ensures PcsNamesPropositions(TransformTree(g, current, tree, load).value.0)
  {
    var head := match tree.head case None => None case Some(h) => Some(HeadInfoOf(h, load));
    var tracked := match tree.head case None => current case Some(h) => Some(h.argLabel);
    var items := TransformItems(g, tracked, tree.body, load).value;
    ItemsKeepNames(g, tracked, tree.body, load);
    var body := ResolveBody(items.0, items.1, []).value;
    PcsNamesPropositionsSameNodes(items.0, body.0);
    EntriesNamePropositions(items.0, items.1);
    assert body.1 == Entries(items.1);
    StartedKeepsNames(body.0, head, body.1);
  }

  /** The argument that `transform` returns has one PCS entry per statement of the
      body, in order, each naming a proposition of the graph; if that PCS is legal,
      the graph holds the argument with exactly this PCS.  Without a head the
      argument has a generated label and no gist. */
  lemma TransformedArgument(g: Graph, current: Option<string>, tree: ArgumentTree, load: string -> Option<Metadata>)
    requires TransformTree(g, current, tree, load).Success?
    ensures var (g', a) := TransformTree(g, current, tree, load).value;
      var tracked := if tree.head.Some? then Some(tree.head.value.argLabel) else current;
      && |a.pcs| == |EntryLines(tree.body)|
      && (forall k :: 0 <= k < |a.pcs| ==> EntryMatches(tracked, EntryLines(tree.body)[k], a.pcs[k]))
      && (forall k :: 0 <= k < |a.pcs| ==> IsProposition(g', a.pcs[k].propositionLabel))
      && (HasLegalPcs(a.pcs).0 ==> IsArgument(g', a.nodeLabel) && g'.nodes[a.nodeLabel].pcs == a.pcs)
      && (tree.head.None? ==> IsUnlabeled(a.nodeLabel) && a.gists == [])
      && (tree.head.Some? ==> a.nodeLabel == tree.head.value.argLabel)
  {
    var head := match tree.head case None => None case Some(h) => Some(HeadInfoOf(h, load));
    var tracked := match tree.head case None => current case Some(h) => Some(h.argLabel);
    var items := TransformItems(g, tracked, tree.body, load).value;
    var body := ResolveBody(items.0, items.1, []).value;
    EntriesFollowLines(tracked, tree.body, items.1);
    EntriesNamePropositions(items.0, items.1);
    assert body.1 == Entries(items.1);
    var s := Started(body.0, head, body.1).value;
    assert KindsPreserved(body.0, s.0);
  }

  /** Ingesting is all or nothing: a block the transformer rejects leaves the graph
      as it was, and whatever it returns otherwise is a fixpoint of the inference pass. */
  lemma IngestAllOrNothing(g: Graph, tree: ArgumentTree, load: string -> Option<Metadata>)
    ensures TransformTree(g, None, tree, load).Failure? ==> Ingest(g, tree, load) == Some(g)
    ensures TransformTree(g, None, tree, load).Success? ==>
      var g' := Ingest(g, tree, load);
      g'.Some? ==> !Raises(g'.value) && Updated(g'.value) == g'.value
  {
    match TransformTree(g, None, tree, load)
    case Failure(_) =>
    case Success(t) =>
      if !Raises(t.0) {
        UpdateIdempotent(t.0);
      }
  }

  /** Ingesting an argument into a graph whose every PCS names propositions never
      makes the inference pass raise, and the graph it returns keeps that property. */
  lemma IngestNeverRaises(g: Graph, tree: ArgumentTree, load: string -> Option<Metadata>)
    requires PcsNamesPropositions(g)
    ensures Ingest(g, tree, load).Some?
    ensures PcsNamesPropositions(Ingest(g, tree, load).value)
  {
    if TransformTree(g, None, tree, load).Success? {
      var t := TransformTree(g, None, tree, load).value.0;
      TreeKeepsNames(g, None, tree, load);
      NoRaiseWhenPcsNamesPropositions(t);
      PcsNamesPropositionsSameNodes(t, Updated(t));
    }
  }

  // ----------------------------------------------- the blocks of the test suite

  /** The token of the inference line `-- m --`. */
  function Dashed(m: string): string {
    "-- " + m + " --\n"
  }

  /** An inference line `-- m --` yields the information `m`, its YAML mapping
      split off, when `m` neither begins nor ends with whitespace. */
  lemma DashedInfo(m: string, load: string -> Option<Metadata>)
    requires m != "" && !IsSpace(m[0]) && !IsSpace(m[|m| - 1])
    ensures InferenceInfo(Some(Dashed(m)), load) == (Some(ExtractedYaml(m, load).0), ExtractedYaml(m, load).1)
  {
    DashedStripChars(m);
    DashedInner(m);
    PaddedStrip(m);
  }

  /** Stripping line breaks and blanks from `-- m --` and a newline drops the newline. */
  lemma DashedStripChars(m: string)
    ensures StripChars(Dashed(m), {'\n', ' '}) == "-- " + m + " --"
  {
    var cs := {'\n', ' '};
    var s := Dashed(m);
    var t := "-- " + m + " --";
    assert s == t + "\n";
    assert s[0] == '-' && s[|s| - 1] == '\n';
    assert s[..|s| - 1] == t;
    assert t[0] == '-' && t[|t| - 1] == '-';
  }

  /** Cutting two characters off either end of `-- m --` leaves ` m `. */
  lemma DashedInner(m: string)
    ensures PyInner("-- " + m + " --") == " " + m + " "
  {
    var t := "-- " + m + " --";
    var padded := " " + m + " ";
    assert t == "--" + padded + "--";
    assert t[2..|t| - 2] == padded;
  }

  /** ` m ` strips to `m` when `m` neither begins nor ends with whitespace. */
  lemma PaddedStrip(m: string)
    requires m != "" && !IsSpace(m[0]) && !IsSpace(m[|m| - 1])
    ensures Strip(" " + m + " ") == m
  {
    var padded := " " + m + " ";
    assert RStrip(padded) == " " + m by {
      assert padded[..|padded| - 1] == " " + m;
    }
    assert LStrip(" " + m) == m by {
      assert (" " + m)[1..] == m;
    }
  }

  /** `-- Modus ponens --` yields the information `Modus ponens` and no data. */
  lemma ModusPonensInfo(load: string -> Option<Metadata>)
    ensures InferenceInfo(Some(Dashed("Modus ponens")), load) == (Some("Modus ponens"), map[])
  {
    DashedInfo("Modus ponens", load);
    assert RStrip("Modus ponens") == "Modus ponens";
  }

  /** `-- {"uses": ["1"]} --` yields an empty information and the loaded mapping. */
  lemma YamlInfo(load: string -> Option<Metadata>, d: Metadata)
    requires load("{\"uses\": [\"1\"]}") == Some(d)
    ensures InferenceInfo(Some(Dashed("{\"uses\": [\"1\"]}")), load) == (Some(""), d)
  {
    var info := "{\"uses\": [\"1\"]}";
    DashedInfo(info, load);
    assert RStrip(info) == info;
    assert info[0..] == info;
    ExtractedYamlLeftmost(info, load, 0);
    assert info[..0] == "";
  }

  /** `(1) Premise.` / `----` / `(2) Conclusion.` */
  function Block2(): ArgumentTree {
    ArgumentTree(None, [PremiseItem("1", None, "Premise."), ConclusionItem(None, "2", None, "Conclusion.")])
  }

  function Block2Premises(): Graph {
    Graph(map["UNNAMED_PREMISE_1" := PropositionNode(["Premise."], map[])], map[])
  }

  function Block2Statements(): Graph {
    Graph(map["UNNAMED_PREMISE_1" := PropositionNode(["Premise."], map[]),
              "UNNAMED_CONCLUSION_2" := PropositionNode(["Conclusion."], map[])], map[])
  }

  function Block2Argument(): Argument {
    Argument(UnnamedArgument, [], map[],
             [Reference("UNNAMED_PREMISE_1", "1"), Model.Conclusion("UNNAMED_CONCLUSION_2", "2", None, map[])])
  }

  function Block2Graph(): Graph {
    Graph(map["UNNAMED_PREMISE_1" := PropositionNode(["Premise."], map[]),
              "UNNAMED_CONCLUSION_2" := PropositionNode(["Conclusion."], map[]),
              UnnamedArgument := ArgumentNode([], map[], Block2Argument().pcs)], map[])
  }

  /** A plain one-line text, without a mapping, enters as it is. */
  lemma PlainEntryText(text: string, load: string -> Option<Metadata>)
    requires text != "" && text[|text| - 1] == '.'
    ensures EntryText(text, load) == ([text], map[])
  {
    assert RStrip(text) == text;
  }

  lemma Block2First(load: string -> Option<Metadata>)
    ensures TransformItem(EmptyGraph, None, Block2().body[0], load)
      == Success((Block2Premises(), EntryItem(Reference("UNNAMED_PREMISE_1", "1"))))
  {
    assert EntryLabel(EmptyGraph, None, UnnamedPremise, "1", None) == "UNNAMED_PREMISE_1";
    PlainEntryText("Premise.", load);
  }

  lemma Block2Second(load: string -> Option<Metadata>)
    ensures TransformItem(Block2Premises(), None, Block2().body[1], load)
      == Success((Block2Statements(), EntryItem(Model.Conclusion("UNNAMED_CONCLUSION_2", "2", None, map[]))))
  {
    assert EntryLabel(Block2Premises(), None, UnnamedConclusion, "2", None) == "UNNAMED_CONCLUSION_2";
    PlainEntryText("Conclusion.", load);
  }

  /** Two body items, one after the other. */
  lemma TwoItems(g: Graph, current: Option<string>, a: BodyItem, b: BodyItem, load: string -> Option<Metadata>)
    requires TransformItem(g, current, a, load).Success?
    ensures var first := TransformItem(g, current, a, load).value;
      TransformItems(g, current, [a, b], load) ==
        match TransformItem(first.0, current, b, load)
        case Failure(e) => Failure(e)
        case Success(second) => Success((second.0, [first.1, second.1]))
  {
    var first := TransformItem(g, current, a, load).value;
    assert [a, b][0] == a && [a, b][1..] == [b];
    assert [b][0] == b && [b][1..] == [];
    match TransformItem(first.0, current, b, load)
    case Failure(_) =>
    case Success(second) =>
      assert TransformItems(second.0, current, [], load) == Success((second.0, []));
      assert [second.1] + [] == [second.1];
      assert TransformItems(first.0, current, [b], load) == Success((second.0, [second.1]));
      assert [first.1] + [second.1] == [first.1, second.1];
  }

  lemma Block2Items(load: string -> Option<Metadata>)
    ensures TransformItems(EmptyGraph, None, Block2().body, load)
      == Success((Block2Statements(), [EntryItem(Block2Argument().pcs[0]), EntryItem(Block2Argument().pcs[1])]))
  {
    Block2First(load);
    Block2Second(load);
    TwoItems(EmptyGraph, None, Block2().body[0], Block2().body[1], load);
  }

  lemma Block2Start()
    ensures Started(Block2Statements(), None, Block2Argument().pcs) == Success((Block2Graph(), Block2Argument()))
  {
    assert UnnamedArgument !in Block2Statements().nodes;
    assert HasLegalPcs(Block2Argument().pcs).0;
    assert FirstMissingReference(Block2Statements(), Block2Argument().pcs, 0).None?;
  }

  /** A block without a head: its items, then `argument_body`, then `start`. */
  lemma HeadlessSteps(g: Graph, current: Option<string>, tree: ArgumentTree, load: string -> Option<Metadata>,
                      items: (Graph, seq<Item>), body: (Graph, seq<PropositionReference>))
    requires tree.head.None?
    requires TransformItems(g, current, tree.body, load) == Success(items)
    requires ResolveBody(items.0, items.1, []) == Success(body)
    ensures TransformTree(g, current, tree, load) == Lift(Started(body.0, None, body.1))
  {
  }

  /** Two PCS entries and no embedded reason: the PCS is the two entries. */
  lemma TwoEntries(g: Graph, e1: PropositionReference, e2: PropositionReference)
    ensures ResolveBody(g, [EntryItem(e1), EntryItem(e2)], []) == Success((g, [e1, e2]))
  {
    assert [EntryItem(e1), EntryItem(e2)][1..] == [EntryItem(e2)];
    assert [EntryItem(e2)][1..] == [];
    assert [] + [e1] == [e1];
    assert [e1] + [e2] == [e1, e2];
    assert ResolveBody(g, [EntryItem(e1), EntryItem(e2)], []) == ResolveBody(g, [EntryItem(e2)], [e1]);
    assert ResolveBody(g, [EntryItem(e2)], [e1]) == ResolveBody(g, [], [e1, e2]);
  }

  /** Without a head, the argument is `UNNAMED_ARGUMENT`, with no gist and the PCS of
      its two statements. */
  lemma Block2Transform(load: string -> Option<Metadata>)
    ensures TransformTree(EmptyGraph, None, Block2(), load) == Success((Block2Graph(), Block2Argument()))
  {
    var pcs := Block2Argument().pcs;
    Block2Items(load);
    TwoEntries(Block2Statements(), pcs[0], pcs[1]);
    assert [pcs[0], pcs[1]] == pcs;
    Block2Start();
    HeadlessSteps(EmptyGraph, None, Block2(), load, (Block2Statements(), [EntryItem(pcs[0]), EntryItem(pcs[1])]),
                  (Block2Statements(), pcs));
  }

  /** A transformation whose graph names propositions in every PCS is ingested
      with the inference pass applied. */
  lemma IngestTransformed(g: Graph, tree: ArgumentTree, load: string -> Option<Metadata>, t: Graph, a: Argument)
    requires TransformTree(g, None, tree, load) == Success((t, a))
    requires PcsNamesPropositions(t)
    ensures !Raises(t) && Ingest(g, tree, load) == Some(Updated(t))
  {
    NoRaiseWhenPcsNamesPropositions(t);
  }

  /** Ingested into an empty graph, the block gives an argument `UNNAMED_ARGUMENT`
      with no gist. */
  lemma IngestBlock2(load: string -> Option<Metadata>)
    ensures Ingest(EmptyGraph, Block2(), load).Some?
    ensures GetArgument(Ingest(EmptyGraph, Block2(), load).value, UnnamedArgument) == Some(Block2Argument())
    ensures Block2Argument().gists == []
  {
    Block2Transform(load);
    Block2Names();
    IngestTransformed(EmptyGraph, Block2(), load, Block2Graph(), Block2Argument());
    Block2Lookup();
    ArgumentAfterUpdate(Block2Graph(), UnnamedArgument);
  }

  /** The inference pass leaves every argument as it was. */
  lemma ArgumentAfterUpdate(g: Graph, l: string)
    requires !Raises(g)
    ensures GetArgument(Updated(g), l) == GetArgument(g, l)
  {
  }

  lemma Block2Names()
    ensures PcsNamesPropositions(Block2Graph())
  {
    var pcs := Block2Argument().pcs;
    assert IsProposition(Block2Graph(), pcs[0].propositionLabel);
    assert IsProposition(Block2Graph(), pcs[1].propositionLabel);
  }

  lemma Block2Lookup()
    ensures GetArgument(Block2Graph(), UnnamedArgument) == Some(Block2Argument())
  {
  }
}
