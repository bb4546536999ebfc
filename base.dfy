/** The helpers both block parsers share (`src/pyargdown/parser/base.py`): the
    relation markers, the reasons the grammars produce, the test for generated
    labels, the format of syntax-error messages and the extraction of a trailing
    YAML mapping from a text.  The YAML loader itself is a parameter: `load(s)` is
    `Some(d)` when `yaml.safe_load(s)` returns the mapping `d`, and `None` when it
    raises. */
module Base {
  import opened Wrappers
  import opened Strings
  import opened Model

  const UnnamedArgument := "UNNAMED_ARGUMENT"
  const UnnamedProposition := "UNNAMED_PROPOSITION"

  /** The relation markers: `+ `/`<+ `, `- `/`<- `, `+> `, `-> `, `>< `, `<_ `, `_> `. */
  datatype ReasonRelation =
    LEFT_PRO | LEFT_CON | RIGHT_PRO | RIGHT_CON | CONTRADICT | LEFT_UNDERCUT | RIGHT_UNDERCUT

  /** A reason as both grammars produce it, its label without the brackets: `[label]`,
      `<label>` or bare text, each with an optional text (`""` when absent). */
  datatype Reason =
    | PropositionReason(nodeLabel: string, text: string)
    | ArgumentReason(nodeLabel: string, text: string)
    | TextReason(text: string)

  /** The markers whose reason is the source of the edge; the others point from
      the reason's parent (or the PCS entry before it) to the reason. */
  predicate ChildIsSource(rel: ReasonRelation) {
    rel == LEFT_PRO || rel == LEFT_CON || rel == LEFT_UNDERCUT || rel == ReasonRelation.CONTRADICT
  }

  /** The valence a marker gives its edge. */
  function ValenceOf(rel: ReasonRelation): (v: Valence)
    ensures v == SUPPORT <==> rel == LEFT_PRO || rel == RIGHT_PRO
    ensures v == ATTACK <==> rel == LEFT_CON || rel == RIGHT_CON
    ensures v == UNDERCUT <==> rel == LEFT_UNDERCUT || rel == RIGHT_UNDERCUT
    ensures v == Valence.CONTRADICT <==> rel == ReasonRelation.CONTRADICT
  {
    match rel
    case LEFT_PRO => SUPPORT
    case RIGHT_PRO => SUPPORT
    case LEFT_CON => ATTACK
    case RIGHT_CON => ATTACK
    case LEFT_UNDERCUT => UNDERCUT
    case RIGHT_UNDERCUT => UNDERCUT
    case CONTRADICT => Valence.CONTRADICT
  }

  /** The (source, target, valence) of the edge a marker draws between `parent` and `child`. */
  function Orient(rel: ReasonRelation, parent: string, child: string): (r: (string, string, Valence))
    ensures ChildIsSource(rel) ==> r.0 == child && r.1 == parent
    ensures !ChildIsSource(rel) ==> r.0 == parent && r.1 == child
    ensures r.2 == ValenceOf(rel)
  {
    if ChildIsSource(rel) then (child, parent, ValenceOf(rel)) else (parent, child, ValenceOf(rel))
  }

  /** `is_unlabeled`: labels that were generated rather than written. */
  predicate IsUnlabeled(lbl: string) {
    lbl == "" || StartsWith(lbl, UnnamedArgument) || StartsWith(lbl, UnnamedProposition)
  }

  /** Labels that `make_label_unique` derives from the two unnamed prefixes count as
      unlabeled, whatever the graph holds. */
  lemma UniqueUnnamedIsUnlabeled(labels: set<string>)
    ensures IsUnlabeled(UniqueLabel(labels, UnnamedArgument))
    ensures IsUnlabeled(UniqueLabel(labels, UnnamedProposition))
  {
    SuffixedStartsWith(labels, UnnamedArgument);
    SuffixedStartsWith(labels, UnnamedProposition);
  }

  lemma SuffixedStartsWith(labels: set<string>, prefix: string)
    ensures StartsWith(UniqueLabel(labels, prefix), prefix)
  {
    var r := UniqueLabel(labels, prefix);
    if prefix in labels {
      assert r == prefix + ("_" + NatToString(FirstFreeSuffix(labels, prefix, 1)));
      assert r[..|prefix|] == prefix;
    }
  }

  /** `ArgdownSyntaxError.__str__`: `'%s at line %s, column %s.\n\n%s'`. */
  function SyntaxErrorMessage(errorLabel: string, line: int, column: int, context: string): string
  {
    errorLabel + " at line " + IntToString(line) + (", column " + IntToString(column) + (".\n\n" + context))
  }

  /** A syntax-error message starts with the error label and ends with the context. */
  lemma SyntaxErrorMessageParts(errorLabel: string, line: int, column: int, context: string)
    ensures var m := SyntaxErrorMessage(errorLabel, line, column, context);
      StartsWith(m, errorLabel + " at line ") && EndsWith(m, ".\n\n" + context)
  {
    var head := errorLabel + " at line ";
    var n := IntToString(line);
    var columnPart := ", column " + IntToString(column);
    var tail := ".\n\n" + context;
    assert StartsWith(head + n, head) by {
      assert StartsWith(head, head);
      StartsWithConcat(head, head, n);
    }
    StartsWithConcat(head + n, head, columnPart + tail);
    assert EndsWith(columnPart + tail, tail) by {
      assert EndsWith(tail, tail);
      EndsWithConcat(columnPart, tail, tail);
    }
    EndsWithConcat(head + n, columnPart + tail, tail);
  }

  /** The line number can be read back from a syntax-error message: its digits
      follow the error label and " at line " directly. */
  lemma SyntaxErrorMessageLine(errorLabel: string, line: nat, column: int, context: string)
    ensures var m := SyntaxErrorMessage(errorLabel, line, column, context);
      var start := |errorLabel| + |" at line "|;
      var digits := NatToString(line);
      start + |digits| <= |m| && ParseNat(m[start..start + |digits|]) == line
  {
    var head := errorLabel + " at line ";
    var rest := ", column " + IntToString(column) + (".\n\n" + context);
    MiddleOfConcat(head, NatToString(line), rest);
    ParseNatToString(line);
  }

  // ------------------------------------------------------------- extract_yaml

  /** `text[j]` is a `{` from which the loader succeeds. */
  predicate LoadsAt(text: string, load: string -> Option<Metadata>, j: nat) {
    j < |text| && text[j] == '{' && load(text[j..]).Some?
  }

  /** The first index from `from` on where the loader succeeds on a `{`. */
  function LoadablePosition(text: string, load: string -> Option<Metadata>, from: nat): (r: Option<nat>)
    ensures r.Some? ==> from <= r.value && LoadsAt(text, load, r.value)
    decreases |text| - from
  {
    match IndexOfChar(text, '{', from)
    case None => None
    case Some(i) => if load(text[i..]).Some? then Some(i) else LoadablePosition(text, load, i + 1)
  }

  /** The search finds the leftmost such index, and finds none only when there is none. */
  lemma {:induction false} LoadablePositionFirst(text: string, load: string -> Option<Metadata>, from: nat)
    ensures LoadablePosition(text, load, from).Some? ==>
      forall j :: from <= j < LoadablePosition(text, load, from).value ==> !LoadsAt(text, load, j)
    ensures LoadablePosition(text, load, from).None? ==> forall j :: from <= j ==> !LoadsAt(text, load, j)
    decreases |text| - from
  {
    IndexOfCharFirst(text, '{', from);
    match IndexOfChar(text, '{', from)
    case None =>
    case Some(i) =>
      if load(text[i..]).None? {
        LoadablePositionFirst(text, load, i + 1);
      }
  }

  /** What `extract_yaml` returns: the text and the mapping it ends in. */
  function ExtractedYaml(text: string, load: string -> Option<Metadata>): (r: (string, Metadata))
    ensures !EndsWith(RStrip(text), "}") ==> r == (text, map[])
    ensures (forall j :: !LoadsAt(text, load, j)) ==> r == (text, map[])
  {
    if EndsWith(RStrip(text), "}") then
      match LoadablePosition(text, load, 0)
      case None => (text, map[])
      case Some(i) => (RStrip(text[..i]), load(text[i..]).value)
    else (text, map[])
  }

  /** When the right-stripped text ends with `}`, `extract_yaml` splits at the
      leftmost `{` from which the loader succeeds: the text before it, right-stripped,
      and the loaded mapping. */
  lemma ExtractedYamlLeftmost(text: string, load: string -> Option<Metadata>, i: nat)
    requires EndsWith(RStrip(text), "}")
    requires LoadsAt(text, load, i)
    requires forall j :: 0 <= j < i ==> !LoadsAt(text, load, j)
    ensures ExtractedYaml(text, load) == (RStrip(text[..i]), load(text[i..]).value)
  {
    LoadablePositionFirst(text, load, 0);
    var p := LoadablePosition(text, load, 0);
    assert p.Some? && p.value == i;
  }

  /** The search ends without a position when no `{` is left. */
  lemma LoadableNone(text: string, load: string -> Option<Metadata>, from: nat)
    requires IndexOfChar(text, '{', from).None?
    ensures LoadablePosition(text, load, from).None?
  {
  }

  /** The search stops at the next `{` when the loader succeeds there. */
  lemma LoadableHere(text: string, load: string -> Option<Metadata>, from: nat, i: nat)
    requires IndexOfChar(text, '{', from) == Some(i) && load(text[i..]).Some?
    ensures LoadablePosition(text, load, from) == Some(i)
  {
  }

  /** The search goes on after the next `{` when the loader fails there. */
  lemma LoadableSkip(text: string, load: string -> Option<Metadata>, from: nat, i: nat)
    requires IndexOfChar(text, '{', from) == Some(i) && load(text[i..]).None?
    ensures LoadablePosition(text, load, from) == LoadablePosition(text, load, i + 1)
  {
  }

  /** `extract_yaml`: the text and mapping, from the search for a loadable `{`. */
  method ExtractYaml(text0: string, load: string -> Option<Metadata>) returns (text: string, data: Metadata)
    ensures (text, data) == ExtractedYaml(text0, load)
  {
    text, data := text0, map[];
    if EndsWith(RStrip(text0), "}") {
      var found := FindLoadable(text0, load);
      if found.Some? {
        var i := found.value;
        data := load(text0[i..]).value;
        text := RStrip(text0[..i]);
      }
    }
  }

  /** The `while True` loop of `extract_yaml`: the positions of `{` from left to right,
      until the loader succeeds at one or none is left. */
  method FindLoadable(text: string, load: string -> Option<Metadata>) returns (found: Option<nat>)
    ensures found == LoadablePosition(text, load, 0)
  {
    var idx: nat := 0;
    while true
      invariant idx <= |text|
      invariant LoadablePosition(text, load, idx) == LoadablePosition(text, load, 0)
      decreases |text| - idx
    {
      var next := IndexOfChar(text, '{', idx);
      if next.None? {
        LoadableNone(text, load, idx);
        return None;
      }
      var i := next.value;
      if load(text[i..]).Some? {
        LoadableHere(text, load, idx, i);
        return Some(i);
      }
      LoadableSkip(text, load, idx, i);
      idx := i + 1;
    }
  }
}
