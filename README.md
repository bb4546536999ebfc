# pyargdown core in Dafny

This project models the core of pyargdown, a parser for Argdown documents. An
Argdown document is a sequence of blocks. An argument map block is an indented
tree of reasons (`[C]: Claim.` with `+ [Pro1]: …` under it). An argument block
is a premise-conclusion structure (PCS) such as `(1) Premise.` / `----` /
`(2) Conclusion.`, optionally headed by `<Argument>: gist`. pyargdown ingests
both kinds into one argument graph, `ArgdownMultiDiGraph`.

The model has these parts, file by file:

- `wrappers.dfy`: `Option` and `Result`.
- `strings.dfy`: the Python `str` operations the core relies on (`strip`,
  `lstrip`, `rstrip`, `split`, `join`, `startswith`, `find`, `"in"`, `replace`,
  integer formatting), each with its defining contract.
- `model.dfy`: the data model of `model.py` (valences, dialectical types,
  propositions, PCS entries, arguments, edges) and the graph as a value: nodes
  keyed by label and edges keyed by (source, target, valence). Every graph
  operation is a function from the graph before the call to the graph after it,
  or to the exception the call raises.
- `inference.dfy`: the inference pass `_update`. It re-derives GROUNDED support
  and attack relations between arguments and propositions from the AXIOMATIC
  relations between their anchor propositions. The pass is characterised
  pointwise (`Updated`), proved idempotent, and shown to raise exactly when a
  comparison reaches a missing anchor.
- `multidigraph.dfy`: the class `ArgdownMultiDiGraph`. Its fields `nodes` and
  `edges` are updated in place by the add/update methods and by `Update`, the
  nested loop of `_update`. Each method is proved to leave the state its spec
  function in `model.dfy` or `inference.dfy` prescribes.
- `base.dfy`: the helpers of `parser/base.py`:
  - the relation markers, with their direction and valence;
  - `is_unlabeled`;
  - the syntax-error message;
  - the `extract_yaml` search loop.
- `argument_map_parser.dfy`: `ArgumentMapTreeTransformer` and its
  transactional `ingest_in_argmap`, over a datatype for the map tree the grammar
  produces.
- `argument_parser.dfy`: `ArgumentTreeTransformer` and its `ingest_in_argmap`,
  over a datatype for the argument tree.
- `preprocessor.dfy`: the block splitter as written (`SplitBlocksAsWritten`,
  computed by the loop `Preprocessor.SplitBlocks`) and, beside it, the splitter
  with the corrected content line (`SplitBlocksCorrected`); the line
  classifiers, the comment removers and the handlers that normalise a block;
  the `Preprocessor` handler chain.

Inputs that come from outside are parameters:

- The YAML loader is a function `load: string -> Option<Metadata>`. `None`
  stands for `yaml.safe_load` raising.
- The parse trees are datatypes that stand for the trees lark produces.
- The random placeholder uuid of embedded reasons is replaced by a pending edge
  whose open end is marked by a boolean (`PendingEdge.reasonIsSource`).

This model follows the code as written in these places:

- `update_proposition` on an argument node, and `update_argument` on a
  proposition node, raise (a `KeyError` on the missing `texts`/`gists`
  attribute). The model returns `WrongKind`.
- `_update` skips a pair whose argument has an illegal PCS after removing its
  GROUNDED marks and before deleting empty relations. Such an edge can
  therefore stay behind with no dialectics. `Inference.NoEmptyRelations` is
  stated for pairs with legal PCSs only.
- The two transformers decide AXIOMATIC differently:
  - the map transformer asks whether both endpoints are propositions;
  - the argument transformer asks only whether the reason is a
    `[label]` reason.
- `_next_non_comment_line` does not return what its name promises (see
  "## Findings"). `split_blocks` is modelled with it as written. The corrected
  splitter is a separate function; the two are proved equal unless a chunk
  opens with two comment lines, and shown to differ on such a chunk.

## Model

| member | source | states |
|---|---|---|
| Model.Dedup | src/pyargdown/model.py:264 | `list(set(xs))` holds exactly the elements of `xs`, each once |
| Strings.Strip | src/pyargdown/parser/preprocessor.py:81 | `str.strip()`: `LStrip` of `RStrip`, whose contracts say only whitespace is removed from each end; empty iff blank (`StripEmptyIffBlank`) |
| Strings.Split | src/pyargdown/parser/preprocessor.py:174 | `str.split(sep)`: at least one piece; joining the pieces restores the string (`JoinSplit`) |
| Strings.Join | src/pyargdown/parser/preprocessor.py:116 | `sep.join(parts)` |
| Strings.StartsWith | src/pyargdown/parser/preprocessor.py:64 | `str.startswith(p)`: `p` is a prefix |
| Strings.ReplaceChar | src/pyargdown/parser/argument_parser.py:515 | `str.replace(a, b)` for one character: same length, every `a` becomes `b`, every other character kept |
| Strings.IntToString | src/pyargdown/parser/base.py:27 | `%s` of an integer: its decimal digits, after `-` when negative |
| Model.GetProposition | src/pyargdown/model.py:272-277 | a result exists iff the label is a proposition node, and it is the node's stored proposition under that label |
| Model.GetArgument | src/pyargdown/model.py:342-347 | a result exists iff the label is an argument node, and it is the node's stored argument under that label |
| Model.GetDialecticalRelation | src/pyargdown/model.py:396-402 | `None` iff no relation runs from source to target; otherwise exactly the stored relations between the two, one per valence |
| Model.HasLegalPcs | src/pyargdown/model.py:410-423 | legal iff the PCS is non-empty, does not start with a conclusion and ends with one; an error message exactly when illegal |
| Model.SuffixedInjective | src/pyargdown/model.py:430-433 | different suffixes give different labels `label_i` |
| Model.FirstFreeSuffix | src/pyargdown/model.py:429-431 | the least suffix from `i` on whose label is not taken, when all before it are taken |
| Model.UniqueLabel | src/pyargdown/model.py:425-433 | the label itself if it is free, otherwise `label_i` for the least `i >= 1` not taken; never an existing label |
| Model.FirstMissingReference | src/pyargdown/model.py:306-311 | the first PCS entry whose proposition is not a node, or `None` when all are nodes |
| Model.MergedProposition | src/pyargdown/model.py:261-265 | the merged node holds the old and new texts, each once, and the old data overridden by the new |
| Model.MergedArgument | src/pyargdown/model.py:325-334 | the merged node holds the old and new gists, each once, the old data overridden by the new, and exactly the new PCS |
| Model.MergedEdge | src/pyargdown/model.py:387-389 | the merged relation carries the old and new dialectics and the old data overridden by the new |
| Model.UpdateProposition | src/pyargdown/model.py:261-265 | raises on a missing label and on an argument node; otherwise changes only that node, whose texts are the union of old and new (each once) and whose data is the old data overridden by the new |
| Model.AddProposition | src/pyargdown/model.py:248-257 | an existing label raises unless `allow_exists`, in which case it is `update_proposition`; a new label adds exactly that proposition and nothing else; node kinds never change |
| Model.UpdateArgument | src/pyargdown/model.py:317-334 | a non-empty illegal PCS under `check_legal` changes nothing; otherwise raises on a missing label or a proposition node, else merges gists and data and replaces the PCS, even by an empty one |
| Model.AddArgument | src/pyargdown/model.py:287-313 | an existing label raises unless `allow_exists` (then `update_argument`); a rejected PCS leaves the graph as it is; a PCS entry naming a missing node raises at the first such entry; otherwise exactly the argument is added |
| Model.UpdateDialecticalRelation | src/pyargdown/model.py:379-389 | raises when no relation has that (source, target, valence); otherwise only that relation changes: dialectics united, data overridden |
| Model.AddDialecticalRelation | src/pyargdown/model.py:357-375 | raises unless both endpoints are nodes, and when any relation source→target exists and `allow_exists` is off; otherwise exactly the relation under its key is merged or created, nodes untouched |
| Model.AddExistingPropositionMerges | src/pyargdown/model.py:248-265 | re-adding an existing proposition with `allow_exists` keeps every old and every new text |
| Inference.Anchor | src/pyargdown/model.py:485-487 | `get_proposition` of an anchor label: present iff the label is a proposition |
| Inference.Entails | src/pyargdown/model.py:435-450 | `_entails`: the same label, or an AXIOMATIC SUPPORT relation from the first to the second |
| Inference.Contradicts | src/pyargdown/model.py:452-462 | `_contradicts`: an AXIOMATIC ATTACK or CONTRADICT relation between the two, in either direction |
| Inference.Raises | src/pyargdown/model.py:435-501 | the pass raises iff some pair it compares, with legal PCSs, reaches an anchor that is not a proposition |
| Inference.PremiseAnchors | src/pyargdown/model.py:486-489 | one anchor per premise of the PCS, each present only when it names a proposition; non-empty for a PCS that starts with a premise |
| Inference.TargetAnchors | src/pyargdown/model.py:486-489 | the target anchors of a node with a legal PCS are never empty |
| Inference.Scan | src/pyargdown/model.py:435-495 | `any(...)` evaluated left to right: true only with a target the source entails/contradicts, false only when every comparison was made and failed, and no exception when all anchors are present |
| Inference.WithoutGrounded | src/pyargdown/model.py:475-478 | the relation keeps its data and loses only GROUNDED |
| Inference.WithGrounded | src/pyargdown/model.py:492-495 | adding a GROUNDED relation marks an existing one GROUNDED (data kept) or creates one with only GROUNDED |
| Inference.DropEmpty | src/pyargdown/model.py:498-501 | a relation is removed exactly when its dialectics are empty |
| Inference.StepIdempotent | src/pyargdown/model.py:474-501 | visiting a pair twice with the same outcome gives what visiting it once gives |
| Inference.Updated | src/pyargdown/model.py:464-501 | the pass keeps the node set |
| Inference.UpdatedAt | src/pyargdown/model.py:464-501 | every relation after the pass is the one prescribed for its pair, computed from the graph before the pass |
| Inference.GroundedSupportIff | src/pyargdown/model.py:480-493 | GROUNDED SUPPORT from u to v after the pass iff both PCSs are legal and u's source anchor equals, or has an AXIOMATIC SUPPORT edge to, some target anchor of v |
| Inference.GroundedAttackIff | src/pyargdown/model.py:452-495 | GROUNDED ATTACK from u to v after the pass iff both PCSs are legal and an AXIOMATIC ATTACK or CONTRADICT edge joins u's source anchor and some target anchor of v, in either direction |
| Inference.NoOtherGrounded | src/pyargdown/model.py:474-495 | CONTRADICT and UNDERCUT relations between the pairs the pass visits never carry GROUNDED afterwards |
| Inference.UntouchedPairs | src/pyargdown/model.py:467-472 | loops u→u and proposition–proposition pairs keep their relations |
| Inference.NoEmptyRelations | src/pyargdown/model.py:497-501 | after the pass, no relation of a visited pair with legal PCSs has empty dialectics |
| Inference.UpdatedConnectsNodes | src/pyargdown/model.py:464-501 | if every relation joins two nodes before the pass, the same holds after it |
| Inference.UpdatedDoesNotRaise | src/pyargdown/model.py:464-501 | a pass that did not raise leaves a graph on which the pass does not raise |
| Inference.UpdateIdempotent | src/pyargdown/model.py:464-501 | a second pass changes nothing |
| Inference.PropositionsOnlyUnchanged | src/pyargdown/model.py:471-472 | on a graph without arguments the pass neither raises nor changes anything |
| Inference.NoRaiseWhenPcsNamesPropositions | src/pyargdown/model.py:435-489 | the pass cannot raise when every PCS entry names a proposition |
| Inference.ChainIsGroundedSupport | tests/test_argdown_model.py:170-182 | A1 (P1 ⊢ P2) and A2 (P2 ⊢ P3): afterwards exactly one relation A1→A2, SUPPORT with only GROUNDED |
| Inference.RewiredByModelCalls | tests/test_argdown_model.py:182-183 | the rewired chain is what `AddProposition` of P4 and then `UpdateArgument` of A2 make of the chain after the pass |
| Inference.RewiringSteps | src/pyargdown/model.py:317-334 | on a graph with A2 and without P4 the two calls succeed, adding P4 and replacing A2's PCS, the edges untouched |
| Inference.RewiredLosesSupport | tests/test_argdown_model.py:184-187 | after A2's first premise becomes P4, the pass leaves no relation from A1 to A2 |
| Inference.ContradictedIsGroundedAttack | tests/test_argdown_model.py:189-194 | with an AXIOMATIC CONTRADICT edge P2→P4, the pass leaves exactly one relation A1→A2, ATTACK with only GROUNDED |
| MultiDiGraph.ArgdownMultiDiGraph.constructor | src/pyargdown/model.py:245-246 | a new graph is empty |
| MultiDiGraph.ArgdownMultiDiGraph.Copy | src/pyargdown/parser/argument_map_parser.py:305 | the deep copy holds the same nodes and relations as the original |
| MultiDiGraph.ArgdownMultiDiGraph.UpdateProposition | src/pyargdown/model.py:261-265 | raises and leaves the graph unchanged, or leaves exactly the graph `Model.UpdateProposition` prescribes |
| MultiDiGraph.ArgdownMultiDiGraph.AddProposition | src/pyargdown/model.py:248-257 | raises and leaves the graph unchanged, or leaves exactly the graph `Model.AddProposition` prescribes |
| MultiDiGraph.ArgdownMultiDiGraph.UpdateArgument | src/pyargdown/model.py:317-334 | raises and leaves the graph unchanged, or leaves exactly the graph `Model.UpdateArgument` prescribes |
| MultiDiGraph.ArgdownMultiDiGraph.AddArgument | src/pyargdown/model.py:287-313 | the loop over the PCS raises before anything is added, or the graph becomes what `Model.AddArgument` prescribes |
| MultiDiGraph.ArgdownMultiDiGraph.UpdateDialecticalRelation | src/pyargdown/model.py:379-389 | raises and leaves the graph unchanged, or leaves exactly the graph `Model.UpdateDialecticalRelation` prescribes |
| MultiDiGraph.ArgdownMultiDiGraph.AddDialecticalRelation | src/pyargdown/model.py:357-375 | raises and leaves the graph unchanged, or leaves exactly the graph `Model.AddDialecticalRelation` prescribes |
| MultiDiGraph.ArgdownMultiDiGraph.MakeLabelUnique | src/pyargdown/model.py:425-433 | the `while` loop returns `Model.UniqueLabel` of the current node labels |
| MultiDiGraph.ArgdownMultiDiGraph.StripGrounded | src/pyargdown/model.py:474-478 | only the relations from u to v change, each losing GROUNDED |
| MultiDiGraph.ArgdownMultiDiGraph.DropEmptyRelations | src/pyargdown/model.py:497-501 | only the relations from u to v change: those with empty dialectics are removed |
| MultiDiGraph.ArgdownMultiDiGraph.AnyHolds | src/pyargdown/model.py:492-495 | the `any(...)` loop computes `Inference.Scan` on the current graph |
| MultiDiGraph.ArgdownMultiDiGraph.AddGrounded | src/pyargdown/model.py:492-495 | only the relation under (u, v, valence) changes, to the GROUNDED-marked relation |
| MultiDiGraph.ArgdownMultiDiGraph.GroundPair | src/pyargdown/model.py:485-501 | for a pair with legal PCSs: succeeds iff no comparison raises, and then only the pair's relations change, as grounding by the probed outcome prescribes |
| MultiDiGraph.ArgdownMultiDiGraph.UpdatePair | src/pyargdown/model.py:467-501 | one inner iteration: succeeds iff the pair does not raise, and then only the pair's relations change, to their values after the pass |
| MultiDiGraph.ArgdownMultiDiGraph.UpdateRow | src/pyargdown/model.py:466-501 | the inner loop over v for one u: every visited pair holds its final relations, or the pass raises |
| MultiDiGraph.ArgdownMultiDiGraph.Update | src/pyargdown/model.py:464-501 | the nested loop succeeds iff the pass does not raise, and then leaves exactly `Inference.Updated` of the graph before it |
| MultiDiGraph.FirstFreeSuffixIsFirst | src/pyargdown/model.py:429-433 | the suffix where the loop stops is the one `Model.UniqueLabel` picks |
| MultiDiGraph.GroundedRelationAdded | src/pyargdown/model.py:492-495 | `add_dialectical_relation` of a GROUNDED edge between two nodes is the GROUNDED mark on that one relation |
| Base.ValenceOf | src/pyargdown/parser/argument_map_parser.py:235-255 | SUPPORT iff a *_PRO marker, ATTACK iff *_CON, UNDERCUT iff *_UNDERCUT, CONTRADICT iff CONTRADICT |
| Base.Orient | src/pyargdown/parser/argument_map_parser.py:222-233 | for LEFT_PRO, LEFT_CON, LEFT_UNDERCUT and CONTRADICT the edge runs child→parent; for the other markers parent→child |
| Base.UniqueUnnamedIsUnlabeled | src/pyargdown/parser/base.py:38-41 | labels generated from the two unnamed prefixes count as unlabeled |
| Base.IsUnlabeled | src/pyargdown/parser/base.py:33-41 | a label is unlabeled iff it is empty or starts with `UNNAMED_ARGUMENT` or `UNNAMED_PROPOSITION` |
| Base.SyntaxErrorMessage | src/pyargdown/parser/base.py:25-27 | `'%s at line %s, column %s.\n\n%s'` filled with the label, the line, the column and the context |
| Base.SuffixedStartsWith | src/pyargdown/model.py:425-433 | a label made unique still starts with the label asked for |
| Base.SyntaxErrorMessageParts | src/pyargdown/parser/base.py:25-27 | the message starts with `<label> at line ` and ends with `.` and a blank line before the context |
| Base.SyntaxErrorMessageLine | src/pyargdown/parser/base.py:25-27 | the line number can be read back from the message |
| Base.LoadablePosition | src/pyargdown/parser/base.py:47-58 | an index found holds a `{` from which the loader succeeds |
| Base.LoadablePositionFirst | src/pyargdown/parser/base.py:47-58 | the index found is the leftmost such `{`, and `None` means there is none |
| Base.ExtractedYaml | src/pyargdown/parser/base.py:44-59 | `(text, {})` when the right-stripped text does not end with `}` or no position loads |
| Base.ExtractedYamlLeftmost | src/pyargdown/parser/base.py:47-58 | with a leftmost loadable `{` at `i`, the result is the text before `i` right-stripped, with the loaded data |
| Base.ExtractYaml | src/pyargdown/parser/base.py:44-59 | returns `Base.ExtractedYaml` of the text: unchanged with `{}`, or split at the position the search finds |
| Base.FindLoadable | src/pyargdown/parser/base.py:47-58 | the `while True` loop over the `{` positions stops at `Base.LoadablePosition` from 0 |
| ArgumentMapParser.TextList | src/pyargdown/parser/argument_map_parser.py:207 | `[text] if text else []` is empty exactly for the empty text |
| ArgumentMapParser.ReasonText | src/pyargdown/parser/argument_map_parser.py:196-198 | a reason's text with its YAML mapping split off and stripped, and the mapping; no text gives `("", {})` |
| ArgumentMapParser.RegisterProposition | src/pyargdown/parser/argument_map_parser.py:202-211 | succeeds iff the label is not an argument, and then the label is a proposition; node kinds and edges are kept |
| ArgumentMapParser.RegisterArgument | src/pyargdown/parser/argument_map_parser.py:212-218 | succeeds iff the label is not a proposition, and then the label is an argument; node kinds and edges are kept |
| ArgumentMapParser.RegisterReason | src/pyargdown/parser/argument_map_parser.py:194-219 | `[label]` gives a proposition and `<label>` an argument under that label, failing only on a node of the other kind; bare text gets a fresh unlabeled label and never fails |
| ArgumentMapParser.AddReasonRelation | src/pyargdown/parser/argument_map_parser.py:222-266 | succeeds iff both labels are nodes; then only the relation under (oriented endpoints, valence) changes, AXIOMATIC if both are propositions and SKETCHED otherwise |
| ArgumentMapParser.ChildEdges | src/pyargdown/parser/argument_map_parser.py:221-266 | drawing the children's relations keeps the nodes, and succeeds exactly when the parent (if there is a child) and every child are nodes |
| ArgumentMapParser.ChildEdgesFramed | src/pyargdown/parser/argument_map_parser.py:221-266 | on success the relations are the old ones plus one per child key (`ChildKey`: the oriented endpoints and the marker's valence); every other relation is unchanged and no dialectic is lost |
| ArgumentMapParser.ChildEdgesDraws | src/pyargdown/parser/argument_map_parser.py:225-266 | on success every child's key is a relation that carries AXIOMATIC when parent and child are both propositions and SKETCHED otherwise (`MarkedFor`) |
| ArgumentMapParser.TransformChild | src/pyargdown/parser/argument_map_parser.py:268-272 | a child returns its own marker and a label that is a node, the label `RegisterReason` gives its reason; node kinds are kept |
| ArgumentMapParser.TransformChildren | src/pyargdown/parser/argument_map_parser.py:269-271 | the children return one (marker, label) pair each, in order, markers as written |
| ArgumentMapParser.TransformRoot | src/pyargdown/parser/argument_map_parser.py:274-277 | a root returns a label that is a node, the label `RegisterReason` gives its reason; node kinds are kept |
| ArgumentMapParser.TransformMap | src/pyargdown/parser/argument_map_parser.py:307-309 | transforming all roots keeps every node and its kind |
| ArgumentMapParser.IngestAllOrNothing | src/pyargdown/parser/argument_map_parser.py:304-314 | a failed transform returns the original graph; a successful one returns a graph on which the inference pass is idle |
| ArgumentMapParser.IngestKeepsNodes | src/pyargdown/parser/argument_map_parser.py:304-314 | ingesting never loses a node or changes its kind |
| ArgumentMapParser.ArgumentMentionClearsPcs | src/pyargdown/parser/argument_map_parser.py:212-218 | mentioning an existing argument `<A>` in a map succeeds and resets its PCS to empty |
| ArgumentMapParser.RegisterReasonKeepsNames | src/pyargdown/parser/argument_map_parser.py:194-219 | registering a reason keeps every PCS entry naming a proposition |
| ArgumentMapParser.MapKeepsNames | src/pyargdown/parser/argument_map_parser.py:307-309 | transforming a map keeps every PCS entry naming a proposition |
| ArgumentMapParser.IngestNeverRaises | src/pyargdown/parser/argument_map_parser.py:304-314 | when every PCS entry names a proposition, ingesting never raises from `_update`, and the property is kept |
| ArgumentMapParser.ArgumentMapTreeTransformer.constructor | src/pyargdown/parser/argument_map_parser.py:189-191 | the transformer works on the graph it is given |
| ArgumentMapParser.ArgumentMapTreeTransformer.Reason | src/pyargdown/parser/argument_map_parser.py:193-219 | the callback returns the label and leaves the graph `RegisterReason` prescribes, or raises without changing the graph |
| ArgumentMapParser.ArgumentMapTreeTransformer.ProcessChildren | src/pyargdown/parser/argument_map_parser.py:221-266 | the loop over the children leaves the graph `ChildEdges` prescribes, or raises its error |
| ArgumentMapParser.ArgumentMapTreeTransformer.Child | src/pyargdown/parser/argument_map_parser.py:268-272 | the bottom-up walk of one child agrees with `TransformChild` |
| ArgumentMapParser.ArgumentMapTreeTransformer.Children | src/pyargdown/parser/argument_map_parser.py:269-271 | the children, left to right, agree with `TransformChildren` |
| ArgumentMapParser.ArgumentMapTreeTransformer.Root | src/pyargdown/parser/argument_map_parser.py:274-277 | the walk of one root agrees with `TransformRoot` |
| ArgumentMapParser.ArgumentMapTreeTransformer.Transform | src/pyargdown/parser/argument_map_parser.py:307-309 | the walk of all roots agrees with `TransformMap` |
| ArgumentMapParser.IngestInArgmap | src/pyargdown/parser/argument_map_parser.py:303-314 | raises iff `_update` raises; otherwise the result is `Ingest`: the original object when the transform fails, a fresh copy otherwise |
| ArgumentMapParser.Ingest | src/pyargdown/parser/argument_map_parser.py:303-314 | `ingest_in_argmap`: the original graph when the transform fails, otherwise the transformed graph after `_update`, or `None` when `_update` raises |
| ArgumentMapParser.ClaimFirstGraph | tests/test_argument_map_transformer.py:30-45 | the map `[C]` with `+ [Pro1]` and `- [Con1]`, `[Con1]` with `- [Rbt1]`, gives four propositions and exactly the AXIOMATIC relations Pro1→C SUPPORT, Con1→C ATTACK, Rbt1→Con1 ATTACK |
| ArgumentMapParser.ProFirstGraph | tests/test_argument_map_transformer.py:47-59 | writing `[Pro1]` with `+> [C]` above it gives the same graph as writing `+ [Pro1]` under `[C]` |
| ArgumentMapParser.IngestClaimFirst | tests/test_argument_map_transformer.py:37-45 | ingesting the first map into an empty graph gives exactly that graph |
| ArgumentMapParser.IngestProFirst | tests/test_argument_map_transformer.py:47-59 | ingesting the second map gives the same graph |
| ArgumentMapParser.IngestPropositionsOnly | src/pyargdown/parser/argument_map_parser.py:313-314 | when the transform leaves only propositions, ingesting returns the transformed graph itself |
| ArgumentParser.Lift | src/pyargdown/parser/argument_parser.py:660-666 | a graph error becomes a transform error and a success is kept |
| ArgumentParser.HeadInfoOf | src/pyargdown/parser/argument_parser.py:473-479 | the head keeps its label; without text its text is empty and its data too; without a loadable mapping its text is the stripped text |
| ArgumentParser.SynthesizedLabel | src/pyargdown/parser/argument_parser.py:512-516 | ends with `UNNAMED_PREMISE_<n>` or `UNNAMED_CONCLUSION_<n>`; without a head nothing comes before it, with a head the head label with spaces replaced by `_` does, followed by exactly one `_` (the length is the head's plus one plus the name's) |
| ArgumentParser.EntryLabel | src/pyargdown/parser/argument_parser.py:509-517 | an explicit `[label]` is kept; otherwise the label is fresh and starts with the synthesised label |
| ArgumentParser.EntryLabelPrefix | src/pyargdown/parser/argument_parser.py:514-517 | a label synthesised under a head starts with the head label, spaces replaced by `_` |
| ArgumentParser.EntryText | src/pyargdown/parser/argument_parser.py:518-521 | at most one text; none and no data for an absent text; the text itself when it has no loadable mapping |
| ArgumentParser.RegisterEntry | src/pyargdown/parser/argument_parser.py:520-526 | raises on an argument label; adds the proposition when the label is absent; merges it with `update_proposition` when it is a proposition; only that node changes |
| ArgumentParser.PyInner | src/pyargdown/parser/argument_parser.py:544 | Python's `s[2:-2]`: the string without its first and last two characters, empty when shorter than four |
| ArgumentParser.InferenceInfo | src/pyargdown/parser/argument_parser.py:542-548 | an absent annotation gives `None` and no data; no information never comes with data |
| ArgumentParser.DashedInfo | src/pyargdown/parser/argument_parser.py:542-548 | the line `-- m --` yields `m` with its YAML mapping split off |
| ArgumentParser.ModusPonensInfo | src/pyargdown/parser/argument_parser.py:542-548 | `-- Modus ponens --` yields `Modus ponens` and no data |
| ArgumentParser.YamlInfo | tests/test_argument_transformer.py:104-116 | `-- {"uses": ["1"]} --` yields empty information and the loaded mapping as inference data |
| ArgumentParser.TransformPremise | src/pyargdown/parser/argument_parser.py:506-528 | succeeds iff the entry label is not an argument; then it returns a premise reference to that label, which is a proposition; edges and kinds kept |
| ArgumentParser.TransformConclusion | src/pyargdown/parser/argument_parser.py:530-563 | as for a premise, and the returned conclusion carries the inference information and data of its annotation |
| ArgumentParser.TransformReason | src/pyargdown/parser/argument_parser.py:565-635 | registers the reason as the map transformer does; the pending edge has the marker's direction and valence, AXIOMATIC iff the reason has a `[label]`, SKETCHED otherwise |
| ArgumentParser.TransformItem | src/pyargdown/parser/argument_parser.py:506-635 | a statement gives a PCS entry matching it whose label is a proposition; a reason gives a pending edge whose label is a node |
| ArgumentParser.TransformItems | src/pyargdown/parser/argument_parser.py:482-484 | the body callbacks give one matching item per line, in order |
| ArgumentParser.Entries | src/pyargdown/parser/argument_parser.py:485-486 | the PCS entries among the items |
| ArgumentParser.Resolve | src/pyargdown/parser/argument_parser.py:491-494 | the placeholder end of an embedded reason's edge becomes the given PCS entry label; the other end, valence and dialectic are kept |
| ArgumentParser.ResolveBody | src/pyargdown/parser/argument_parser.py:482-504 | the PCS is the entries in source order; nodes are kept and relations only grow; a reason before any entry fails |
| ArgumentParser.EntriesFollowLines | src/pyargdown/parser/argument_parser.py:482-504 | the k-th PCS entry belongs to the k-th premise or conclusion line |
| ArgumentParser.EmbeddedReasonDrawn | src/pyargdown/parser/argument_parser.py:487-499 | each embedded reason's relation is drawn to the last PCS entry before it and carries its dialectic |
| ArgumentParser.NoEntryBeforeReason | src/pyargdown/parser/argument_parser.py:488-490 | a reason with no entry before it makes the body fail |
| ArgumentParser.StartArgument | src/pyargdown/parser/argument_parser.py:457-468 | the argument holds the PCS; without a head its label is fresh and unlabeled, gists and data empty; with a head it takes the head's label and data, and one gist iff the head text is non-empty |
| ArgumentParser.Started | src/pyargdown/parser/argument_parser.py:447-470 | `add_argument(..., allow_exists=True)`: an illegal PCS leaves the graph as it is; a legal PCS of propositions succeeds iff the label is not a proposition, and then the argument holds that PCS |
| ArgumentParser.TransformTree | src/pyargdown/parser/argument_parser.py:447-504 | transforming a block keeps every node and its kind |
| ArgumentParser.TransformedArgument | src/pyargdown/parser/argument_parser.py:447-563 | the argument's PCS has one entry per statement line, in order, each a proposition; a legal PCS is stored; a headless argument is unlabeled with no gists |
| ArgumentParser.TreeKeepsNames | src/pyargdown/parser/argument_parser.py:447-635 | transforming a block keeps every PCS entry naming a proposition |
| ArgumentParser.IngestAllOrNothing | src/pyargdown/parser/argument_parser.py:657-668 | a failed transform returns the original graph; a successful one returns a graph on which the inference pass is idle |
| ArgumentParser.IngestNeverRaises | src/pyargdown/parser/argument_parser.py:657-668 | when every PCS entry names a proposition, ingesting never raises from `_update`, and the property is kept |
| ArgumentParser.Block2Transform | tests/test_argument_transformer.py:77-88 | the headless block `(1) Premise.` / `----` / `(2) Conclusion.` gives two unnamed propositions and `UNNAMED_ARGUMENT` with PCS premise 1, conclusion 2 |
| ArgumentParser.IngestBlock2 | tests/test_argument_transformer.py:77-88 | after ingesting that block, `UNNAMED_ARGUMENT` is an argument with no gists |
| ArgumentParser.ArgumentTreeTransformer.constructor | src/pyargdown/parser/argument_parser.py:442-445 | starts without a current argument label |
| ArgumentParser.ArgumentTreeTransformer.ArgumentHead | src/pyargdown/parser/argument_parser.py:472-479 | returns the head information and records the head label as the current argument label |
| ArgumentParser.ArgumentTreeTransformer.StatementLabel | src/pyargdown/parser/argument_parser.py:509-517 | the label of a statement is `EntryLabel` under the current argument label |
| ArgumentParser.ArgumentTreeTransformer.Statement | src/pyargdown/parser/argument_parser.py:518-526 | adds or merges the proposition as `RegisterEntry` prescribes, or raises without changing the graph |
| ArgumentParser.ArgumentTreeTransformer.Premise | src/pyargdown/parser/argument_parser.py:506-528 | agrees with `TransformPremise` |
| ArgumentParser.ArgumentTreeTransformer.Conclusion | src/pyargdown/parser/argument_parser.py:530-563 | agrees with `TransformConclusion` |
| ArgumentParser.ArgumentTreeTransformer.RegisterReason | src/pyargdown/parser/argument_parser.py:575-593 | agrees with `ArgumentMapParser.RegisterReason` |
| ArgumentParser.ArgumentTreeTransformer.Reason | src/pyargdown/parser/argument_parser.py:565-635 | agrees with `TransformReason` |
| ArgumentParser.ArgumentTreeTransformer.Visit | src/pyargdown/parser/argument_parser.py:506-635 | dispatching one body line agrees with `TransformItem` |
| ArgumentParser.ArgumentTreeTransformer.Items | src/pyargdown/parser/argument_parser.py:482-484 | the body lines, left to right, agree with `TransformItems` |
| ArgumentParser.ArgumentTreeTransformer.ArgumentBody | src/pyargdown/parser/argument_parser.py:481-504 | the loop over the items agrees with `ResolveBody` |
| ArgumentParser.ArgumentTreeTransformer.Start | src/pyargdown/parser/argument_parser.py:447-470 | agrees with `Started` |
| ArgumentParser.ArgumentTreeTransformer.Transform | src/pyargdown/parser/argument_parser.py:661-663 | the whole walk agrees with `TransformTree` |
| ArgumentParser.IngestInArgmap | src/pyargdown/parser/argument_parser.py:657-668 | raises iff `_update` raises; otherwise the result is `Ingest`: the original object when the transform fails, a fresh copy otherwise |
| ArgumentParser.Ingest | src/pyargdown/parser/argument_parser.py:657-668 | `ingest_in_argmap`: the original graph when the transform fails, otherwise the transformed graph after `_update`, or `None` when `_update` raises |
| Preprocessor.LinesOfUnlines | src/pyargdown/parser/preprocessor.py:115-116 | splitting at `\n` undoes joining lines that hold no `\n` |
| Preprocessor.RunEnd | src/pyargdown/parser/preprocessor.py:82 | the end of a maximal run of characters of one class |
| Preprocessor.IsPcsLine | src/pyargdown/parser/preprocessor.py:80-84 | `_maybe_pcs_line`: the stripped line is `(`, a run of upper-case letters, a run of at least one digit, `)` and a whitespace character, then anything (stated by `PcsLineIff`) |
| Preprocessor.IsReasonLine | src/pyargdown/parser/preprocessor.py:86-99 | `_maybe_reason_line`: a root reason line (`[`, `<`) or a relation line (`+`, `-`, `_>`, `><` and the markers that start with them); stated by `ReasonLineIff` |
| Preprocessor.IsInferenceLine | src/pyargdown/parser/preprocessor.py:101-103 | `_maybe_inference_line`: the stripped line starts with `--` |
| Preprocessor.IsCommentLine | src/pyargdown/parser/preprocessor.py:63-66 | the stripped line starts with `//` |
| Preprocessor.PcsLineIff | src/pyargdown/parser/preprocessor.py:80-84 | a PCS line iff the stripped line is `(`, upper-case letters, at least one digit, `)` and a whitespace character |
| Preprocessor.ReasonLineIff | src/pyargdown/parser/preprocessor.py:86-99 | a reason line iff the stripped line starts with one of `[`, `<`, `+`, `-`, `_>`, `><` |
| Preprocessor.InferenceLineIsReasonLine | src/pyargdown/parser/preprocessor.py:95-103 | every inference line (`--`) is also a reason line |
| Preprocessor.CommentLineContains | src/pyargdown/parser/preprocessor.py:134 | a comment line contains `//` |
| Preprocessor.SubDelimited | src/pyargdown/parser/preprocessor.py:23-34 | `re.sub` of a non-greedy delimited pattern: no opening delimiter means no change; deleting never adds characters |
| Preprocessor.KeptLines | src/pyargdown/parser/preprocessor.py:29-36 | cleaning line by line never gives more lines |
| Preprocessor.KeptLinesAppend | src/pyargdown/parser/preprocessor.py:30-36 | the line loop treats each line on its own |
| Preprocessor.KeptLinesIdentity | src/pyargdown/parser/preprocessor.py:30-36 | when every line cleans to itself, the loop changes nothing |
| Preprocessor.KeptBlanks | src/pyargdown/parser/preprocessor.py:29-36 | a line cleaner that keeps blank lines verbatim and never makes a line blank keeps exactly the blank lines, in order |
| Preprocessor.UnlinesKept | src/pyargdown/parser/preprocessor.py:29-38 | joining the kept lines with `\n` and splitting again gives them back, and the output is empty when no line was kept |
| Preprocessor.JsLine | src/pyargdown/parser/preprocessor.py:51-58 | a blank line is kept verbatim; a non-blank `//` comment line is dropped; any other line loses its `/* … */` comments and is dropped exactly when that leaves it blank; a kept line is made of the line's characters |
| Preprocessor.HtmlLine | src/pyargdown/parser/preprocessor.py:30-36 | a blank line is kept verbatim; any other line loses its `<!-- … -->` comments and is dropped exactly when that leaves it blank; a kept line is made of the line's characters |
| Preprocessor.JsCommentsRemoved | src/pyargdown/parser/preprocessor.py:41-60 | `remove_js_comments`: comments spanning lines shrink to `/* c */`, then each line is cleaned by `JsLine` and the kept lines are joined with `\n` |
| Preprocessor.HtmlCommentsRemoved | src/pyargdown/parser/preprocessor.py:21-38 | `remove_html_comments`: the same with `<!-- c -->` and `HtmlLine` |
| Preprocessor.JsCommentsKeepBlankLines | src/pyargdown/parser/preprocessor.py:41-60 | the blank lines of the output are exactly those of the text after shrinking, in order, so a line that a comment leaves blank is dropped; an empty output with no blank line in the text is the case of no line kept |
| Preprocessor.HtmlCommentsKeepBlankLines | src/pyargdown/parser/preprocessor.py:21-38 | the same for `remove_html_comments` |
| Preprocessor.DropCommentLine | src/pyargdown/parser/preprocessor.py:54-55 | the `//` rule alone: a non-blank comment line is dropped, every other line kept as it is |
| Preprocessor.JsLineCommentsDropped | src/pyargdown/parser/preprocessor.py:41-60 | a text without `/*` loses exactly its `//` comment lines, every other line kept verbatim |
| Preprocessor.RemoveJsComments | src/pyargdown/parser/preprocessor.py:41-60 | returns `JsCommentsRemoved` of the text |
| Preprocessor.CleanJsLines | src/pyargdown/parser/preprocessor.py:49-58 | the line loop keeps `KeptLines` of the lines under `JsLine` |
| Preprocessor.JsCleanLine | src/pyargdown/parser/preprocessor.py:51-58 | one pass of the loop yields `JsLine` of the line |
| Preprocessor.RemoveHtmlComments | src/pyargdown/parser/preprocessor.py:21-38 | returns `HtmlCommentsRemoved` of the text |
| Preprocessor.CleanHtmlLines | src/pyargdown/parser/preprocessor.py:29-36 | the line loop keeps `KeptLines` of the lines under `HtmlLine` |
| Preprocessor.HtmlCleanLine | src/pyargdown/parser/preprocessor.py:31-36 | one pass of the loop yields `HtmlLine` of the line |
| Preprocessor.JsCommentFree | src/pyargdown/parser/preprocessor.py:41-60 | a text without `/*` and `//` comes back unchanged |
| Preprocessor.HtmlCommentFree | src/pyargdown/parser/preprocessor.py:21-38 | a text without `<!--` comes back unchanged |
| Preprocessor.CutComments | src/pyargdown/parser/preprocessor.py:136-137 | removing inline comments adds no line break |
| Preprocessor.CutAtLineComment | src/pyargdown/parser/preprocessor.py:140-141 | cutting at the first `//` leaves no `//` and no line break |
| Preprocessor.HandlerLine | src/pyargdown/parser/preprocessor.py:133-142 | a `//` line is dropped; a blank line is kept as it is; any other line is dropped exactly when cutting its comments leaves it blank; a kept line is the cut line, cut again at its first `//` and right-stripped when it holds one; a kept line holds no `//` and no line break |
| Preprocessor.HandlerKeepsEmptyCut | src/pyargdown/parser/preprocessor.py:136-141 | a line such as `<!-- a --> // b`, whose cut rest is not blank but is blank before its `//`, is kept as the empty string |
| Preprocessor.BlankLineUncut | src/pyargdown/parser/preprocessor.py:134-139 | a blank line is no `//` line, loses nothing to the comment patterns and holds no `//` |
| Preprocessor.LineCommentsCut | src/pyargdown/parser/preprocessor.py:126-143 | for a block without `<!--` and `/*` the handler drops exactly the `//` lines, keeps the other lines, blank ones included, and cuts those that hold `//` at the first one (`LineCommentRule`) |
| Preprocessor.RemoveComments | src/pyargdown/parser/preprocessor.py:126-143 | the loop computes `CommentsRemoved` |
| Preprocessor.CleanLine | src/pyargdown/parser/preprocessor.py:134-142 | one pass of the loop yields `HandlerLine` of the line: dropped, or cleaned and kept |
| Preprocessor.NoLineCommentLeft | src/pyargdown/parser/preprocessor.py:126-143 | the handler keeps the block kind and leaves no line containing `//` |
| Preprocessor.CommentsHandlerFree | src/pyargdown/parser/preprocessor.py:126-143 | a block without `<!--`, `/*` and `//` comes back unchanged |
| Preprocessor.CommentsRemoved | src/pyargdown/parser/preprocessor.py:126-143 | `RemoveCommentsHandler`: the block's lines cleaned by `HandlerLine`, the kind kept |
| Preprocessor.StripLines | src/pyargdown/parser/preprocessor.py:115-122 | one stripped (or right-stripped) line per line |
| Preprocessor.StripLinesRoundTrip | src/pyargdown/parser/preprocessor.py:115-123 | the stripped lines are exactly the lines of the handler's output |
| Preprocessor.RemoveWhitespace | src/pyargdown/parser/preprocessor.py:111-116 | kind kept; a map block unchanged; an argument block has as many lines, each the stripped original |
| Preprocessor.RemoveTrailingWhitespace | src/pyargdown/parser/preprocessor.py:118-123 | kind kept; a map block unchanged; an argument block has as many lines, each the right-stripped original |
| Preprocessor.RemoveWhitespaceIdempotent | src/pyargdown/parser/preprocessor.py:111-116 | applying the handler twice equals applying it once |
| Preprocessor.RemoveTrailingWhitespaceIdempotent | src/pyargdown/parser/preprocessor.py:118-123 | applying the handler twice equals applying it once |
| Preprocessor.CollapseStep | src/pyargdown/parser/preprocessor.py:150-161 | one line adds an output line or extends the last one |
| Preprocessor.Collapsed | src/pyargdown/parser/preprocessor.py:148-161 | never more output lines than input lines, and at least one for a non-empty input |
| Preprocessor.CollapseLines | src/pyargdown/parser/preprocessor.py:145-162 | the loop computes `CollapsedBlock` |
| Preprocessor.CollapsedBlock | src/pyargdown/parser/preprocessor.py:145-162 | `CollapseLinesHandler`: the block's lines collapsed, the kind kept |
| Preprocessor.CollapsedNoNewline | src/pyargdown/parser/preprocessor.py:148-161 | collapsing introduces no line break inside a line |
| Preprocessor.CollapseLineCount | src/pyargdown/parser/preprocessor.py:145-162 | the block kind is kept and the line count never grows |
| Preprocessor.CollapsedKeepsNonSpace | src/pyargdown/parser/preprocessor.py:148-161 | the non-whitespace characters of the lines, in order, are exactly those of the input |
| Preprocessor.CollapseKeepsNonSpace | src/pyargdown/parser/preprocessor.py:145-162 | no non-whitespace character of a block is lost, added or reordered |
| Preprocessor.CollapsedIdentity | src/pyargdown/parser/preprocessor.py:151-159 | when every line opens an output line of its own, nothing changes |
| Preprocessor.CollapseIdentityBlock | src/pyargdown/parser/preprocessor.py:145-162 | a block whose every line after the first is blank, a PCS, reason or inference line, or follows an inference line, is unchanged |
| Preprocessor.NonBlank | src/pyargdown/parser/preprocessor.py:70 | the non-blank lines, none blank |
| Preprocessor.NonBlankAppend | src/pyargdown/parser/preprocessor.py:70 | the filter treats each line on its own |
| Preprocessor.NonBlankIdentity | src/pyargdown/parser/preprocessor.py:75 | filtering non-blank lines again changes nothing |
| Preprocessor.AsWrittenContentLine | src/pyargdown/parser/preprocessor.py:68-76 | the first non-blank line, or the second one when the first is a comment; `None` only for a chunk with no non-blank line, or with one that is a comment |
| Preprocessor.MaybeRemoveInitialComment | src/pyargdown/parser/preprocessor.py:63-66 | drops the first line exactly when it is a comment line |
| Preprocessor.NextNonCommentLine | src/pyargdown/parser/preprocessor.py:68-76 | the loop as written returns the first non-blank line, or the second when the first is a comment (see Findings) |
| Preprocessor.FirstNonComment | src/pyargdown/parser/preprocessor.py:68-76 | the index of the first non-comment line from `i` on, or `None` when all are comments |
| Preprocessor.FirstContentLine | src/pyargdown/parser/preprocessor.py:68-76 | the first line that is neither blank nor a comment, as the function's name promises |
| Preprocessor.ContentLinesAgree | src/pyargdown/parser/preprocessor.py:68-76 | as written and corrected agree unless the first two non-blank lines are both comments |
| Preprocessor.TwoLeadingCommentLines | src/pyargdown/parser/preprocessor.py:68-76 | the chunk's first two non-blank lines are both comments: the only case in which as written and corrected differ |
| Preprocessor.CommentIsNoPcsLine | src/pyargdown/parser/preprocessor.py:80-84 | a comment line is never a PCS line |
| Preprocessor.TwoLeadingComments | src/pyargdown/parser/preprocessor.py:68-185 | with two comment lines before a PCS line, the code as written returns the second comment, which is no PCS line, while the corrected line is the PCS line and the chunk continues the argument |
| Preprocessor.TwoLeadingCommentsExample | src/pyargdown/parser/preprocessor.py:68-76 | on `// a`, `// b`, `(1) P.` the code as written returns `// b`; the corrected version returns `(1) P.` |
| Preprocessor.ContinuesAsWritten | src/pyargdown/parser/preprocessor.py:182-183 | the test of `split_blocks` as written: `_next_non_comment_line` returns a non-empty PCS line |
| Preprocessor.ContinuesArgument | src/pyargdown/parser/preprocessor.py:182-183 | the corrected test: the first content line is a non-empty PCS line |
| Preprocessor.ContinuesAgree | src/pyargdown/parser/preprocessor.py:68-183 | the two tests agree on a chunk that does not open with two comment lines |
| Preprocessor.AddChunk | src/pyargdown/parser/preprocessor.py:175-187 | one pass of the loop: a blank chunk is skipped; the first chunk is a map block; a chunk that passes the test is appended to the last block with `\n\n`, which becomes an argument block; any other is a new map block |
| Preprocessor.Blocks | src/pyargdown/parser/preprocessor.py:174-187 | no block is blank |
| Preprocessor.KeepNonEmpty | src/pyargdown/parser/preprocessor.py:189 | the final filter never adds blocks |
| Preprocessor.KeepNonEmptyDropsNothing | src/pyargdown/parser/preprocessor.py:189 | the final filter drops nothing from blocks that are not blank |
| Preprocessor.Texts | src/pyargdown/parser/preprocessor.py:184 | the texts of the blocks, one each, in order |
| Preprocessor.SplitBlocksAsWritten | src/pyargdown/parser/preprocessor.py:167-190 | `split_blocks` as written: the chunks at `\n\n`, classified with `ContinuesAsWritten`, blocks that strip to nothing dropped |
| Preprocessor.SplitBlocksCorrected | src/pyargdown/parser/preprocessor.py:167-190 | the same splitter with `ContinuesArgument` |
| Preprocessor.BlocksClassification | src/pyargdown/parser/preprocessor.py:175-187 | for any continuation test, so for both `ContinuesAsWritten` and `ContinuesArgument`: a blank chunk is skipped; the first kept chunk starts a map block; a chunk that passes the test extends the last block, which becomes an argument block; any other starts a new map block |
| Preprocessor.BlocksJoin | src/pyargdown/parser/preprocessor.py:174-187 | joining the blocks with `\n\n` equals joining the non-blank chunks, and there are no blocks iff there are no non-blank chunks |
| Preprocessor.SplitBlocksRestoresText | src/pyargdown/parser/preprocessor.py:167-190 | for the splitter as written and the corrected one: when no chunk is blank, joining the blocks with `\n\n` gives back the text |
| Preprocessor.BlocksAgree | src/pyargdown/parser/preprocessor.py:174-187 | the blocks as written and corrected are the same when no chunk opens with two comment lines |
| Preprocessor.SplitBlocksAgree | src/pyargdown/parser/preprocessor.py:167-190 | `split_blocks` as written equals the corrected splitter when no chunk opens with two comment lines |
| Preprocessor.SplitsDiffer | src/pyargdown/parser/preprocessor.py:174-187 | after a non-blank chunk, a chunk of two comment lines and a PCS line starts a second map block as written, while corrected it continues the first chunk as one argument block |
| Preprocessor.TwoChunks | src/pyargdown/parser/preprocessor.py:174-187 | two non-blank chunks give one argument block when the second passes the test, two map blocks otherwise |
| Preprocessor.Apply | src/pyargdown/parser/preprocessor.py:111-162 | every handler keeps the block kind |
| Preprocessor.ApplyAllKeepsKind | src/pyargdown/parser/preprocessor.py:199-202 | a chain of handlers keeps the block kind |
| Preprocessor.ApplyAllConcat | src/pyargdown/parser/preprocessor.py:199-202 | running two chains one after the other equals running their concatenation |
| Preprocessor.Preprocessor.constructor | src/pyargdown/parser/preprocessor.py:192-193 | a new preprocessor has no handlers |
| Preprocessor.Preprocessor.AddHandler | src/pyargdown/parser/preprocessor.py:195-197 | appends the handler and returns the same object |
| Preprocessor.Preprocessor.Process | src/pyargdown/parser/preprocessor.py:199-202 | the loop applies the handlers in the order they were added |
| Preprocessor.Preprocessor.SplitBlocks | src/pyargdown/parser/preprocessor.py:167-190 | the loop, calling `NextNonCommentLine` as `split_blocks` calls `_next_non_comment_line`, returns `SplitBlocksAsWritten` of the text |

## Left out

- Lark grammars and LALR parsing (`ARGDOWN_MAP_GRAMMAR`, `ARGDOWN_ARGUMENT_GRAMMAR`, `ArgdownMapIndenter`, the `parse` methods and their error matching): they run inside a third-party library. The transformers take tree datatypes instead.
- `yaml.safe_load`: a foreign library, so the loader is a function parameter. The `Value` datatype has no floats.
- networkx internals and `copy.deepcopy`: the graph is two Dafny maps, and the copy is `ArgdownMultiDiGraph.Copy`.
- Logging calls: side effects only.
- `remove_proposition`, `remove_argument` and `remove_dialectical_relation`: they only raise `NotImplementedError`.
- The `propositions`, `arguments` and `dialectical_relations` properties: plain listings of the maps.
- The `update_edges` keyword of the add/update methods: no caller in the core passes it.
- The exception texts: errors are constructors of `GraphError` and `TransformError`. The syntax-error format is modelled in `Base.SyntaxErrorMessage`, but the classes that raise it belong to the parsers.
- The internal `ValueError`s the datatypes rule out (an unknown relation marker, a PCS item of the wrong type, a start rule with more than two children, an embedded reason without a placeholder): they cannot arise.
- `Argument.from_dict` and `ArgdownEdge.from_dict`: dictionary-to-dataclass conversion, not needed with datatypes.
- `AbstractPreprocessorHandler`: a handler is a constructor of the `Handler` datatype.
- `src/pyargdown/parser/main.py`: it fixes the handler order and dispatches blocks to the parsers. It is not part of this model.
- The label token brackets (`label[1:-1]`): reason and head labels enter the model without their brackets.
- `\d` and `\s` in the PCS-line pattern: modelled as ASCII digits and `str.isspace` characters, not Unicode classes.
- Model.Dedup: `list(set(...))` leaves the order of texts, gists and dialectics open. The model keeps first occurrences, and the contracts state only the elements and their uniqueness.
- Inference.NoEmptyRelations: stated only for pairs whose PCSs are legal, because `_update` skips the deletion for the others.
- Model.GetDialecticalRelation: returns the set of relations between the two nodes. networkx returns them as a list in insertion order; nothing in the core depends on that order.
- ArgumentMapParser.TransformMap: its own contract states only that node kinds are kept. The exact graphs are stated by the scenario lemmas and `IngestAllOrNothing`.

## Findings

| source | as written | input that shows it | evidently intended | confidence | as-written member | corrected member |
|---|---|---|---|---|---|---|
| src/pyargdown/parser/preprocessor.py:68-76 | `_next_non_comment_line` removes at most one leading comment line and then returns the next non-blank line, even when that line is a comment | the chunk `// a`, `// b`, `(1) P.` gives `// b`, which is no PCS line, so `split_blocks` starts a new map block instead of continuing the argument | the first non-blank line that is not a `//` comment, here `(1) P.` | medium, not executed | Preprocessor.NextNonCommentLine and Preprocessor.SplitBlocksAsWritten (computed by Preprocessor.Preprocessor.SplitBlocks), with Preprocessor.TwoLeadingComments, Preprocessor.TwoLeadingCommentsExample and Preprocessor.SplitsDiffer | Preprocessor.FirstContentLine and Preprocessor.SplitBlocksCorrected, with Preprocessor.SplitBlocksAgree |
