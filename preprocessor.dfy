/** `preprocessor.py`: the split of an Argdown document into map and argument
    blocks at blank lines, the line classifiers that guide it, and the chain of
    line-level handlers (comments, whitespace, soft-wrapped lines) that
    normalises one block before it is parsed. */
module Preprocessor {
  import opened Wrappers
  import opened Strings

  // ------------------------------------------------------------------- blocks

  /** The two subclasses of `ArgdownCodeBlock`. */
  datatype BlockKind = MapBlock | ArgumentBlock

  /** `ArgumentMapBlock(text)` or `ArgumentBlock(text)`: a string tagged with its kind. */
  datatype Block = Block(kind: BlockKind, text: string)

  /** `s.split("\n")` */
  function Lines(s: string): seq<string> {
    Split(s, "\n")
  }

  /** `"\n".join(lines)` */
  function Unlines(lines: seq<string>): string {
    Join(lines, "\n")
  }

  /** A character of `s` is an occurrence of the one-character string. */
  lemma CharOccurs(s: string, c: char)
    requires c in s
    ensures Contains(s, [c])
  {
    var j :| 0 <= j < |s| && s[j] == c;
    assert s[j..j + 1] == [c];
    assert OccursAt(s, [c], j);
  }

  /** No line of a split contains the newline. */
  lemma LinesHaveNoNewline(s: string)
    ensures forall k :: 0 <= k < |Lines(s)| ==> '\n' !in Lines(s)[k]
  {
    SplitPiecesLackSep(s, "\n");
    forall k | 0 <= k < |Lines(s)| ensures '\n' !in Lines(s)[k] {
      if '\n' in Lines(s)[k] {
        CharOccurs(Lines(s)[k], '\n');
      }
    }
  }

  /** Splitting joined lines that hold no newline gives the lines back. */
  lemma LinesOfUnlines(lines: seq<string>)
    requires |lines| >= 1
    requires forall k :: 0 <= k < |lines| ==> '\n' !in lines[k]
    ensures Lines(Unlines(lines)) == lines
  {
    SplitJoinChar(lines, '\n');
  }

  /** An occurrence in `s[n..]` is an occurrence in `s`. */
  lemma OccursInSuffix(s: string, sub: string, n: nat, j: nat)
    requires n <= |s| && OccursAt(s[n..], sub, j)
    ensures OccursAt(s, sub, n + j)
  {
    assert s[n..][j..j + |sub|] == s[n + j..n + j + |sub|];
  }

  /** An occurrence of `sub` in an occurrence of `p` is an occurrence of `sub`. */
  lemma OccursWithin(s: string, p: string, n: nat, sub: string, j: nat)
    requires OccursAt(s, p, n) && OccursAt(p, sub, j)
    ensures OccursAt(s, sub, n + j)
  {
    forall t | 0 <= t < |sub| ensures s[n + j + t] == sub[t] {
      assert sub[t] == p[j + t];
      assert p[j + t] == s[n..n + |p|][j + t];
    }
    assert s[n + j..n + j + |sub|] == sub;
  }

  /** Every part of a join occurs in the joined string, at some offset `n`. */
  lemma {:induction false} PartOffset(parts: seq<string>, sep: string, k: nat) returns (n: nat)
    requires k < |parts|
    ensures OccursAt(Join(parts, sep), parts[k], n)
    decreases |parts|
  {
    var joined := Join(parts, sep);
    if |parts| == 1 {
      n := 0;
      assert joined[0..|parts[0]|] == parts[0];
    } else {
      var tail := Join(parts[1..], sep);
      assert joined == parts[0] + sep + tail;
      if k == 0 {
        n := 0;
        assert joined[0..|parts[0]|] == parts[0];
      } else {
        assert parts[1..][k - 1] == parts[k];
        var m := PartOffset(parts[1..], sep, k - 1);
        var off := |parts[0] + sep|;
        assert joined[off..] == tail;
        OccursInSuffix(joined, parts[k], off, m);
        n := off + m;
      }
    }
  }

  /** What a piece of a split contains, the whole string contains. */
  lemma PieceContains(s: string, sep: string, k: nat, sub: string)
    requires |sep| > 0 && k < |Split(s, sep)|
    requires Contains(Split(s, sep)[k], sub)
    ensures Contains(s, sub)
  {
    JoinSplit(s, sep);
    PartContains(Split(s, sep), sep, k, sub);
  }

  /** What a part of a join contains, the joined string contains. */
  lemma PartContains(parts: seq<string>, sep: string, k: nat, sub: string)
    requires k < |parts| && Contains(parts[k], sub)
    ensures Contains(Join(parts, sep), sub)
  {
    var j := IndexOf(parts[k], sub, 0).value;
    var n := PartOffset(parts, sep, k);
    OccursWithin(Join(parts, sep), parts[k], n, sub, j);
    OccursContains(Join(parts, sep), sub, n + j);
  }

  /** `s.strip()` and `s.rstrip()` keep only characters of `s`. */
  lemma StripKeepsChars(s: string, c: char)
    requires c !in s
    ensures c !in RStrip(s) && c !in LStrip(s) && c !in Strip(s)
  {
    var t := RStrip(s);
    RStripIsPrefix(s);
    LStripIsSuffix(s);
    LStripIsSuffix(t);
    assert c !in t by { assert t == s[..|t|]; }
    assert LStrip(s) == s[|s| - |LStrip(s)|..];
    assert Strip(s) == t[|t| - |Strip(s)|..];
  }

  // --------------------------------------------------------- line classifiers

  predicate IsUpper(c: char) {
    'A' <= c <= 'Z'
  }

  /** The end of the run of characters satisfying `p` that starts at `i`. */
  function RunEnd(s: string, i: nat, p: char -> bool): (e: nat)
    requires i <= |s|
    ensures i <= e <= |s|
    ensures forall k :: i <= k < e ==> p(s[k])
    ensures e == |s| || !p(s[e])
    decreases |s| - i
  {
    if i < |s| && p(s[i]) then RunEnd(s, i + 1, p) else i
  }

  /** A run is determined by where it stops. */
  lemma {:induction false} RunEndAt(s: string, i: nat, p: char -> bool, e: nat)
    requires i <= e <= |s|
    requires forall k :: i <= k < e ==> p(s[k])
    requires e == |s| || !p(s[e])
    ensures RunEnd(s, i, p) == e
    decreases e - i
  {
    if i < e {
      RunEndAt(s, i + 1, p, e);
    }
  }

  /** `_maybe_pcs_line`: the stripped line matches `^\([A-Z]*\d+\)\s`. The two
      character classes are disjoint, so the runs are taken greedily. */
  predicate IsPcsLine(line: string) {
    var s := Strip(line);
    |s| > 0 && s[0] == '(' &&
    var u := RunEnd(s, 1, IsUpper);
    var d := RunEnd(s, u, IsDigit);
    u < d && d + 1 < |s| && s[d] == ')' && IsSpace(s[d + 1])
  }

  /** The characters `s[1..u]` are upper-case letters, `s[u..d]` at least one digit,
      and `s[0]`, `s[d]`, `s[d + 1]` are `(`, `)` and whitespace. */
  predicate PcsShape(s: string, u: nat, d: nat) {
    1 <= u < d && d + 1 < |s| && s[0] == '(' &&
    (forall k :: 1 <= k < u ==> IsUpper(s[k])) &&
    (forall k :: u <= k < d ==> IsDigit(s[k])) &&
    s[d] == ')' && IsSpace(s[d + 1])
  }

  /** A PCS line has the shape, with the runs as its witnesses. */
  lemma PcsLineShape(line: string)
    requires IsPcsLine(line)
    ensures PcsShape(Strip(line), RunEnd(Strip(line), 1, IsUpper), RunEnd(Strip(line), RunEnd(Strip(line), 1, IsUpper), IsDigit))
  {
  }

  /** A line of that shape is a PCS line. */
  lemma ShapePcsLine(line: string, u: nat, d: nat)
    requires PcsShape(Strip(line), u, d)
    ensures IsPcsLine(line)
  {
    var s := Strip(line);
    RunEndAt(s, 1, IsUpper, u);
    RunEndAt(s, u, IsDigit, d);
  }

  /** The PCS-line test holds exactly when the stripped line has the shape
      the regular expression describes. */
  lemma PcsLineIff(line: string)
    ensures IsPcsLine(line) <==> exists u: nat, d: nat :: PcsShape(Strip(line), u, d)
  {
    if IsPcsLine(line) {
      PcsLineShape(line);
    }
    if exists u: nat, d: nat :: PcsShape(Strip(line), u, d) {
      var u: nat, d: nat :| PcsShape(Strip(line), u, d);
      ShapePcsLine(line, u, d);
    }
  }

  const RootReasonPrefixes: seq<string> := ["[", "<"]
  const RelationPrefixes: seq<string> := ["+", "-", "+>", "->", "<+", "<-", "><", "_>", "<_"]

  /** `any(s.startswith(p) for p in prefixes)` */
  predicate StartsWithAny(s: string, prefixes: seq<string>) {
    exists k :: 0 <= k < |prefixes| && StartsWith(s, prefixes[k])
  }

  /** `_maybe_root_reason_line` */
  predicate IsRootReasonLine(line: string) {
    StartsWithAny(Strip(line), RootReasonPrefixes)
  }

  /** `_maybe_dialectic_relation_line` */
  predicate IsRelationLine(line: string) {
    StartsWithAny(Strip(line), RelationPrefixes)
  }

  /** `_maybe_reason_line` */
  predicate IsReasonLine(line: string) {
    IsRootReasonLine(line) || IsRelationLine(line)
  }

  /** `_maybe_inference_line` */
  predicate IsInferenceLine(line: string) {
    StartsWith(Strip(line), "--")
  }

  /** The first characters that make a reason line. */
  predicate ReasonStart(s: string) {
    (|s| > 0 && s[0] in "[<+-") || StartsWith(s, "_>") || StartsWith(s, "><")
  }

  /** A line starting with a relation marker has a reason start. */
  lemma RelationMarkerStart(s: string, k: nat)
    requires k < |RelationPrefixes| && StartsWith(s, RelationPrefixes[k])
    ensures ReasonStart(s)
  {
    var p := RelationPrefixes[k];
    assert s[0] == s[..|p|][0] == p[0];
    if k == 6 {
      assert StartsWith(s, "><");
    } else if k == 7 {
      assert StartsWith(s, "_>");
    } else {
      assert p[0] in "[<+-";
    }
  }

  /** A reason line starts, once stripped, with `[`, `<`, `+` or `-`, or with `_>`
      or `><`: the other markers of the two lists all begin with one of these. */
  lemma ReasonLineIff(line: string)
    ensures IsReasonLine(line) <==> ReasonStart(Strip(line))
  {
    var s := Strip(line);
    assert IsReasonLine(line) == (StartsWithAny(s, RootReasonPrefixes) || StartsWithAny(s, RelationPrefixes));
    if ReasonStart(s) {
      ReasonStartMarker(s);
    }
    if StartsWithAny(s, RootReasonPrefixes) || StartsWithAny(s, RelationPrefixes) {
      MarkerReasonStart(s);
    }
  }

  /** Each marker of the two lists begins a reason start. */
  lemma MarkerReasonStart(s: string)
    requires StartsWithAny(s, RootReasonPrefixes) || StartsWithAny(s, RelationPrefixes)
    ensures ReasonStart(s)
  {
    if StartsWithAny(s, RootReasonPrefixes) {
      var k :| 0 <= k < |RootReasonPrefixes| && StartsWith(s, RootReasonPrefixes[k]);
      assert s[0] == RootReasonPrefixes[k][0];
    } else {
      var k :| 0 <= k < |RelationPrefixes| && StartsWith(s, RelationPrefixes[k]);
      RelationMarkerStart(s, k);
    }
  }

  /** A reason start is one of the markers of the two lists. */
  lemma ReasonStartMarker(s: string)
    requires ReasonStart(s)
    ensures StartsWithAny(s, RootReasonPrefixes) || StartsWithAny(s, RelationPrefixes)
  {
    if StartsWith(s, "_>") {
      assert StartsWith(s, RelationPrefixes[7]);
    } else if StartsWith(s, "><") {
      assert StartsWith(s, RelationPrefixes[6]);
    } else {
      var c := s[0];
      assert s[..1] == [c];
      if c == '[' {
        assert RootReasonPrefixes[0] == [c];
      } else if c == '<' {
        assert RootReasonPrefixes[1] == [c];
      } else if c == '+' {
        assert RelationPrefixes[0] == [c];
      } else {
        assert RelationPrefixes[1] == [c];
      }
    }
  }

  /** Every inference line is also a reason line: `--` begins with the marker `-`. */
  lemma InferenceLineIsReasonLine(line: string)
    requires IsInferenceLine(line)
    ensures IsReasonLine(line)
  {
    var s := Strip(line);
    assert s[0] == s[..2][0] == '-';
    ReasonLineIff(line);
  }

  /** `line.strip().startswith("//")` */
  predicate IsCommentLine(line: string) {
    StartsWith(Strip(line), "//")
  }

  /** A comment line contains `//`. */
  lemma CommentLineContains(line: string)
    requires IsCommentLine(line)
    ensures Contains(line, "//")
  {
    var t := RStrip(line);
    var s := Strip(line);
    var n := |t| - |s|;
    RStripIsPrefix(line);
    LStripIsSuffix(t);
    assert s == t[n..];
    assert t[n..n + 2] == "//";
    assert t[n..n + 2] == line[n..n + 2];
    assert OccursAt(line, "//", n);
  }

  // ------------------------------------------------------- delimited comments

  /** `re.sub(open + ".*?" + close, repl, s)`: the leftmost `open` and the first
      `close` after it delimit a comment, which is replaced by `repl`; the search
      resumes after it. An `open` without a `close` after it, and everything after
      it, is kept: no later `open` can have one either. Applied to a line, the
      pattern without `re.DOTALL` behaves the same, since a line holds no newline. */
  function SubDelimited(s: string, open: string, close: string, repl: string): (r: string)
    requires |open| > 0 && |close| > 0
    ensures IndexOf(s, open, 0).None? ==> r == s
    ensures repl == [] ==> multiset(r) <= multiset(s)
    decreases |s|
  {
    match IndexOf(s, open, 0)
    case None => s
    case Some(i) =>
      match IndexOf(s, close, i + |open|)
      case None => s
      case Some(j) =>
        var end := j + |close|;
        var rest := s[end..];
        assert s[..i] + s[i..end] == s[..end];
        assert s == s[..end] + rest;
        s[..i] + repl + SubDelimited(rest, open, close, repl)
  }

  /** A deletion leaves no character the string did not have. */
  lemma DeletedKeepsOut(s: string, open: string, close: string, c: char)
    requires |open| > 0 && |close| > 0 && c !in s
    ensures c !in SubDelimited(s, open, close, "")
  {
  }

  // --------------------------------------------------------- kept lines

  /** The lines for which `clean` gives a value, each replaced by that value, in order. */
  function KeptLines(lines: seq<string>, clean: string -> Option<string>): (r: seq<string>)
    ensures |r| <= |lines|
    decreases |lines|
  {
    if |lines| == 0 then []
    else
      var rest := KeptLines(lines[..|lines| - 1], clean);
      match clean(lines[|lines| - 1])
      case None => rest
      case Some(c) => rest + [c]
  }

  /** The lines are cleaned one by one: cleaning two runs of lines is cleaning each. */
  lemma {:induction false} KeptLinesAppend(a: seq<string>, b: seq<string>, clean: string -> Option<string>)
    ensures KeptLines(a + b, clean) == KeptLines(a, clean) + KeptLines(b, clean)
    decreases |b|
  {
    if |b| == 0 {
      assert a + b == a;
    } else {
      var b' := b[..|b| - 1];
      assert (a + b)[..|a + b| - 1] == a + b';
      assert (a + b)[|a + b| - 1] == b[|b| - 1];
      KeptLinesAppend(a, b', clean);
    }
  }

  /** Lines that `clean` keeps as they are come through unchanged. */
  lemma {:induction false} KeptLinesIdentity(lines: seq<string>, clean: string -> Option<string>)
    requires forall k :: 0 <= k < |lines| ==> clean(lines[k]) == Some(lines[k])
    ensures KeptLines(lines, clean) == lines
    decreases |lines|
  {
    if |lines| > 0 {
      var init := lines[..|lines| - 1];
      KeptLinesIdentity(init, clean);
      assert init + [lines[|lines| - 1]] == lines;
    }
  }

  /** A line the cleaner drops adds nothing. */
  lemma KeptLinesDrop(lines: seq<string>, i: nat, clean: string -> Option<string>)
    requires i < |lines| && clean(lines[i]).None?
    ensures KeptLines(lines[..i + 1], clean) == KeptLines(lines[..i], clean)
  {
    assert lines[..i + 1][..i] == lines[..i];
  }

  /** A line the cleaner keeps adds its cleaned form. */
  lemma KeptLinesKeepOne(lines: seq<string>, i: nat, clean: string -> Option<string>, c: string)
    requires i < |lines| && clean(lines[i]) == Some(c)
    ensures KeptLines(lines[..i + 1], clean) == KeptLines(lines[..i], clean) + [c]
  {
    assert lines[..i + 1][..i] == lines[..i];
  }

  /** Cleaning a line that holds no newline gives one that holds none either. */
  lemma {:induction false} KeptLinesNoNewline(lines: seq<string>, clean: string -> Option<string>)
    requires forall k :: 0 <= k < |lines| ==> '\n' !in lines[k]
    requires forall l :: '\n' !in l && clean(l).Some? ==> '\n' !in clean(l).value
    ensures forall k :: 0 <= k < |KeptLines(lines, clean)| ==> '\n' !in KeptLines(lines, clean)[k]
    decreases |lines|
  {
    if |lines| > 0 {
      KeptLinesNoNewline(lines[..|lines| - 1], clean);
    }
  }

  // ------------------------------------------------------- comment removers

  // One line of `remove_js_comments`: blank lines stay as they are, `//` lines go,
  // `/* … */` comments are cut out, and a line left blank by that goes.
  function JsLine(line: string): (r: Option<string>)
    ensures r.Some? ==> (IsBlank(line) && r.value == line) || !IsBlank(r.value)
    ensures r.Some? ==> multiset(r.value) <= multiset(line)
    ensures IsBlank(line) ==> r == Some(line)
    ensures !IsBlank(line) && IsCommentLine(line) ==> r.None?
    ensures !IsBlank(line) && !IsCommentLine(line) ==>
      (r.None? <==> IsBlank(SubDelimited(line, "/*", "*/", "")))
    ensures !IsBlank(line) && r.Some? ==> r.value == SubDelimited(line, "/*", "*/", "")
  {
    if IsBlank(line) then Some(line)
    else if IsCommentLine(line) then None
    else
      var c := SubDelimited(line, "/*", "*/", "");
      if IsBlank(c) then None else Some(c)
  }

  /** One line of `remove_html_comments`: the same without the `//` rule, for `<!-- … -->`. */
  function HtmlLine(line: string): (r: Option<string>)
    ensures r.Some? ==> (IsBlank(line) && r.value == line) || !IsBlank(r.value)
    ensures r.Some? ==> multiset(r.value) <= multiset(line)
    ensures IsBlank(line) ==> r == Some(line)
    ensures !IsBlank(line) ==> (r.None? <==> IsBlank(SubDelimited(line, "<!--", "-->", "")))
    ensures !IsBlank(line) && r.Some? ==> r.value == SubDelimited(line, "<!--", "-->", "")
  {
    if IsBlank(line) then Some(line)
    else
      var c := SubDelimited(line, "<!--", "-->", "");
      if IsBlank(c) then None else Some(c)
  }

  // `remove_js_comments(text)`: comments spanning lines first shrink to
  // `/* c */`, then the lines are cleaned one by one.
  function JsCommentsRemoved(text: string): string {
    Unlines(KeptLines(Lines(SubDelimited(text, "/*", "*/", "/* c */")), JsLine))
  }

  /** `remove_html_comments(text)`, the same for `<!-- … -->` with `<!-- c -->`. */
  function HtmlCommentsRemoved(text: string): string {
    Unlines(KeptLines(Lines(SubDelimited(text, "<!--", "-->", "<!-- c -->")), HtmlLine))
  }

  /** `remove_js_comments` */
  method RemoveJsComments(text: string) returns (r: string)
    ensures r == JsCommentsRemoved(text)
  {
    var collapsed := SubDelimited(text, "/*", "*/", "/* c */");
    var cleanLines := CleanJsLines(Lines(collapsed));
    r := Unlines(cleanLines);
  }

  /** The loop of `remove_js_comments` over the lines of the collapsed text. */
  method CleanJsLines(lines: seq<string>) returns (cleanLines: seq<string>)
    ensures cleanLines == KeptLines(lines, JsLine)
  {
    cleanLines := [];
    var i := 0;
    while i < |lines|
      invariant 0 <= i <= |lines|
      invariant cleanLines == KeptLines(lines[..i], JsLine)
    {
      var kept := JsCleanLine(lines[i]);
      match kept {
        case Some(cleanLine) =>
          KeptLinesKeepOne(lines, i, JsLine, cleanLine);
          cleanLines := cleanLines + [cleanLine];
        case None =>
          KeptLinesDrop(lines, i, JsLine);
      }
      i := i + 1;
    }
    assert lines[..i] == lines;
  }

  /** One pass of the loop of `remove_js_comments`: the line kept, cleaned or dropped. */
  method JsCleanLine(line: string) returns (kept: Option<string>)
    ensures kept == JsLine(line)
  {
    kept := None;
    if IsBlank(line) {
      kept := Some(line);
    } else if !IsCommentLine(line) {
      var cleanLine := SubDelimited(line, "/*", "*/", "");
      if !IsBlank(cleanLine) {
        kept := Some(cleanLine);
      }
    }
  }

  /** `remove_html_comments` */
  method RemoveHtmlComments(text: string) returns (r: string)
    ensures r == HtmlCommentsRemoved(text)
  {
    var collapsed := SubDelimited(text, "<!--", "-->", "<!-- c -->");
    var cleanLines := CleanHtmlLines(Lines(collapsed));
    r := Unlines(cleanLines);
  }

  /** The loop of `remove_html_comments` over the lines of the collapsed text. */
  method CleanHtmlLines(lines: seq<string>) returns (cleanLines: seq<string>)
    ensures cleanLines == KeptLines(lines, HtmlLine)
  {
    cleanLines := [];
    var i := 0;
    while i < |lines|
      invariant 0 <= i <= |lines|
      invariant cleanLines == KeptLines(lines[..i], HtmlLine)
    {
      var kept := HtmlCleanLine(lines[i]);
      match kept {
        case Some(cleanLine) =>
          KeptLinesKeepOne(lines, i, HtmlLine, cleanLine);
          cleanLines := cleanLines + [cleanLine];
        case None =>
          KeptLinesDrop(lines, i, HtmlLine);
      }
      i := i + 1;
    }
    assert lines[..i] == lines;
  }

  /** One pass of the loop of `remove_html_comments`. */
  method HtmlCleanLine(line: string) returns (kept: Option<string>)
    ensures kept == HtmlLine(line)
  {
    kept := None;
    if IsBlank(line) {
      kept := Some(line);
    } else {
      var cleanLine := SubDelimited(line, "<!--", "-->", "");
      if !IsBlank(cleanLine) {
        kept := Some(cleanLine);
      }
    }
  }

  // A text without `/*` and without `//` comes out of `remove_js_comments` unchanged.
  lemma JsCommentFree(text: string)
    requires !Contains(text, "/*") && !Contains(text, "//")
    ensures JsCommentsRemoved(text) == text
  {
    var lines := Lines(text);
    forall k | 0 <= k < |lines| ensures JsLine(lines[k]) == Some(lines[k]) {
      if Contains(lines[k], "/*") {
        PieceContains(text, "\n", k, "/*");
      }
      if IsCommentLine(lines[k]) {
        CommentLineContains(lines[k]);
        PieceContains(text, "\n", k, "//");
      }
    }
    KeptLinesIdentity(lines, JsLine);
    JoinSplit(text, "\n");
  }

  /** A text without `<!--` comes out of `remove_html_comments` unchanged. */
  lemma HtmlCommentFree(text: string)
    requires !Contains(text, "<!--")
    ensures HtmlCommentsRemoved(text) == text
  {
    var lines := Lines(text);
    forall k | 0 <= k < |lines| ensures HtmlLine(lines[k]) == Some(lines[k]) {
      if Contains(lines[k], "<!--") {
        PieceContains(text, "\n", k, "<!--");
      }
    }
    KeptLinesIdentity(lines, HtmlLine);
    JoinSplit(text, "\n");
  }

  // ------------------------------------------------ blank lines of the removers

  /** The blank lines among `lines`, in order. */
  function Blanks(lines: seq<string>): seq<string>
    decreases |lines|
  {
    if |lines| == 0 then []
    else
      var last := lines[|lines| - 1];
      Blanks(lines[..|lines| - 1]) + (if IsBlank(last) then [last] else [])
  }

  /** A cleaner that keeps every blank line as it is and never turns a non-blank
      line blank keeps exactly the blank lines, in order. */
  lemma {:induction false} KeptBlanks(lines: seq<string>, clean: string -> Option<string>)
    requires forall l :: IsBlank(l) ==> clean(l) == Some(l)
    requires forall l :: !IsBlank(l) && clean(l).Some? ==> !IsBlank(clean(l).value)
    ensures Blanks(KeptLines(lines, clean)) == Blanks(lines)
    decreases |lines|
  {
    if |lines| > 0 {
      var init := lines[..|lines| - 1];
      KeptBlanks(init, clean);
      var rest := KeptLines(init, clean);
      match clean(lines[|lines| - 1])
      case None =>
      case Some(c) =>
        assert (rest + [c])[..|rest|] == rest;
    }
  }

  /** Splitting the output of a line cleaner that keeps no newline gives its lines
      back, unless it kept no line at all, and then the output is empty. */
  lemma UnlinesKept(lines: seq<string>, clean: string -> Option<string>)
    requires forall k :: 0 <= k < |lines| ==> '\n' !in lines[k]
    requires forall l :: '\n' !in l && clean(l).Some? ==> '\n' !in clean(l).value
    ensures KeptLines(lines, clean) != [] ==>
      Lines(Unlines(KeptLines(lines, clean))) == KeptLines(lines, clean)
    ensures KeptLines(lines, clean) == [] ==> Unlines(KeptLines(lines, clean)) == ""
  {
    KeptLinesNoNewline(lines, clean);
    if KeptLines(lines, clean) != [] {
      LinesOfUnlines(KeptLines(lines, clean));
    }
  }

  /** `remove_js_comments` keeps every blank line of the text (after comments
      spanning lines have shrunk), in order, and makes no line blank: a line that
      only a comment filled is dropped. The output is empty only when it kept no
      line, and then the text had no blank line. */
  lemma JsCommentsKeepBlankLines(text: string)
    ensures var c := SubDelimited(text, "/*", "*/", "/* c */");
      Blanks(Lines(JsCommentsRemoved(text))) == Blanks(Lines(c))
      || (JsCommentsRemoved(text) == "" && Blanks(Lines(c)) == [])
  {
    var c := SubDelimited(text, "/*", "*/", "/* c */");
    KeptBlanks(Lines(c), JsLine);
    LinesHaveNoNewline(c);
    forall l | '\n' !in l && JsLine(l).Some? ensures '\n' !in JsLine(l).value {
      DeletedKeepsOut(l, "/*", "*/", '\n');
    }
    UnlinesKept(Lines(c), JsLine);
  }

  /** The same for `remove_html_comments`. */
  lemma HtmlCommentsKeepBlankLines(text: string)
    ensures var c := SubDelimited(text, "<!--", "-->", "<!-- c -->");
      Blanks(Lines(HtmlCommentsRemoved(text))) == Blanks(Lines(c))
      || (HtmlCommentsRemoved(text) == "" && Blanks(Lines(c)) == [])
  {
    var c := SubDelimited(text, "<!--", "-->", "<!-- c -->");
    KeptBlanks(Lines(c), HtmlLine);
    LinesHaveNoNewline(c);
    forall l | '\n' !in l && HtmlLine(l).Some? ensures '\n' !in HtmlLine(l).value {
      DeletedKeepsOut(l, "<!--", "-->", '\n');
    }
    UnlinesKept(Lines(c), HtmlLine);
  }

  /** The `//` rule alone: drop a non-blank line that is a `//` comment, keep any other. */
  function DropCommentLine(line: string): Option<string> {
    if !IsBlank(line) && IsCommentLine(line) then None else Some(line)
  }

  /** Two cleaners that agree on every line keep the same lines. */
  lemma {:induction false} KeptLinesAgree(lines: seq<string>, f: string -> Option<string>, g: string -> Option<string>)
    requires forall k :: 0 <= k < |lines| ==> f(lines[k]) == g(lines[k])
    ensures KeptLines(lines, f) == KeptLines(lines, g)
    decreases |lines|
  {
    if |lines| > 0 {
      KeptLinesAgree(lines[..|lines| - 1], f, g);
    }
  }

  // Without `/*` in the text, `remove_js_comments` drops exactly the `//` comment
  // lines and keeps every other line verbatim.
  lemma JsLineCommentsDropped(text: string)
    requires !Contains(text, "/*")
    ensures JsCommentsRemoved(text) == Unlines(KeptLines(Lines(text), DropCommentLine))
  {
    var lines := Lines(text);
    forall k | 0 <= k < |lines| ensures JsLine(lines[k]) == DropCommentLine(lines[k]) {
      if Contains(lines[k], "/*") {
        PieceContains(text, "\n", k, "/*");
      }
    }
    KeptLinesAgree(lines, JsLine, DropCommentLine);
  }


  /** What `clean` makes of any line satisfying `pin` satisfies `pout`: then every
      kept line satisfies `pout`. */
  lemma {:induction false} KeptLinesKeep(lines: seq<string>, clean: string -> Option<string>,
                                         pin: string -> bool, pout: string -> bool)
    requires forall k :: 0 <= k < |lines| ==> pin(lines[k])
    requires forall l :: pin(l) && clean(l).Some? ==> pout(clean(l).value)
    ensures forall k :: 0 <= k < |KeptLines(lines, clean)| ==> pout(KeptLines(lines, clean)[k])
    decreases |lines|
  {
    if |lines| > 0 {
      KeptLinesKeep(lines[..|lines| - 1], clean, pin, pout);
    }
  }

  /** What a prefix contains, the string contains. */
  lemma PrefixContains(s: string, n: nat, sub: string)
    requires n <= |s| && Contains(s[..n], sub)
    ensures Contains(s, sub)
  {
    OccursInPrefix(s, sub, n, IndexOf(s[..n], sub, 0).value);
  }

  /** The first piece of a split is a prefix of the string. */
  lemma FirstPieceIsPrefix(s: string, sep: string)
    requires |sep| > 0
    ensures StartsWith(s, Split(s, sep)[0])
  {
  }

  // ------------------------------------------------------- RemoveCommentsHandler

  // `re.sub` of `<!--.*?-->` and then of `/\*.*?\*/` by nothing.
  function CutComments(line: string): (c: string)
    ensures '\n' !in line ==> '\n' !in c
  {
    var c := SubDelimited(SubDelimited(line, "<!--", "-->", ""), "/*", "*/", "");
    assert '\n' !in line ==> '\n' !in c by {
      if '\n' !in line {
        DeletedKeepsOut(line, "<!--", "-->", '\n');
        DeletedKeepsOut(SubDelimited(line, "<!--", "-->", ""), "/*", "*/", '\n');
      }
    }
    c
  }

  /** `c.split("//")[0].rstrip()`: the part before the first `//`, right-stripped. */
  function CutAtLineComment(c: string): (r: string)
    ensures !Contains(r, "//")
    ensures '\n' !in c ==> '\n' !in r
  {
    var piece := Split(c, "//")[0];
    var kept := RStrip(piece);
    RStripIsPrefix(piece);
    FirstPieceIsPrefix(c, "//");
    SplitPiecesLackSep(c, "//");
    assert !Contains(kept, "//") by {
      if Contains(kept, "//") {
        PrefixContains(piece, |kept|, "//");
      }
    }
    assert '\n' !in c ==> '\n' !in kept by {
      assert kept == c[..|kept|];
    }
    kept
  }

  /** One line of `RemoveCommentsHandler`: a `//` line goes; `<!-- … -->` and then
      the C-style comments are cut out; a non-blank line left blank by that goes;
      what remains is cut at its first `//` and right-stripped there. */
  function HandlerLine(line: string): (r: Option<string>)
    ensures r.Some? ==> !Contains(r.value, "//")
    ensures r.Some? && '\n' !in line ==> '\n' !in r.value
    ensures IsCommentLine(line) ==> r.None?
    ensures IsBlank(line) ==> r == Some(line)
    ensures !IsBlank(line) && !IsCommentLine(line) ==> (r.None? <==> IsBlank(CutComments(line)))
    ensures r.Some? && !Contains(CutComments(line), "//") ==> r.value == CutComments(line)
    ensures r.Some? && Contains(CutComments(line), "//") ==> r.value == CutAtLineComment(CutComments(line))
  {
    assert IsBlank(line) ==> !IsCommentLine(line) && CutComments(line) == line && !Contains(line, "//") by {
      if IsBlank(line) {
        BlankLineUncut(line);
      }
    }
    if IsCommentLine(line) then None
    else
      var c := CutComments(line);
      if !IsBlank(line) && IsBlank(c) then None
      else if Contains(c, "//") then Some(CutAtLineComment(c))
      else Some(c)
  }

  /** A blank line holds no comment marker and is no comment line. */
  lemma BlankLineUncut(line: string)
    requires IsBlank(line)
    ensures !IsCommentLine(line) && CutComments(line) == line && !Contains(line, "//")
  {
    if IsCommentLine(line) {
      MarkedLineNotBlank(line);
    }
    BlankHasNo(line, "<!--");
    BlankHasNo(line, "/*");
    BlankHasNo(line, "//");
  }

  /** A blank string contains nothing that starts with a non-space character. */
  lemma BlankHasNo(line: string, sub: string)
    requires IsBlank(line) && |sub| > 0 && !IsSpace(sub[0])
    ensures !Contains(line, sub)
  {
  }

  /** A line such as `<!-- a --> // b` is kept as the empty string: it is not
      blank, cutting its comments leaves a non-blank rest (` // b`), and the part of
      that rest before its first `//` is blank, so right-stripping it leaves `""`. */
  lemma HandlerKeepsEmptyCut(line: string)
    requires !IsBlank(line) && !IsCommentLine(line)
    requires !IsBlank(CutComments(line)) && Contains(CutComments(line), "//")
    requires IsBlank(Split(CutComments(line), "//")[0])
    ensures HandlerLine(line) == Some("")
  {
    var piece := Split(CutComments(line), "//")[0];
    RStripIsPrefix(piece);
  }

  /** The `//` rules alone: a `//` comment line is dropped, a line holding `//` is
      cut at its first `//` and right-stripped, any other line is kept. */
  function LineCommentRule(line: string): Option<string> {
    if IsCommentLine(line) then None
    else if Contains(line, "//") then Some(CutAtLineComment(line))
    else Some(line)
  }

  // For a block without `<!--` and `/*`, `RemoveCommentsHandler` drops exactly the
  // `//` comment lines, keeps blank lines, and cuts every other line at its first
  // `//`.
  lemma LineCommentsCut(b: Block)
    requires !Contains(b.text, "<!--") && !Contains(b.text, "/*")
    ensures CommentsRemoved(b) == Block(b.kind, Unlines(KeptLines(Lines(b.text), LineCommentRule)))
  {
    var lines := Lines(b.text);
    forall k | 0 <= k < |lines| ensures HandlerLine(lines[k]) == LineCommentRule(lines[k]) {
      if Contains(lines[k], "<!--") {
        PieceContains(b.text, "\n", k, "<!--");
      }
      if Contains(lines[k], "/*") {
        PieceContains(b.text, "\n", k, "/*");
      }
    }
    KeptLinesAgree(lines, HandlerLine, LineCommentRule);
  }

  /** `RemoveCommentsHandler()(block)`: the block's lines cleaned, its kind kept. */
  function CommentsRemoved(b: Block): Block {
    Block(b.kind, Unlines(KeptLines(Lines(b.text), HandlerLine)))
  }

  /** `RemoveCommentsHandler.__call__` */
  method RemoveComments(b: Block) returns (r: Block)
    ensures r == CommentsRemoved(b)
  {
    var lines := Lines(b.text);
    var cleanedLines: seq<string> := [];
    var i := 0;
    while i < |lines|
      invariant 0 <= i <= |lines|
      invariant cleanedLines == KeptLines(lines[..i], HandlerLine)
    {
      var kept := CleanLine(lines[i]);
      match kept {
        case Some(cleanedLine) =>
          KeptLinesKeepOne(lines, i, HandlerLine, cleanedLine);
          cleanedLines := cleanedLines + [cleanedLine];
        case None =>
          KeptLinesDrop(lines, i, HandlerLine);
      }
      i := i + 1;
    }
    assert lines[..i] == lines;
    r := Block(b.kind, Unlines(cleanedLines));
  }

  /** One pass of the loop of `RemoveCommentsHandler.__call__`: the cleaned line, or
      nothing when the line is dropped. */
  method CleanLine(line: string) returns (kept: Option<string>)
    ensures kept == HandlerLine(line)
  {
    kept := None;
    if !IsCommentLine(line) {
      var cleanedLine := CutComments(line);
      if IsBlank(line) || !IsBlank(cleanedLine) {
        if Contains(cleanedLine, "//") {
          cleanedLine := CutAtLineComment(cleanedLine);
        }
        kept := Some(cleanedLine);
      }
    }
  }

  /** `//` is never left in a line of the handler's result, and the block keeps its kind. */
  lemma NoLineCommentLeft(b: Block)
    ensures CommentsRemoved(b).kind == b.kind
    ensures forall k :: 0 <= k < |Lines(CommentsRemoved(b).text)| ==>
      !Contains(Lines(CommentsRemoved(b).text)[k], "//")
  {
    var lines := Lines(b.text);
    var kept := KeptLines(lines, HandlerLine);
    LinesHaveNoNewline(b.text);
    KeptLinesKeep(lines, HandlerLine, l => '\n' !in l, l => '\n' !in l && !Contains(l, "//"));
    if |kept| == 0 {
      assert Lines(Unlines(kept)) == [""];
    } else {
      LinesOfUnlines(kept);
    }
  }

  // A block without `<!--`, `/*` and `//` passes the handler unchanged.
  lemma CommentsHandlerFree(b: Block)
    requires !Contains(b.text, "<!--") && !Contains(b.text, "/*") && !Contains(b.text, "//")
    ensures CommentsRemoved(b) == b
  {
    var lines := Lines(b.text);
    forall k | 0 <= k < |lines| ensures HandlerLine(lines[k]) == Some(lines[k]) {
      if Contains(lines[k], "<!--") {
        PieceContains(b.text, "\n", k, "<!--");
      }
      if Contains(lines[k], "/*") {
        PieceContains(b.text, "\n", k, "/*");
      }
      if Contains(lines[k], "//") {
        PieceContains(b.text, "\n", k, "//");
      }
      if IsCommentLine(lines[k]) {
        CommentLineContains(lines[k]);
      }
    }
    KeptLinesIdentity(lines, HandlerLine);
    JoinSplit(b.text, "\n");
  }

  // --------------------------------------------------------- whitespace handlers

  /** `[line.strip() for line in lines]`, or with `rstrip` when `trailing` is set. */
  function StripLines(lines: seq<string>, trailing: bool): (r: seq<string>)
    ensures |r| == |lines|
    ensures forall k :: 0 <= k < |lines| ==> r[k] == if trailing then RStrip(lines[k]) else Strip(lines[k])
  {
    seq(|lines|, k requires 0 <= k < |lines| => if trailing then RStrip(lines[k]) else Strip(lines[k]))
  }

  /** The stripped lines of a text, joined again, split into those same lines. */
  lemma StripLinesRoundTrip(text: string, trailing: bool)
    ensures Lines(Unlines(StripLines(Lines(text), trailing))) == StripLines(Lines(text), trailing)
  {
    var lines := Lines(text);
    var stripped := StripLines(lines, trailing);
    LinesHaveNoNewline(text);
    forall k | 0 <= k < |stripped| ensures '\n' !in stripped[k] {
      StripKeepsChars(lines[k], '\n');
    }
    LinesOfUnlines(stripped);
  }

  /** `RemoveWhitespaceHandler()(block)`: a map block is returned as it is; an
      argument block has each of its lines stripped, and no line is added or lost. */
  function RemoveWhitespace(b: Block): (r: Block)
    ensures r.kind == b.kind
    ensures b.kind.MapBlock? ==> r == b
    ensures b.kind.ArgumentBlock? ==>
      |Lines(r.text)| == |Lines(b.text)| &&
      forall k :: 0 <= k < |Lines(b.text)| ==> Lines(r.text)[k] == Strip(Lines(b.text)[k])
  {
    match b.kind
    case MapBlock => b
    case ArgumentBlock =>
      StrippedLinesOfText(b.text);
      Block(ArgumentBlock, StrippedText(b.text))
  }

  /** The lines of `text`, each stripped, joined again. */
  function StrippedText(text: string): string {
    Unlines(StripLines(Lines(text), false))
  }

  /** Each line of the stripped text is the stripped line of the text. */
  lemma StrippedLinesOfText(text: string)
    ensures var out := Lines(StrippedText(text));
      |out| == |Lines(text)| && forall k :: 0 <= k < |Lines(text)| ==> out[k] == Strip(Lines(text)[k])
  {
    StripLinesRoundTrip(text, false);
  }

  /** `RemoveTrailingWhitespaceHandler()(block)`: the same with `rstrip`. */
  function RemoveTrailingWhitespace(b: Block): (r: Block)
    ensures r.kind == b.kind
    ensures b.kind.MapBlock? ==> r == b
    ensures b.kind.ArgumentBlock? ==>
      |Lines(r.text)| == |Lines(b.text)| &&
      forall k :: 0 <= k < |Lines(b.text)| ==> Lines(r.text)[k] == RStrip(Lines(b.text)[k])
  {
    if b.kind.MapBlock? then b
    else
      var stripped := StripLines(Lines(b.text), true);
      StripLinesRoundTrip(b.text, true);
      assert Lines(Unlines(stripped)) == stripped;
      Block(ArgumentBlock, Unlines(stripped))
  }

  /** `rstrip` of a string that does not end in whitespace changes nothing. */
  lemma RStripIdempotent(s: string)
    ensures RStrip(RStrip(s)) == RStrip(s)
  {
  }

  /** `strip` twice is `strip` once. */
  lemma StripIdempotent(s: string)
    ensures Strip(Strip(s)) == Strip(s)
  {
    var t := RStrip(s);
    var x := LStrip(t);
    LStripIsSuffix(t);
    assert x == t[|t| - |x|..];
    if |x| > 0 {
      assert x[|x| - 1] == t[|t| - 1];
    }
    assert RStrip(x) == x;
  }

  /** Stripping lines already stripped changes nothing. */
  lemma StripLinesTwice(lines: seq<string>, trailing: bool)
    ensures StripLines(StripLines(lines, trailing), trailing) == StripLines(lines, trailing)
  {
    var once := StripLines(lines, trailing);
    forall k | 0 <= k < |lines| ensures StripLines(once, trailing)[k] == once[k] {
      if trailing {
        RStripIdempotent(lines[k]);
      } else {
        StripIdempotent(lines[k]);
      }
    }
  }

  /** Stripping the lines of an argument block a second time changes nothing. */
  lemma RemoveWhitespaceIdempotent(b: Block)
    ensures RemoveWhitespace(RemoveWhitespace(b)) == RemoveWhitespace(b)
  {
    if b.kind.ArgumentBlock? {
      StripLinesRoundTrip(b.text, false);
      StripLinesTwice(Lines(b.text), false);
    }
  }

  /** Right-stripping the lines of an argument block a second time changes nothing. */
  lemma RemoveTrailingWhitespaceIdempotent(b: Block)
    ensures RemoveTrailingWhitespace(RemoveTrailingWhitespace(b)) == RemoveTrailingWhitespace(b)
  {
    if b.kind.ArgumentBlock? {
      StripLinesRoundTrip(b.text, true);
      StripLinesTwice(Lines(b.text), true);
    }
  }

  // ------------------------------------------------------- CollapseLinesHandler

  /** `line` starts an output line of its own after the output line `prev`: it is
      blank, a PCS, reason or inference line, or `prev` is an inference line. */
  predicate OpensLine(prev: string, line: string) {
    IsBlank(line) || IsPcsLine(line) || IsReasonLine(line) || IsInferenceLine(line) || IsInferenceLine(prev)
  }

  /** A soft-wrapped line joined to the one before: `prev.rstrip() + " " + line.lstrip()`. */
  function Joined(prev: string, line: string): string {
    RStrip(prev) + " " + LStrip(line)
  }

  /** One line added to the output lines so far: a line of its own when `opens`
      says so (or there is none yet), otherwise joined to the last. */
  function CollapseStep(out: seq<string>, line: string, opens: (string, string) -> bool): (r: seq<string>)
    ensures |r| == |out| || |r| == |out| + 1
    ensures |r| > 0
  {
    if |out| == 0 || opens(out[|out| - 1], line) then out + [line]
    else out[|out| - 1 := Joined(out[|out| - 1], line)]
  }

  /** The output lines for the input lines; `CollapseLinesHandler` uses `OpensLine`. */
  function Collapsed(lines: seq<string>, opens: (string, string) -> bool): (r: seq<string>)
    ensures |r| <= |lines|
    ensures |lines| > 0 ==> |r| > 0
    decreases |lines|
  {
    if |lines| == 0 then [] else CollapseStep(Collapsed(lines[..|lines| - 1], opens), lines[|lines| - 1], opens)
  }

  /** `CollapseLinesHandler()(block)` */
  function CollapsedBlock(b: Block): Block {
    Block(b.kind, Unlines(Collapsed(Lines(b.text), OpensLine)))
  }

  /** `CollapseLinesHandler.__call__` */
  method CollapseLines(b: Block) returns (r: Block)
    ensures r == CollapsedBlock(b)
  {
    var lines := Lines(b.text);
    var collapsedLines: seq<string> := [];
    for i := 0 to |lines|
      invariant collapsedLines == Collapsed(lines[..i], OpensLine)
    {
      var line := lines[i];
      CollapsedStepAt(lines, i, OpensLine);
      ghost var before := collapsedLines;
      var emptyLine := IsBlank(line);
      if |collapsedLines| == 0 || emptyLine {
        assert |before| == 0 || OpensLine(before[|before| - 1], line);
        collapsedLines := collapsedLines + [line];
      } else if IsPcsLine(line) || IsReasonLine(line) || IsInferenceLine(line)
                || IsInferenceLine(collapsedLines[|collapsedLines| - 1]) {
        assert OpensLine(before[|before| - 1], line);
        collapsedLines := collapsedLines + [line];
      } else {
        var last := |collapsedLines| - 1;
        assert !OpensLine(before[last], line);
        assert RStrip(collapsedLines[last]) + " " + LStrip(line) == Joined(before[last], line);
        collapsedLines := collapsedLines[last := RStrip(collapsedLines[last]) + " " + LStrip(line)];
      }
    }
    assert lines[..|lines|] == lines;
    r := Block(b.kind, Unlines(collapsedLines));
  }

  /** Joining two lines without a newline gives a line without one. */
  lemma JoinedNoNewline(prev: string, line: string)
    requires '\n' !in prev && '\n' !in line
    ensures '\n' !in Joined(prev, line)
  {
    StripKeepsChars(prev, '\n');
    StripKeepsChars(line, '\n');
  }

  /** The collapse of one more line is one more step. */
  lemma CollapsedStepAt(lines: seq<string>, i: nat, opens: (string, string) -> bool)
    requires i < |lines|
    ensures Collapsed(lines[..i + 1], opens) == CollapseStep(Collapsed(lines[..i], opens), lines[i], opens)
  {
    assert lines[..i + 1][..i] == lines[..i];
  }

  /** No line holds a newline. */
  predicate NewlineFree(lines: seq<string>) {
    forall k :: 0 <= k < |lines| ==> '\n' !in lines[k]
  }

  /** One collapsing step keeps the lines free of newlines. */
  lemma CollapseStepNoNewline(out: seq<string>, line: string, opens: (string, string) -> bool)
    requires NewlineFree(out) && '\n' !in line
    ensures NewlineFree(CollapseStep(out, line, opens))
  {
    if |out| == 0 || opens(out[|out| - 1], line) {
      AppendedNoNewline(out, line);
    } else {
      MergedNoNewline(out, line);
    }
  }

  /** Joining a line without a newline to the last keeps the lines free of newlines. */
  lemma MergedNoNewline(out: seq<string>, line: string)
    requires |out| > 0
    requires NewlineFree(out) && '\n' !in line
    ensures NewlineFree(out[|out| - 1 := Joined(out[|out| - 1], line)])
  {
    var k := |out| - 1;
    var y := Joined(out[k], line);
    JoinedNoNewline(out[k], line);
    var r := out[k := y];
    forall j | 0 <= j < |r| ensures '\n' !in r[j] {
      if j != k {
        assert r[j] == out[j];
      }
    }
  }

  /** Appending a line without a newline keeps the lines free of newlines. */
  lemma AppendedNoNewline(out: seq<string>, line: string)
    requires NewlineFree(out) && '\n' !in line
    ensures NewlineFree(out + [line])
  {
    var r := out + [line];
    forall j | 0 <= j < |r| ensures '\n' !in r[j] {
      if j < |out| {
        assert r[j] == out[j];
      }
    }
  }

  /** Replacing one line by a line without a newline keeps the lines free of newlines. */
  lemma ReplacedNoNewline(out: seq<string>, k: nat, y: string)
    requires k < |out| && NewlineFree(out) && '\n' !in y
    ensures NewlineFree(out[k := y])
  {
    var r := out[k := y];
    forall j | 0 <= j < |r| ensures '\n' !in r[j] {
      if j != k {
        assert r[j] == out[j];
      }
    }
  }

  /** Collapsing lines without a newline gives lines without one. */
  lemma {:induction false} CollapsedNoNewline(lines: seq<string>, opens: (string, string) -> bool)
    requires NewlineFree(lines)
    ensures NewlineFree(Collapsed(lines, opens))
    decreases |lines|
  {
    if |lines| > 0 {
      var init := lines[..|lines| - 1];
      var line := lines[|lines| - 1];
      assert NewlineFree(init) by {
        forall k | 0 <= k < |init| ensures '\n' !in init[k] {
          assert init[k] == lines[k];
        }
      }
      CollapsedNoNewline(init, opens);
      CollapseStepNoNewline(Collapsed(init, opens), line, opens);
    }
  }

  /** The handler keeps the block's kind and never makes more lines than it was given. */
  lemma CollapseLineCount(b: Block)
    ensures CollapsedBlock(b).kind == b.kind
    ensures |Lines(CollapsedBlock(b).text)| <= |Lines(b.text)|
  {
    var lines := Lines(b.text);
    LinesHaveNoNewline(b.text);
    CollapsedNoNewline(lines, OpensLine);
    LinesOfUnlines(Collapsed(lines, OpensLine));
  }

  /** The characters of `s` that are not whitespace, in order. */
  function NonSpace(s: string): string
    decreases |s|
  {
    if |s| == 0 then [] else (if IsSpace(s[0]) then [] else [s[0]]) + NonSpace(s[1..])
  }

  lemma {:induction false} NonSpaceConcat(a: string, b: string)
    ensures NonSpace(a + b) == NonSpace(a) + NonSpace(b)
    decreases |a|
  {
    if |a| > 0 {
      assert (a + b)[1..] == a[1..] + b;
      NonSpaceConcat(a[1..], b);
    } else {
      assert a + b == b;
    }
  }

  lemma {:induction false} NonSpaceBlank(s: string)
    requires IsBlank(s)
    ensures NonSpace(s) == []
    decreases |s|
  {
    if |s| > 0 {
      NonSpaceBlank(s[1..]);
    }
  }

  /** `lstrip` removes only whitespace. */
  lemma NonSpaceLStrip(s: string)
    ensures NonSpace(LStrip(s)) == NonSpace(s)
  {
    var l := LStrip(s);
    var n := |s| - |l|;
    LStripIsSuffix(s);
    assert s == s[..n] + l;
    NonSpaceBlank(s[..n]);
    NonSpaceConcat(s[..n], l);
  }

  /** `rstrip` removes only whitespace. */
  lemma NonSpaceRStrip(s: string)
    ensures NonSpace(RStrip(s)) == NonSpace(s)
  {
    var r := RStrip(s);
    RStripIsPrefix(s);
    assert s == r + s[|r|..];
    NonSpaceBlank(s[|r|..]);
    NonSpaceConcat(r, s[|r|..]);
  }

  /** Joining a soft-wrapped line loses and reorders no non-whitespace character. */
  lemma NonSpaceJoined(prev: string, line: string)
    ensures NonSpace(Joined(prev, line)) == NonSpace(prev) + NonSpace(line)
  {
    NonSpaceRStrip(prev);
    NonSpaceLStrip(line);
    NonSpaceSpaced(RStrip(prev), LStrip(line));
  }

  /** A separating blank contributes nothing. */
  lemma NonSpaceSpaced(a: string, b: string)
    ensures NonSpace(a + " " + b) == NonSpace(a) + NonSpace(b)
  {
    var sp: string := " ";
    assert NonSpace(sp) == [] by {
      assert IsSpace(sp[0]);
      assert sp[1..] == [];
    }
    NonSpaceConcat(a, sp);
    NonSpaceConcat(a + sp, b);
  }

  /** One more line joined by a newline. */
  lemma NonSpaceUnlinesAppend(lines: seq<string>, x: string)
    requires |lines| > 0
    ensures NonSpace(Unlines(lines + [x])) == NonSpace(Unlines(lines)) + NonSpace(x)
  {
    JoinAppend(lines, x, "\n");
    NonSpaceConcat(Unlines(lines) + "\n", x);
    NonSpaceConcat(Unlines(lines), "\n");
  }

  /** One more line joined to the last with a space. */
  lemma NonSpaceUnlinesMerge(lines: seq<string>, line: string)
    requires |lines| > 0
    ensures NonSpace(Unlines(lines[|lines| - 1 := Joined(lines[|lines| - 1], line)])) ==
            NonSpace(Unlines(lines)) + NonSpace(line)
  {
    var k := |lines| - 1;
    var y := Joined(lines[k], line);
    NonSpaceJoined(lines[k], line);
    if k == 0 {
      assert lines[k := y] == [y];
      assert lines == [lines[0]];
    } else {
      var init := lines[..k];
      assert lines[k := y] == init + [y];
      assert lines == init + [lines[k]];
      NonSpaceUnlinesAppend(init, y);
      NonSpaceUnlinesAppend(init, lines[k]);
    }
  }

  /** Collapsing loses and reorders no non-whitespace character of the lines. */
  lemma {:induction false} CollapsedKeepsNonSpace(lines: seq<string>, opens: (string, string) -> bool)
    requires |lines| > 0
    ensures NonSpace(Unlines(Collapsed(lines, opens))) == NonSpace(Unlines(lines))
    decreases |lines|
  {
    var init := lines[..|lines| - 1];
    var x := lines[|lines| - 1];
    assert lines == init + [x];
    if |init| == 0 {
      assert lines == [x];
      assert Collapsed(lines, opens) == [x];
    } else {
      var out := Collapsed(init, opens);
      assert Collapsed(lines, opens) == CollapseStep(out, x, opens);
      CollapsedKeepsNonSpace(init, opens);
      NonSpaceUnlinesAppend(init, x);
      CollapseStepKeepsNonSpace(out, x, opens);
    }
  }

  /** One collapsing step adds the non-whitespace characters of the new line. */
  lemma CollapseStepKeepsNonSpace(out: seq<string>, x: string, opens: (string, string) -> bool)
    requires |out| > 0
    ensures NonSpace(Unlines(CollapseStep(out, x, opens))) == NonSpace(Unlines(out)) + NonSpace(x)
  {
    if opens(out[|out| - 1], x) {
      NonSpaceUnlinesAppend(out, x);
    } else {
      NonSpaceUnlinesMerge(out, x);
    }
  }

  /** The handler loses and reorders no non-whitespace character of the block. */
  lemma CollapseKeepsNonSpace(b: Block)
    ensures NonSpace(CollapsedBlock(b).text) == NonSpace(b.text)
  {
    CollapsedKeepsNonSpace(Lines(b.text), OpensLine);
    JoinSplit(b.text, "\n");
  }

  /** Lines that each open an output line of their own come through unchanged. */
  lemma {:induction false} CollapsedIdentity(lines: seq<string>, opens: (string, string) -> bool)
    requires forall i :: 0 < i < |lines| ==> opens(lines[i - 1], lines[i])
    ensures Collapsed(lines, opens) == lines
    decreases |lines|
  {
    if |lines| > 0 {
      var init := lines[..|lines| - 1];
      CollapsedIdentity(init, opens);
      assert init + [lines[|lines| - 1]] == lines;
    }
  }

  /** A block whose every line opens an output line passes the handler unchanged. */
  lemma CollapseIdentityBlock(b: Block)
    requires forall i :: 0 < i < |Lines(b.text)| ==> OpensLine(Lines(b.text)[i - 1], Lines(b.text)[i])
    ensures CollapsedBlock(b) == b
  {
    CollapsedIdentity(Lines(b.text), OpensLine);
    JoinSplit(b.text, "\n");
  }

  // ------------------------------------------------------ the next content line

  /** `[line for line in lines if line.strip()]` */
  function NonBlank(lines: seq<string>): (r: seq<string>)
    ensures |r| <= |lines|
    ensures forall k :: 0 <= k < |r| ==> !IsBlank(r[k])
    decreases |lines|
  {
    if |lines| == 0 then [] else (if IsBlank(lines[0]) then [] else [lines[0]]) + NonBlank(lines[1..])
  }

  /** Filtering one more line at the end. */
  lemma {:induction false} NonBlankAppend(a: seq<string>, c: string)
    ensures NonBlank(a + [c]) == NonBlank(a) + (if IsBlank(c) then [] else [c])
    decreases |a|
  {
    if |a| == 0 {
      assert a + [c] == [c];
      assert [c][1..] == [];
    } else {
      assert (a + [c])[1..] == a[1..] + [c];
      NonBlankAppend(a[1..], c);
    }
  }

  /** Lines none of which is blank pass the filter unchanged. */
  lemma {:induction false} NonBlankIdentity(lines: seq<string>)
    requires forall k :: 0 <= k < |lines| ==> !IsBlank(lines[k])
    ensures NonBlank(lines) == lines
    decreases |lines|
  {
    if |lines| > 0 {
      NonBlankIdentity(lines[1..]);
      assert [lines[0]] + lines[1..] == lines;
    }
  }

  /** `_maybe_remove_initial_comment(lines)`; the source indexes `lines[0]`, so the
      list is never empty. */
  function MaybeRemoveInitialComment(lines: seq<string>): (r: seq<string>)
    requires |lines| > 0
    ensures IsCommentLine(lines[0]) ==> r == lines[1..]
    ensures !IsCommentLine(lines[0]) ==> r == lines
  {
    if IsCommentLine(lines[0]) then lines[1..] else lines
  }

  /** What `_next_non_comment_line(block)` returns: among the non-blank lines, the
      first one, or the second when the first is a `//` comment. The loop never
      gets to look further: after one comment is dropped, the next non-blank line
      is returned, whatever it is. */
  function AsWrittenContentLine(block: string): Option<string> {
    var nb := NonBlank(Lines(block));
    if |nb| == 0 then None
    else if !IsCommentLine(nb[0]) then Some(nb[0])
    else if |nb| > 1 then Some(nb[1])
    else None
  }

  /** `_next_non_comment_line`, its loop as written. */
  method NextNonCommentLine(block: string) returns (r: Option<string>)
    ensures r == AsWrittenContentLine(block)
  {
    ghost var nb := NonBlank(Lines(block));
    var lines := NonBlank(Lines(block));
    while |lines| > 0
      invariant forall k :: 0 <= k < |lines| ==> !IsBlank(lines[k])
      invariant lines == nb || (lines == [] && AsWrittenContentLine(block).None?)
      decreases |lines|
    {
      lines := MaybeRemoveInitialComment(lines);
      if |lines| > 0 && !IsBlank(lines[0]) {
        return Some(lines[0]);
      }
      lines := NonBlank(lines);
    }
    return None;
  }

  /** The first index at or after `i` whose line is not a `//` comment. */
  function FirstNonComment(lines: seq<string>, i: nat): (r: Option<nat>)
    requires i <= |lines|
    ensures r.Some? ==> i <= r.value < |lines| && !IsCommentLine(lines[r.value])
    ensures r.Some? ==> CommentLines(lines, i, r.value)
    ensures r.None? ==> CommentLines(lines, i, |lines|)
    decreases |lines| - i
  {
    if i == |lines| then None
    else if !IsCommentLine(lines[i]) then Some(i)
    else
      var r := FirstNonComment(lines, i + 1);
      CommentLinesCons(lines, i, if r.Some? then r.value else |lines|);
      r
  }

  /** `lines[i..j]` are all `//` comments. */
  predicate CommentLines(lines: seq<string>, i: nat, j: nat)
    requires i <= j <= |lines|
  {
    AllFrom(lines, i, j, IsCommentLine)
  }

  /** Every line of `lines[i..j]` satisfies `p`. */
  predicate AllFrom(lines: seq<string>, i: nat, j: nat, p: string -> bool)
    requires i <= j <= |lines|
  {
    forall k :: i <= k < j ==> p(lines[k])
  }

  /** A comment line in front of comment lines. */
  lemma CommentLinesCons(lines: seq<string>, i: nat, j: nat)
    requires i < j <= |lines| && IsCommentLine(lines[i]) && CommentLines(lines, i + 1, j)
    ensures CommentLines(lines, i, j)
  {
    AllFromCons(lines, i, j, IsCommentLine);
  }

  /** A line satisfying `p` in front of lines that do. */
  lemma AllFromCons(lines: seq<string>, i: nat, j: nat, p: string -> bool)
    requires i < j <= |lines| && p(lines[i]) && AllFrom(lines, i + 1, j, p)
    ensures AllFrom(lines, i, j, p)
  {
    forall k | i <= k < j ensures p(lines[k]) {
      if k > i {
        assert i + 1 <= k < j;
      }
    }
  }

  /** The first line of the block that is neither blank nor a `//` comment: what
      `_next_non_comment_line` is named for, and what the corrected splitter
      `SplitBlocksCorrected` tests. */
  function FirstContentLine(block: string): (r: Option<string>)
    ensures r.Some? ==> !IsBlank(r.value) && !IsCommentLine(r.value)
  {
    var nb := NonBlank(Lines(block));
    match FirstNonComment(nb, 0)
    case None => None
    case Some(j) => Some(nb[j])
  }

  /** The block's first two non-blank lines are both `//` comments. */
  predicate TwoLeadingCommentLines(block: string) {
    var nb := NonBlank(Lines(block));
    |nb| >= 2 && IsCommentLine(nb[0]) && IsCommentLine(nb[1])
  }

  /** As written and corrected agree unless the block's first two non-blank lines
      are both `//` comments. */
  lemma ContentLinesAgree(block: string)
    requires !TwoLeadingCommentLines(block)
    ensures AsWrittenContentLine(block) == FirstContentLine(block)
  {
    var nb := NonBlank(Lines(block));
    if |nb| > 0 && IsCommentLine(nb[0]) {
      if |nb| > 1 {
        assert FirstNonComment(nb, 1) == Some(1);
      } else {
        assert FirstNonComment(nb, 1).None?;
      }
    }
  }

  /** A `//` comment line is not a PCS line. */
  lemma CommentIsNoPcsLine(line: string)
    requires IsCommentLine(line)
    ensures !IsPcsLine(line)
  {
    assert Strip(line)[0] == Strip(line)[..2][0] == '/';
  }

  /** Three lines joined by newlines split into those three lines, none blank. */
  lemma ThreeLines(c1: string, c2: string, p: string)
    requires '\n' !in c1 && '\n' !in c2 && '\n' !in p
    requires !IsBlank(c1) && !IsBlank(c2) && !IsBlank(p)
    ensures NonBlank(Lines(c1 + "\n" + c2 + "\n" + p)) == [c1, c2, p]
  {
    var lines := [c1, c2, p];
    assert lines[1..] == [c2, p];
    assert [c2, p][1..] == [p];
    assert Join([p], "\n") == p;
    assert Join([c2, p], "\n") == c2 + "\n" + Join([p], "\n");
    assert Unlines(lines) == c1 + "\n" + (c2 + "\n" + p);
    assert c1 + "\n" + (c2 + "\n" + p) == c1 + "\n" + c2 + "\n" + p;
    LinesOfUnlines(lines);
    NonBlankIdentity(lines);
  }

  /** A comment or PCS line is not blank. */
  lemma MarkedLineNotBlank(line: string)
    requires IsCommentLine(line) || IsPcsLine(line)
    ensures !IsBlank(line)
  {
    StripEmptyIffBlank(line);
  }

  /** Two comment lines before a PCS line: the line returned as written is the
      second comment, so the chunk is not taken as the continuation of an argument;
      the first content line is the PCS line, and the chunk continues an argument. */
  lemma TwoLeadingComments(c1: string, c2: string, p: string)
    requires '\n' !in c1 && '\n' !in c2 && '\n' !in p
    requires IsCommentLine(c1) && IsCommentLine(c2) && IsPcsLine(p)
    ensures AsWrittenContentLine(c1 + "\n" + c2 + "\n" + p) == Some(c2) && !IsPcsLine(c2)
    ensures FirstContentLine(c1 + "\n" + c2 + "\n" + p) == Some(p)
    ensures ContinuesArgument(c1 + "\n" + c2 + "\n" + p)
  {
    var block := c1 + "\n" + c2 + "\n" + p;
    MarkedLineNotBlank(c1);
    MarkedLineNotBlank(c2);
    MarkedLineNotBlank(p);
    ThreeLines(c1, c2, p);
    CommentIsNoPcsLine(c2);
    assert !IsCommentLine(p) by {
      if IsCommentLine(p) {
        CommentIsNoPcsLine(p);
      }
    }
    ThirdIsFirstNonComment([c1, c2, p]);
    assert FirstContentLine(block) == Some(p);
  }

  /** Behind two comment lines, a third line that is none is the first non-comment. */
  lemma ThirdIsFirstNonComment(nb: seq<string>)
    requires |nb| == 3 && IsCommentLine(nb[0]) && IsCommentLine(nb[1]) && !IsCommentLine(nb[2])
    ensures FirstNonComment(nb, 0) == Some(2)
  {
    assert FirstNonComment(nb, 2) == Some(2);
  }

  /** A string with no whitespace at either end is its own `strip()`. */
  lemma StripUnchanged(s: string)
    requires |s| > 0 && !IsSpace(s[0]) && !IsSpace(s[|s| - 1])
    ensures Strip(s) == s
  {
  }

  /** The block `// a`, `// b`, `(1) P.` is an instance. */
  lemma TwoLeadingCommentsExample()
    ensures AsWrittenContentLine("// a" + "\n" + "// b" + "\n" + "(1) P.") == Some("// b")
    ensures FirstContentLine("// a" + "\n" + "// b" + "\n" + "(1) P.") == Some("(1) P.")
  {
    var c1, c2, p := "// a", "// b", "(1) P.";
    StripUnchanged(c1);
    StripUnchanged(c2);
    StripUnchanged(p);
    assert IsCommentLine(c1) && IsCommentLine(c2);
    assert PcsShape(p, 1, 2);
    ShapePcsLine(p, 1, 2);
    TwoLeadingComments(c1, c2, p);
  }

  // --------------------------------------------------------------- split_blocks

  /** The test of `split_blocks` as written: the line `_next_non_comment_line`
      returns is a PCS line. */
  predicate ContinuesAsWritten(chunk: string) {
    match AsWrittenContentLine(chunk)
    case None => false
    case Some(l) => l != "" && IsPcsLine(l)
  }

  /** The corrected test: the chunk's first content line is a PCS line. */
  predicate ContinuesArgument(chunk: string) {
    match FirstContentLine(chunk)
    case None => false
    case Some(l) => l != "" && IsPcsLine(l)
  }

  /** The two tests agree on a chunk that does not open with two comment lines. */
  lemma ContinuesAgree(chunk: string)
    requires !TwoLeadingCommentLines(chunk)
    ensures ContinuesAsWritten(chunk) == ContinuesArgument(chunk)
  {
    ContentLinesAgree(chunk);
  }

  /** One chunk split off at a blank line, added to the blocks so far;
      `split_blocks` uses `ContinuesAsWritten` for `continues`, the corrected
      splitter `ContinuesArgument`. */
  function AddChunk(blocks: seq<Block>, chunk: string, continues: string -> bool): seq<Block> {
    if IsBlank(chunk) then blocks
    else if |blocks| == 0 then [Block(MapBlock, chunk)]
    else if continues(chunk) then
      blocks[|blocks| - 1 := Block(ArgumentBlock, blocks[|blocks| - 1].text + "\n\n" + chunk)]
    else blocks + [Block(MapBlock, chunk)]
  }

  /** A string with a non-blank part is not blank. */
  lemma NotBlankConcat(a: string, b: string)
    requires !IsBlank(a)
    ensures !IsBlank(a + b)
  {
    var j :| 0 <= j < |a| && !IsSpace(a[j]);
    assert (a + b)[j] == a[j];
  }

  /** The blocks made of the chunks, before the final filter. */
  function Blocks(chunks: seq<string>, continues: string -> bool): (r: seq<Block>)
    ensures forall k :: 0 <= k < |r| ==> !IsBlank(r[k].text)
    decreases |chunks|
  {
    if |chunks| == 0 then []
    else
      var before := Blocks(chunks[..|chunks| - 1], continues);
      var chunk := chunks[|chunks| - 1];
      if |before| > 0 && !IsBlank(chunk) && continues(chunk) then
        NotBlankConcat(before[|before| - 1].text, "\n\n" + chunk);
        assert before[|before| - 1].text + "\n\n" + chunk == before[|before| - 1].text + ("\n\n" + chunk);
        AddChunk(before, chunk, continues)
      else AddChunk(before, chunk, continues)
  }

  /** `text.strip("\n ")` is not empty for a text that is not blank. */
  lemma {:induction false} StripCharsNotBlank(s: string)
    requires !IsBlank(s)
    ensures StripChars(s, {'\n', ' '}) != []
    decreases |s|
  {
    var j :| 0 <= j < |s| && !IsSpace(s[j]);
    if |s| > 0 && s[0] in {'\n', ' '} {
      assert s[1..][j - 1] == s[j];
      StripCharsNotBlank(s[1..]);
    } else if |s| > 0 && s[|s| - 1] in {'\n', ' '} {
      assert s[..|s| - 1][j] == s[j];
      StripCharsNotBlank(s[..|s| - 1]);
    }
  }

  /** `[block for block in codeblocks if block.strip("\n ")]` */
  function KeepNonEmpty(blocks: seq<Block>): (r: seq<Block>)
    ensures |r| <= |blocks|
    decreases |blocks|
  {
    if |blocks| == 0 then []
    else (if StripChars(blocks[0].text, {'\n', ' '}) != [] then [blocks[0]] else []) + KeepNonEmpty(blocks[1..])
  }

  /** No block made of the chunks is dropped by the final filter. */
  lemma {:induction false} KeepNonEmptyDropsNothing(blocks: seq<Block>)
    requires forall k :: 0 <= k < |blocks| ==> !IsBlank(blocks[k].text)
    ensures KeepNonEmpty(blocks) == blocks
    decreases |blocks|
  {
    if |blocks| > 0 {
      StripCharsNotBlank(blocks[0].text);
      KeepNonEmptyDropsNothing(blocks[1..]);
      assert [blocks[0]] + blocks[1..] == blocks;
    }
  }

  /** `Preprocessor.split_blocks(text)` as written. */
  function SplitBlocksAsWritten(text: string): seq<Block> {
    KeepNonEmpty(Blocks(Split(text, "\n\n"), ContinuesAsWritten))
  }

  /** The splitter with the corrected content line. */
  function SplitBlocksCorrected(text: string): seq<Block> {
    KeepNonEmpty(Blocks(Split(text, "\n\n"), ContinuesArgument))
  }

  /** The texts of the blocks. */
  function Texts(blocks: seq<Block>): (r: seq<string>)
    ensures |r| == |blocks| && forall k :: 0 <= k < |blocks| ==> r[k] == blocks[k].text
  {
    seq(|blocks|, k requires 0 <= k < |blocks| => blocks[k].text)
  }

  /** The blocks of one more chunk. */
  lemma BlocksStepAt(chunks: seq<string>, i: nat, continues: string -> bool)
    requires i < |chunks|
    ensures Blocks(chunks[..i + 1], continues) == AddChunk(Blocks(chunks[..i], continues), chunks[i], continues)
  {
    assert chunks[..i + 1][..i] == chunks[..i];
  }

  /** How a chunk is classified, for any continuation test (`ContinuesAsWritten`
      in `split_blocks` as written, `ContinuesArgument` when corrected): a blank
      chunk is dropped; the first kept chunk starts a map block; a later chunk that
      passes the test is appended to the block before it, which becomes an
      argument block; any other later chunk starts a new map block. */
  lemma BlocksClassification(chunks: seq<string>, c: string, continues: string -> bool)
    ensures var before := Blocks(chunks, continues); var after := Blocks(chunks + [c], continues);
      && (IsBlank(c) ==> after == before)
      && (!IsBlank(c) && |before| == 0 ==> after == [Block(MapBlock, c)])
      && (!IsBlank(c) && |before| > 0 && continues(c) ==>
            |after| == |before| && after[..|before| - 1] == before[..|before| - 1] &&
            after[|before| - 1] == Block(ArgumentBlock, before[|before| - 1].text + "\n\n" + c))
      && (!IsBlank(c) && |before| > 0 && !continues(c) ==>
            after == before + [Block(MapBlock, c)])
  {
    assert (chunks + [c])[..|chunks|] == chunks;
  }

  /** The last part of a join replaced by itself, a separator and one more part. */
  lemma JoinExtendLast(parts: seq<string>, x: string, sep: string)
    requires |parts| > 0
    ensures Join(parts[|parts| - 1 := parts[|parts| - 1] + sep + x], sep) == Join(parts, sep) + sep + x
  {
    var k := |parts| - 1;
    var y := parts[k] + sep + x;
    if k == 0 {
      assert parts[k := y] == [y];
      assert parts == [parts[0]];
    } else {
      var init := parts[..k];
      assert parts[k := y] == init + [y];
      assert parts == init + [parts[k]];
      JoinAppend(init, y, sep);
      JoinAppend(init, parts[k], sep);
    }
  }

  /** Joined again at blank lines, the blocks give back the chunks that are not
      blank, in order, and there is a block as soon as there is such a chunk. */
  lemma {:induction false} BlocksJoin(chunks: seq<string>, continues: string -> bool)
    ensures Join(Texts(Blocks(chunks, continues)), "\n\n") == Join(NonBlank(chunks), "\n\n")
    ensures |Blocks(chunks, continues)| == 0 <==> |NonBlank(chunks)| == 0
    decreases |chunks|
  {
    if |chunks| > 0 {
      var init := chunks[..|chunks| - 1];
      var c := chunks[|chunks| - 1];
      assert chunks == init + [c];
      BlocksJoin(init, continues);
      NonBlankAppend(init, c);
      var before := Blocks(init, continues);
      assert Blocks(chunks, continues) == AddChunk(before, c, continues);
      if !IsBlank(c) {
        if |before| == 0 {
          assert NonBlank(chunks) == [c];
          assert Texts([Block(MapBlock, c)]) == [c];
        } else if continues(c) {
          var k := |before| - 1;
          assert Texts(Blocks(chunks, continues)) == Texts(before)[k := Texts(before)[k] + "\n\n" + c];
          JoinExtendLast(Texts(before), c, "\n\n");
          JoinAppend(NonBlank(init), c, "\n\n");
        } else {
          assert Texts(Blocks(chunks, continues)) == Texts(before) + [c];
          JoinAppend(Texts(before), c, "\n\n");
          JoinAppend(NonBlank(init), c, "\n\n");
        }
      } else {
        assert NonBlank(chunks) == NonBlank(init);
      }
    }
  }

  /** A text none of whose chunks is blank is given back whole by its blocks,
      as written and corrected. */
  lemma SplitBlocksRestoresText(text: string)
    requires forall k :: 0 <= k < |Split(text, "\n\n")| ==> !IsBlank(Split(text, "\n\n")[k])
    ensures Join(Texts(SplitBlocksAsWritten(text)), "\n\n") == text
    ensures Join(Texts(SplitBlocksCorrected(text)), "\n\n") == text
  {
    var chunks := Split(text, "\n\n");
    KeepNonEmptyDropsNothing(Blocks(chunks, ContinuesAsWritten));
    KeepNonEmptyDropsNothing(Blocks(chunks, ContinuesArgument));
    BlocksJoin(chunks, ContinuesAsWritten);
    BlocksJoin(chunks, ContinuesArgument);
    NonBlankIdentity(chunks);
    JoinSplit(text, "\n\n");
  }

  /** As written and corrected, the blocks of chunks none of which opens with two
      comment lines are the same. */
  lemma {:induction false} BlocksAgree(chunks: seq<string>)
    requires forall k :: 0 <= k < |chunks| ==> !TwoLeadingCommentLines(chunks[k])
    ensures Blocks(chunks, ContinuesAsWritten) == Blocks(chunks, ContinuesArgument)
    decreases |chunks|
  {
    if |chunks| > 0 {
      var init := chunks[..|chunks| - 1];
      assert forall k :: 0 <= k < |init| ==> init[k] == chunks[k];
      BlocksAgree(init);
      ContinuesAgree(chunks[|chunks| - 1]);
    }
  }

  /** `split_blocks` as written gives the corrected blocks unless some chunk opens
      with two comment lines. */
  lemma SplitBlocksAgree(text: string)
    requires forall k :: 0 <= k < |Split(text, "\n\n")| ==> !TwoLeadingCommentLines(Split(text, "\n\n")[k])
    ensures SplitBlocksAsWritten(text) == SplitBlocksCorrected(text)
  {
    BlocksAgree(Split(text, "\n\n"));
  }

  /** A chunk of two comment lines and a PCS line after a non-blank chunk: as written
      it starts a second map block, corrected it continues the first chunk as an
      argument block. */
  lemma SplitsDiffer(x: string, c1: string, c2: string, p: string)
    requires !IsBlank(x)
    requires '\n' !in c1 && '\n' !in c2 && '\n' !in p
    requires IsCommentLine(c1) && IsCommentLine(c2) && IsPcsLine(p)
    ensures var c := c1 + "\n" + c2 + "\n" + p;
      Blocks([x, c], ContinuesAsWritten) == [Block(MapBlock, x), Block(MapBlock, c)]
    ensures var c := c1 + "\n" + c2 + "\n" + p;
      Blocks([x, c], ContinuesArgument) == [Block(ArgumentBlock, x + "\n\n" + c)]
  {
    var c := c1 + "\n" + c2 + "\n" + p;
    TwoLeadingComments(c1, c2, p);
    MarkedLineNotBlank(c1);
    NotBlankConcat(c1, "\n");
    NotBlankConcat(c1 + "\n", c2);
    NotBlankConcat(c1 + "\n" + c2, "\n");
    NotBlankConcat(c1 + "\n" + c2 + "\n", p);
    TwoChunks(x, c, ContinuesAsWritten);
    TwoChunks(x, c, ContinuesArgument);
  }

  /** Two non-blank chunks: one argument block when the second continues the
      first, two map blocks otherwise. */
  lemma TwoChunks(x: string, c: string, continues: string -> bool)
    requires !IsBlank(x) && !IsBlank(c)
    ensures continues(c) ==> Blocks([x, c], continues) == [Block(ArgumentBlock, x + "\n\n" + c)]
    ensures !continues(c) ==> Blocks([x, c], continues) == [Block(MapBlock, x), Block(MapBlock, c)]
  {
    assert [x, c][..1] == [x];
    assert [x][..0] == [];
    assert Blocks([x], continues) == [Block(MapBlock, x)];
  }

  // ---------------------------------------------------------------- Preprocessor

  /** The four handler classes. */
  datatype Handler = RemoveCommentsHandler | RemoveWhitespaceHandler | RemoveTrailingWhitespaceHandler | CollapseLinesHandler

  /** `handler(block)` */
  function Apply(h: Handler, b: Block): (r: Block)
    ensures r.kind == b.kind
  {
    match h
    case RemoveCommentsHandler => CommentsRemoved(b)
    case RemoveWhitespaceHandler => RemoveWhitespace(b)
    case RemoveTrailingWhitespaceHandler => RemoveTrailingWhitespace(b)
    case CollapseLinesHandler => CollapsedBlock(b)
  }

  /** The handlers applied in the order they were added. */
  function ApplyAll(handlers: seq<Handler>, b: Block): (r: Block)
    decreases |handlers|
  {
    if |handlers| == 0 then b else Apply(handlers[|handlers| - 1], ApplyAll(handlers[..|handlers| - 1], b))
  }

  /** No chain of handlers changes the kind of a block. */
  lemma {:induction false} ApplyAllKeepsKind(handlers: seq<Handler>, b: Block)
    ensures ApplyAll(handlers, b).kind == b.kind
    decreases |handlers|
  {
    if |handlers| > 0 {
      ApplyAllKeepsKind(handlers[..|handlers| - 1], b);
    }
  }

  /** Two chains one after the other are their concatenation. */
  lemma {:induction false} ApplyAllConcat(first: seq<Handler>, second: seq<Handler>, b: Block)
    ensures ApplyAll(first + second, b) == ApplyAll(second, ApplyAll(first, b))
    decreases |second|
  {
    if |second| == 0 {
      assert first + second == first;
    } else {
      var init := second[..|second| - 1];
      assert (first + second)[..|first + second| - 1] == first + init;
      ApplyAllConcat(first, init, b);
    }
  }

  /** `Preprocessor`: the chain of handlers one block goes through. */
  class Preprocessor {
    var handlers: seq<Handler>

    constructor()
      ensures handlers == []
    {
      handlers := [];
    }

    /** `add_handler(handler)`, which returns the preprocessor itself for chaining. */
    method AddHandler(h: Handler) returns (self: Preprocessor)
      modifies this
      ensures handlers == old(handlers) + [h] && self == this
    {
      handlers := handlers + [h];
      self := this;
    }

    /** `process(block)`: every handler in turn. */
    method Process(b: Block) returns (r: Block)
      ensures r == ApplyAll(handlers, b)
    {
      r := b;
      for i := 0 to |handlers|
        invariant r == ApplyAll(handlers[..i], b)
      {
        assert handlers[..i + 1][..i] == handlers[..i];
        match handlers[i] {
          case RemoveCommentsHandler => r := RemoveComments(r);
          case RemoveWhitespaceHandler => r := RemoveWhitespace(r);
          case RemoveTrailingWhitespaceHandler => r := RemoveTrailingWhitespace(r);
          case CollapseLinesHandler => r := CollapseLines(r);
        }
      }
      assert handlers[..|handlers|] == handlers;
    }

    /** `Preprocessor.split_blocks(text)`: chunks at blank lines, glued back to
        the block before when `_next_non_comment_line` finds a PCS line. */
    static method SplitBlocks(text: string) returns (blocks: seq<Block>)
      ensures blocks == SplitBlocksAsWritten(text)
    {
      var chunks := Split(text, "\n\n");
      var codeblocks: seq<Block> := [];
      for i := 0 to |chunks|
        invariant codeblocks == Blocks(chunks[..i], ContinuesAsWritten)
      {
        var block := chunks[i];
        BlocksStepAt(chunks, i, ContinuesAsWritten);
        if IsBlank(block) {
        } else if |codeblocks| == 0 {
          codeblocks := codeblocks + [Block(MapBlock, block)];
        } else {
          var nextContentLine := NextNonCommentLine(block);
          if nextContentLine.Some? && nextContentLine.value != "" && IsPcsLine(nextContentLine.value) {
            var last := |codeblocks| - 1;
            codeblocks := codeblocks[last := Block(ArgumentBlock, codeblocks[last].text + "\n\n" + block)];
          } else {
            codeblocks := codeblocks + [Block(MapBlock, block)];
          }
        }
      }
      assert chunks[..|chunks|] == chunks;
      blocks := KeepNonEmpty(codeblocks);
    }
  }
}
