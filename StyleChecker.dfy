/** `CChecker.check_style`: the capture groups a query produced, each routed
    to its validator in a fixed order.

    The functions below say what the output is (`StyleReport`); the methods
    compute it with the source's loops over capture lists and are proved to
    print exactly the lines of that report and to stop where it stops. */
module StyleChecker {
  import opened SyntaxTree
  import opened Diagnostics
  import opened Layout
  import opened Spacing
  import opened Naming

  /** A captured node, with the parent and previous sibling the tree gives it. */
  datatype Capture = Capture(node: Node, parent: Option<Node>, prevSibling: Option<Node>)

  /** The checker for one file: the path printed in each line, the captures
      of the whole tree by pattern name, and whether qualifiers are mandated. */
  datatype CChecker = CChecker(file: string, captures: map<string, seq<Capture>>, nuttxCodebase: bool)

  /** The captures of one pattern name; a name with no match has none. */
  function Captured(c: CChecker, key: string): seq<Capture>
  {
    if key in c.captures then c.captures[key] else []
  }

  predicate IsKeywordParent(kind: Kind)
  {
    kind in {IfStatement, ForStatement, WhileStatement, DoStatement, SwitchStatement}
  }

  /** The parenthesised expression of a keyword statement: exactly one
      column between the keyword's end and the parenthesis, then the
      spacing checks.  Without a previous sibling nothing is checked. */
  function ParenCheck(m: Capture): (r: seq<Diagnostic>)
    ensures forall d :: d in r ==> d.at == m.node.start && d.severity == Error
    ensures Diagnostic(m.node.start, Error, KeywordSpacing) in r <==>
      m.parent.Some? && IsKeywordParent(m.parent.value.kind) && m.prevSibling.Some?
      && m.node.start.column - m.prevSibling.value.end.column != 1
    ensures m.parent.Some? && IsKeywordParent(m.parent.value.kind) && m.prevSibling.None? ==> r == []
    ensures !(m.parent.Some? && IsKeywordParent(m.parent.value.kind)) ==> r == Whitespaces(m.node)
    ensures m.prevSibling.Some? ==> forall d :: d in Whitespaces(m.node) ==> d in r
  {
    if m.parent.Some? && IsKeywordParent(m.parent.value.kind) then
      match m.prevSibling
      case None => []
      case Some(prev) =>
        Emit(m.node.start.column - prev.end.column != 1, m.node.start, KeywordSpacing).diags
        + Whitespaces(m.node)
    else Whitespaces(m.node)
  }

  // ---------------------------------------------------------------------
  // One fold per capture group, over the first hi captures in order

  /** Run the first hi reports in order; a crash ends the run. */
  function Sequence(rs: seq<Report>, hi: nat): Report
    requires hi <= |rs|
  {
    if hi == 0 then Done else Then(Sequence(rs, hi - 1), rs[hi - 1])
  }

  /** "function.body": each body's named children at column 2. */
  function BodySteps(caps: seq<Capture>): (rs: seq<Report>)
    ensures |rs| == |caps|
    ensures forall i :: 0 <= i < |rs| ==> Sound(rs[i].diags, 2)
  {
    seq(|caps|, i requires 0 <= i < |caps| => IndentsRange(2, caps[i].node, 0, |caps[i].node.children|, true))
  }

  /** "expression.paranthesis" */
  function ParensReport(caps: seq<Capture>, hi: nat): (r: seq<Diagnostic>)
    requires hi <= |caps|
    ensures forall d :: d in r ==> d.severity == Error && exists k :: 0 <= k < hi && d.at == caps[k].node.start
  {
    if hi == 0 then [] else ParensReport(caps, hi - 1) + ParenCheck(caps[hi - 1])
  }

  /** "list.arguments" */
  function ArgumentsReport(caps: seq<Capture>, hi: nat): (r: seq<Diagnostic>)
    requires hi <= |caps|
    ensures forall d :: d in r ==> d.severity == Error && exists k :: 0 <= k < hi && d.at == caps[k].node.start
  {
    if hi == 0 then [] else ArgumentsReport(caps, hi - 1) + Whitespaces(caps[hi - 1].node)
  }

  /** "structs" and "enums" */
  function TaggedSteps(tag: Tag, caps: seq<Capture>): (rs: seq<Report>)
    ensures |rs| == |caps|
  {
    if caps == [] then []
    else TaggedSteps(tag, caps[..|caps| - 1]) + [CheckTagged(tag, caps[|caps| - 1].node)]
  }

  lemma {:induction false} TaggedStepsAt(tag: Tag, caps: seq<Capture>, i: nat)
    requires i < |caps|
    ensures TaggedSteps(tag, caps)[i] == CheckTagged(tag, caps[i].node)
  {
    if i < |caps| - 1 {
      TaggedStepsAt(tag, caps[..|caps| - 1], i);
    }
  }

  /** "declarator.pointer" */
  function PointersReport(nuttxCodebase: bool, caps: seq<Capture>, hi: nat): (r: seq<Diagnostic>)
    requires hi <= |caps|
    ensures forall d :: d in r ==> d.severity == Error && exists k :: 0 <= k < hi && d.at == caps[k].node.start
    ensures !nuttxCodebase ==> forall d :: d in r ==> d.message == MissingSpaceBeforePointer
  {
    if hi == 0 then [] else PointersReport(nuttxCodebase, caps, hi - 1) + Pointer(caps[hi - 1].node, nuttxCodebase)
  }

  /** Everything `check_style` reports for the file, group after group;
      a crash in one group ends the run. */
  function StyleReport(c: CChecker): (r: Report)
    ensures OnlyErrors(r.diags)
  {
    var bodies, parens, args := Captured(c, "function.body"), Captured(c, "expression.paranthesis"), Captured(c, "list.arguments");
    SequenceOnlyErrors(BodySteps(bodies), |bodies|);
    Then(Sequence(BodySteps(bodies), |bodies|),
    Then(Report(ParensReport(parens, |parens|) + ArgumentsReport(args, |args|), false),
         DeclarationsReport(c)))
  }

  /** The last three loops: structs, enums, pointer declarators. */
  function DeclarationsReport(c: CChecker): (r: Report)
    ensures OnlyErrors(r.diags)
  {
    var structs, enums, pointers := Captured(c, "structs"), Captured(c, "enums"), Captured(c, "declarator.pointer");
    TaggedStepsOnlyErrors(Struct, structs);
    TaggedStepsOnlyErrors(Enum, enums);
    SequenceOnlyErrors(TaggedSteps(Struct, structs), |structs|);
    SequenceOnlyErrors(TaggedSteps(Enum, enums), |enums|);
    Then(Sequence(TaggedSteps(Struct, structs), |structs|),
    Then(Sequence(TaggedSteps(Enum, enums), |enums|),
         Report(PointersReport(c.nuttxCodebase, pointers, |pointers|), false)))
  }

  /** Every diagnostic is an error: the checker never reports through
      `info` or `warning`. */
  predicate OnlyErrors(ds: seq<Diagnostic>)
  {
    forall d :: d in ds ==> d.severity == Error
  }

  /** Running steps that report only errors reports only errors. */
  lemma {:induction false} SequenceOnlyErrors(rs: seq<Report>, hi: nat)
    requires hi <= |rs|
    requires forall i :: 0 <= i < hi ==> OnlyErrors(rs[i].diags)
    ensures OnlyErrors(Sequence(rs, hi).diags)
  {
    if hi > 0 {
      SequenceOnlyErrors(rs, hi - 1);
    }
  }

  /** Each struct or enum check reports only errors. */
  lemma TaggedStepsOnlyErrors(tag: Tag, caps: seq<Capture>)
    ensures forall i :: 0 <= i < |caps| ==> OnlyErrors(TaggedSteps(tag, caps)[i].diags)
  {
    forall i | 0 <= i < |caps|
      ensures OnlyErrors(TaggedSteps(tag, caps)[i].diags)
    {
      TaggedStepsAt(tag, caps, i);
    }
  }

  // ---------------------------------------------------------------------
  // Once a traversal has died, the later parts of a fold add nothing.

  lemma {:induction false} IndentsRangeCrashSticks(indent: nat, parent: Node, lo: nat, j: nat, k: nat, namedOnly: bool)
    requires lo <= j <= k <= |parent.children|
    requires IndentsRange(indent, parent, lo, j, namedOnly).crashed
    ensures IndentsRange(indent, parent, lo, k, namedOnly) == IndentsRange(indent, parent, lo, j, namedOnly)
    decreases k - j
  {
    if j < k {
      IndentsRangeCrashSticks(indent, parent, lo, j, k - 1, namedOnly);
    }
  }

  lemma {:induction false} SequenceCrashSticks(rs: seq<Report>, j: nat, k: nat)
    requires j <= k <= |rs|
    requires Sequence(rs, j).crashed
    ensures Sequence(rs, k) == Sequence(rs, j)
    decreases k - j
  {
    if j < k {
      SequenceCrashSticks(rs, j, k - 1);
    }
  }

  /** Running reports that are each sound at `base` gives a sound report. */
  lemma {:induction false} SequenceSound(rs: seq<Report>, hi: nat, base: nat)
    requires hi <= |rs|
    requires forall i :: 0 <= i < hi ==> Sound(rs[i].diags, base)
    ensures Sound(Sequence(rs, hi).diags, base)
  {
    if hi > 0 {
      SequenceSound(rs, hi - 1, base);
    }
  }

  /** Every indentation check under a function body expects a column that
      is even and at least 2. */
  lemma BodiesIndentsEven(caps: seq<Capture>)
    ensures forall d :: d in Sequence(BodySteps(caps), |caps|).diags && d.message.WrongIndentation? ==>
      d.message.expected >= 2 && d.message.expected % 2 == 0
  {
    SequenceSound(BodySteps(caps), |caps|, 2);
  }

  // ---------------------------------------------------------------------
  // The loops of check_style.  Each collects, in order, the diagnostics it
  // prints; `CheckStyle` renders them to the printed lines.

  /** `for n in m.named_children: __check_indents(2, n)` */
  method CheckFunctionBody(m: Node) returns (diags: seq<Diagnostic>, crashed: bool)
    ensures diags == IndentsRange(2, m, 0, |m.children|, true).diags
    ensures crashed == IndentsRange(2, m, 0, |m.children|, true).crashed
  {
    diags, crashed := [], false;
    var j := 0;
    while j < |m.children| && !crashed
      invariant j <= |m.children|
      invariant diags == IndentsRange(2, m, 0, j, true).diags
      invariant crashed == IndentsRange(2, m, 0, j, true).crashed
    {
      var n := m.children[j];
      if n.named {
        var r := Indents(2, n);
        diags, crashed := diags + r.diags, r.crashed;
      } else {
        assert diags + [] == diags;
      }
      j := j + 1;
    }
    if crashed {
      IndentsRangeCrashSticks(2, m, 0, j, |m.children|, true);
    }
  }

  /** The "function.body" loop. */
  method CheckFunctionBodies(caps: seq<Capture>) returns (diags: seq<Diagnostic>, crashed: bool)
    ensures diags == Sequence(BodySteps(caps), |caps|).diags
    ensures crashed == Sequence(BodySteps(caps), |caps|).crashed
  {
    ghost var rs := BodySteps(caps);
    diags, crashed := [], false;
    var i := 0;
    while i < |caps| && !crashed
      invariant i <= |caps|
      invariant diags == Sequence(rs, i).diags
      invariant crashed == Sequence(rs, i).crashed
    {
      var more, died := CheckFunctionBody(caps[i].node);
      diags, crashed := diags + more, died;
      i := i + 1;
    }
    if crashed {
      SequenceCrashSticks(rs, i, |caps|);
    }
  }

  /** The "expression.paranthesis" loop. */
  method CheckParens(caps: seq<Capture>) returns (diags: seq<Diagnostic>)
    ensures diags == ParensReport(caps, |caps|)
  {
    diags := [];
    for i := 0 to |caps|
      invariant diags == ParensReport(caps, i)
    {
      diags := diags + ParenCheck(caps[i]);
    }
  }

  /** The "list.arguments" loop. */
  method CheckArguments(caps: seq<Capture>) returns (diags: seq<Diagnostic>)
    ensures diags == ArgumentsReport(caps, |caps|)
  {
    diags := [];
    for i := 0 to |caps|
      invariant diags == ArgumentsReport(caps, i)
    {
      diags := diags + Whitespaces(caps[i].node);
    }
  }

  /** The "structs" and "enums" loops. */
  method CheckTaggeds(tag: Tag, caps: seq<Capture>) returns (diags: seq<Diagnostic>, crashed: bool)
    ensures diags == Sequence(TaggedSteps(tag, caps), |caps|).diags
    ensures crashed == Sequence(TaggedSteps(tag, caps), |caps|).crashed
  {
    ghost var rs := TaggedSteps(tag, caps);
    diags, crashed := [], false;
    var i := 0;
    while i < |caps| && !crashed
      invariant i <= |caps|
      invariant diags == Sequence(rs, i).diags
      invariant crashed == Sequence(rs, i).crashed
    {
      var r := TaggedStep(tag, caps, i);
      diags, crashed := diags + r.diags, r.crashed;
      i := i + 1;
    }
    if crashed {
      SequenceCrashSticks(rs, i, |caps|);
    }
  }

  /** `__check_structs(m)` / `__check_enums(m)` on the i-th capture. */
  method TaggedStep(tag: Tag, caps: seq<Capture>, i: nat) returns (r: Report)
    requires i < |caps|
    ensures r == TaggedSteps(tag, caps)[i]
  {
    r := CheckTagged(tag, caps[i].node);
    TaggedStepsAt(tag, caps, i);
  }

  /** The "declarator.pointer" loop. */
  method CheckPointers(nuttxCodebase: bool, caps: seq<Capture>) returns (diags: seq<Diagnostic>)
    ensures diags == PointersReport(nuttxCodebase, caps, |caps|)
  {
    diags := [];
    for i := 0 to |caps|
      invariant diags == PointersReport(nuttxCodebase, caps, i)
    {
      diags := diags + Pointer(caps[i].node, nuttxCodebase);
    }
  }

  /** check_style: the six loops in order, stopping at an out-of-range
      child index.  The printed lines are those of the report. */
  method CheckStyle(c: CChecker) returns (lines: seq<string>, crashed: bool)
    ensures lines == Lines(c.file, StyleReport(c).diags)
    ensures crashed == StyleReport(c).crashed
  {
    var diags := Collect(c);
    lines, crashed := Lines(c.file, diags.diags), diags.crashed;
  }

  /** The diagnostics of check_style, in the order they are printed. */
  method Collect(c: CChecker) returns (out: Report)
    ensures out == StyleReport(c)
  {
    var diags, crashed := CheckFunctionBodies(Captured(c, "function.body"));
    if crashed {
      return Report(diags, true);
    }
    var parens := CheckParens(Captured(c, "expression.paranthesis"));
    var args := CheckArguments(Captured(c, "list.arguments"));
    var rest := CollectDeclarations(c);
    return Report(diags + (parens + args + rest.diags), rest.crashed);
  }

  method CollectDeclarations(c: CChecker) returns (out: Report)
    ensures out == DeclarationsReport(c)
  {
    var structs, died := CheckTaggeds(Struct, Captured(c, "structs"));
    if died {
      return Report(structs, true);
    }
    var enums, died2 := CheckTaggeds(Enum, Captured(c, "enums"));
    if died2 {
      return Report(structs + enums, true);
    }
    var pointers := CheckPointers(c.nuttxCodebase, Captured(c, "declarator.pointer"));
    return Report(structs + (enums + pointers), false);
  }
}
