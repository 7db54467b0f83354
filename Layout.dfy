/** The indentation and brace-layout checker: `__check_indents`, its
    per-statement helpers and the shared brace policy `__check_body`.

    Each routine takes the expected indentation column by value and a node,
    and yields the diagnostics it prints, in order.  The routines are
    mutually recursive; the termination measure is (node, rank, counter):
    a routine either moves to a child or grandchild, or stays on the same
    node and calls a routine of lower rank (`CheckBody` re-enters
    `Indents` on the same expression statement). */
module Layout {
  import opened SyntaxTree
  import opened Diagnostics

  predicate IsPropagating(kind: Kind)
  {
    kind in {ReturnStatement, ExpressionStatement, Declaration,
             BreakStatement, FieldDeclaration, Enumerator}
  }

  /** The kinds `__check_indents` has a case for. */
  predicate Dispatched(kind: Kind)
  {
    kind in {IfStatement, ElseClause, ForStatement, WhileStatement,
             DoStatement, SwitchStatement}
    || IsPropagating(kind)
  }

  predicate IsLayoutMessage(m: Message)
  {
    m.WrongIndentation? || m.LeftBracketNotOnSeparateLine? || m.RightBracketNotOnSeparateLine?
    || m.IfNotInlinedWithElse? || m.EmptyBodyNotInline?
  }

  /** What every layout diagnostic satisfies when checking starts at `base`:
      it is an error with a layout message, and a wrong-indentation error
      reports a real mismatch against a column reached from `base` by steps
      of two. */
  predicate Sound(ds: seq<Diagnostic>, base: nat)
  {
    forall d | d in ds ::
      d.severity == Error && IsLayoutMessage(d.message)
      && (d.message.WrongIndentation? ==>
            d.message.expected != d.message.actual
            && d.message.expected >= base && (d.message.expected - base) % 2 == 0)
  }

  /** What holds from a deeper base holds from this one. */
  lemma SoundDeeper(ds: seq<Diagnostic>, base: nat, deeper: nat)
    requires Sound(ds, base + 2 * deeper)
    ensures Sound(ds, base)
  {
    forall d | d in ds && d.message.WrongIndentation?
      ensures (d.message.expected - base) % 2 == 0
    {
      assert d.message.expected - base == (d.message.expected - base - 2 * deeper) + 2 * deeper;
    }
  }

  /** The node's own column: one wrong-indentation error exactly when it
      is not at `indent`. */
  function OwnColumn(indent: nat, n: Node): (r: Report)
    ensures !r.crashed && Sound(r.diags, indent)
    ensures n.start.column != indent <==> r.diags == [Diagnostic(n.start, Error, WrongIndentation(indent, n.start.column))]
    ensures n.start.column == indent <==> r.diags == []
  {
    Emit(n.start.column != indent, n.start, WrongIndentation(indent, n.start.column))
  }

  /** The wrong-indentation error for `c` checked at column `indent`. */
  function Misplaced(indent: nat, c: Node): Diagnostic
  {
    Diagnostic(c.start, Error, WrongIndentation(indent, c.start.column))
  }

  /** `c`'s own column was checked against `indent`: if it is elsewhere,
      its error is among `ds`. */
  predicate ColumnChecked(indent: nat, ds: seq<Diagnostic>, c: Node)
  {
    c.start.column != indent ==> Misplaced(indent, c) in ds
  }

  /** `c` was handed to `__check_indents` at `indent`: a node of a kind it
      dispatches had its own column checked there. */
  predicate CheckedAt(indent: nat, ds: seq<Diagnostic>, c: Node)
  {
    Dispatched(c.kind) ==> ColumnChecked(indent, ds, c)
  }

  /** Where the statements of a `case` start: after `case e :` or `default :`. */
  function CaseOffset(kw: Node): nat
  {
    if kw.kind == CaseKeyword then 3 else 2
  }

  /** __check_indents */
  function Indents(indent: nat, n: Node): (r: Report)
    decreases n, 3, 0
    ensures Sound(r.diags, indent)
    ensures !Dispatched(n.kind) ==> r == Done
    ensures Dispatched(n.kind) && !r.crashed ==>
      (n.start.column != indent <==>
         r.diags != [] && r.diags[|r.diags| - 1] == Diagnostic(n.start, Error, WrongIndentation(indent, n.start.column)))
  {
    if !Dispatched(n.kind) then Done
    else
      var inner :=
        if n.kind == IfStatement || n.kind == ElseClause then CheckIf(indent, n)
        else if n.kind == ForStatement then CheckFor(indent, n)
        else if n.kind == WhileStatement || n.kind == DoStatement then CheckWhile(indent, n)
        else if n.kind == SwitchStatement then CheckSwitch(indent, n)
        else
          (var children := IndentsRange(indent + 2, n, 0, |n.children|, true);
           SoundDeeper(children.diags, indent, 1);
           children);
      Then(inner, OwnColumn(indent, n))
  }

  /** `__check_indents(indent, c)` for the children c of `parent` in [lo, hi),
      only the named ones when `namedOnly`. */
  function IndentsRange(indent: nat, parent: Node, lo: nat, hi: nat, namedOnly: bool): (r: Report)
    requires lo <= hi <= |parent.children|
    decreases parent, 0, hi
    ensures Sound(r.diags, indent)
    ensures !r.crashed ==>
      forall k :: lo <= k < hi && (namedOnly ==> parent.children[k].named) ==> CheckedAt(indent, r.diags, parent.children[k])
  {
    if hi == lo then Done
    else
      var c := parent.children[hi - 1];
      Then(IndentsRange(indent, parent, lo, hi - 1, namedOnly),
           if namedOnly && !c.named then Done else Indents(indent, c))
  }

  /** __check_body: the brace policy for a block checked at `indent`. */
  function CheckBody(indent: nat, n: Node): (r: Report)
    decreases n, 4, 0
    ensures Sound(r.diags, indent)
    ensures r.crashed <== |n.children| < 2
    ensures n.kind != ExpressionStatement && |n.children| >= 2 ==>
      (Diagnostic(n.start, Error, WrongIndentation(indent, n.children[0].start.column)) in r.diags <==>
        n.children[0].start.column != indent)
    ensures !r.crashed ==> |n.children| >= 2 && ColumnChecked(indent, r.diags, n.children[|n.children| - 1])
    ensures !r.crashed ==>
      forall k :: 0 <= k < |n.children| && n.children[k].named ==> CheckedAt(indent + 2, r.diags, n.children[k])
  {
    var pre := if n.kind == ExpressionStatement then Indents(indent, n) else Done;
    if |n.children| < 2 then Then(pre, Crash)
    else
      Then(pre,
      Then(OpenBrace(indent, n),
      Then(IndentsRange(indent + 2, n, 0, |n.children|, true),
           CloseBrace(indent, n))))
  }

  /** The opening brace (the first child) on its own row and at `indent`. */
  function OpenBrace(indent: nat, n: Node): (r: Report)
    requires |n.children| >= 2
    ensures Sound(r.diags, indent) && !r.crashed
  {
    var open, first := n.children[0], n.children[1];
    Then(Emit(open.start.row == first.start.row, n.start, LeftBracketNotOnSeparateLine),
         Emit(open.start.column != indent, n.start, WrongIndentation(indent, open.start.column)))
  }

  /** The closing brace (the last child) on its own row and at `indent`. */
  function CloseBrace(indent: nat, n: Node): (r: Report)
    requires |n.children| >= 2
    ensures Sound(r.diags, indent) && !r.crashed
  {
    var close, beforeClose := n.children[|n.children| - 1], n.children[|n.children| - 2];
    Then(Emit(close.start.row == beforeClose.start.row, n.start, RightBracketNotOnSeparateLine),
         Emit(close.start.column != indent, close.start, WrongIndentation(indent, close.start.column)))
  }

  /** __check_indents_if_statement, for an `if_statement` or an `else_clause`. */
  function CheckIf(indent: nat, n: Node): (r: Report)
    decreases n, 2, 0
    ensures Sound(r.diags, indent)
  {
    if n.kind == ElseClause then
      if |n.children| < 2 then Crash
      else
        var second := n.children[1];
        if second.kind != IfStatement then
          var block := CheckBody(indent + 2, second);
          SoundDeeper(block.diags, indent, 1);
          block
        else Then(Emit(second.start.row != n.start.row, second.start, IfNotInlinedWithElse),
                  IfArms(indent, second))
    else IfArms(indent, n)
  }

  /** The consequence and alternative of an `if_statement`: the consequence
      is a block one level in, the alternative (an `else_clause`) is
      dispatched again at the same level. */
  function IfArms(indent: nat, n: Node): (r: Report)
    decreases n, 1, 0
    ensures Sound(r.diags, indent)
    ensures !r.crashed && FieldIndex(n, Alternative).Some? ==>
      CheckedAt(indent, r.diags, n.children[FieldIndex(n, Alternative).value])
  {
    var consequence := CheckConsequence(indent, n);
    SoundDeeper(consequence.diags, indent, 1);
    Then(consequence,
         match FieldIndex(n, Alternative)
         case None => Done
         case Some(i) => Indents(indent, n.children[i]))
  }

  /** The consequence of an `if_statement`: it must not open on the `if` row. */
  function CheckConsequence(indent: nat, n: Node): (r: Report)
    decreases n, 0, 0
    ensures Sound(r.diags, indent + 2)
  {
    match FieldIndex(n, Consequence)
    case None => Done
    case Some(i) =>
      var c := n.children[i];
      Then(Emit(c.start.row == n.start.row, c.start, LeftBracketNotOnSeparateLine),
           CheckBody(indent + 2, c))
  }

  /** __check_indents_for_statement */
  function CheckFor(indent: nat, n: Node): (r: Report)
    decreases n, 2, 0
    ensures Sound(r.diags, indent + 2)
  {
    match FieldIndex(n, Body)
    case None => Done
    case Some(i) =>
      if i == 0 then Done
      else
        var body, prev := n.children[i], n.children[i - 1];
        if body.kind == CompoundStatement then
          Then(Emit(body.start.row == prev.start.row, body.start, LeftBracketNotOnSeparateLine),
               CheckBody(indent + 2, body))
        else if body.kind == ExpressionStatement then
          if NamedCount(body.children) == 0 then
            Emit(prev.start.row != body.start.row, body.start, EmptyBodyNotInline)
          else
            var statements := IndentsRange(indent + 4, body, 0, |body.children|, true);
            SoundDeeper(statements.diags, indent + 2, 1);
            statements
        else Done
  }

  /** __check_indents_while_statement, for `while` and `do` loops. */
  function CheckWhile(indent: nat, n: Node): (r: Report)
    decreases n, 2, 0
    ensures Sound(r.diags, indent + 2)
  {
    match FieldIndex(n, Body)
    case None => Done
    case Some(i) =>
      if i == 0 then Done
      else
        var body, prev := n.children[i], n.children[i - 1];
        Then(Emit(body.start.row == prev.start.row, body.start, LeftBracketNotOnSeparateLine),
             CheckBody(indent + 2, body))
  }

  /** __check_indents_switch_statement */
  function CheckSwitch(indent: nat, n: Node): (r: Report)
    decreases n, 2, 0
    ensures Sound(r.diags, indent + 2)
  {
    match FieldIndex(n, Body)
    case None => Done
    case Some(i) =>
      if i == 0 then Done
      else
        var body, prev := n.children[i], n.children[i - 1];
        var cases := CaseRange(indent + 4, body, |body.children|);
        SoundDeeper(cases.diags, indent + 2, 1);
        Then(SwitchOpen(indent + 2, body, prev), Then(cases, SwitchClose(indent + 2, body)))
  }

  /** The opening checks of a switch body expected at column `indent`: not
      on the row of what precedes it, and at that column. */
  function SwitchOpen(indent: nat, body: Node, prev: Node): (r: Report)
    ensures Sound(r.diags, indent) && !r.crashed
    ensures Diagnostic(body.start, Error, LeftBracketNotOnSeparateLine) in r.diags <==>
      body.start.row == prev.start.row
    ensures Misplaced(indent, body) in r.diags <==> body.start.column != indent
    ensures body.start.row == prev.start.row ==> r.diags[0] == Diagnostic(body.start, Error, LeftBracketNotOnSeparateLine)
  {
    Then(Emit(body.start.row == prev.start.row, body.start, LeftBracketNotOnSeparateLine),
         Emit(body.start.column != indent, body.start, WrongIndentation(indent, body.start.column)))
  }

  /** The closing-brace checks of a switch body expected at column `indent`
      (the row check reuses the left-bracket message). */
  function SwitchClose(indent: nat, body: Node): (r: Report)
    ensures Sound(r.diags, indent)
    ensures r.crashed <==> |body.children| < 2
    ensures |body.children| >= 2 ==>
      (Diagnostic(body.start, Error, LeftBracketNotOnSeparateLine) in r.diags <==>
        body.children[|body.children| - 1].start.row == body.children[|body.children| - 2].start.row)
      && (Misplaced(indent, body.children[|body.children| - 1]) in r.diags <==>
        body.children[|body.children| - 1].start.column != indent)
  {
    var k := |body.children|;
    if k < 2 then Crash
    else
      var close, beforeClose := body.children[k - 1], body.children[k - 2];
      Then(Emit(close.start.row == beforeClose.start.row, body.start, LeftBracketNotOnSeparateLine),
           Emit(close.start.column != indent, close.start, WrongIndentation(indent, close.start.column)))
  }

  /** The named `case_statement` children of a switch body among the first `hi`. */
  function CaseRange(indent: nat, body: Node, hi: nat): (r: Report)
    requires hi <= |body.children|
    decreases body, 0, hi
    ensures Sound(r.diags, indent)
    ensures !r.crashed ==>
      forall k :: 0 <= k < hi && body.children[k].named && body.children[k].kind == CaseStatement ==>
        ColumnChecked(indent, r.diags, body.children[k])
  {
    if hi == 0 then Done
    else
      var c := body.children[hi - 1];
      Then(CaseRange(indent, body, hi - 1),
           if c.named && c.kind == CaseStatement then CheckCase(indent, c) else Done)
  }

  /** __check_indents_case_statement: `case e:` has its statements from
      child 3 on, `default:` from child 2 on. */
  function CheckCase(indent: nat, n: Node): (r: Report)
    decreases n, 2, 0
    ensures Sound(r.diags, indent)
    ensures r.crashed <== n.children == [] || |n.children| <= CaseOffset(n.children[0])
    ensures n.children != [] && |n.children| > CaseOffset(n.children[0]) ==>
      (n.start.column != indent <==> r.diags != [] && r.diags[0] == Misplaced(indent, n))
    ensures !r.crashed ==> ColumnChecked(indent, r.diags, n)
  {
    if |n.children| == 0 then Crash
    else
      var offset := CaseOffset(n.children[0]);
      if |n.children| <= offset then Crash
      else
        Then(OwnColumn(indent, n), CaseContents(indent, n, offset))
  }

  /** What follows the label of a case: a block, or statements one level in. */
  function CaseContents(indent: nat, n: Node, offset: nat): (r: Report)
    requires 0 < offset < |n.children|
    decreases n, 1, 0
    ensures Sound(r.diags, indent)
    ensures n.children[offset].kind == CompoundStatement ==>
      (n.children[offset].start.row == n.children[offset - 1].start.row ==>
         r.diags != [] && r.diags[0] == Diagnostic(n.children[offset].start, Error, LeftBracketNotOnSeparateLine))
      && r == Then(Emit(n.children[offset].start.row == n.children[offset - 1].start.row, n.children[offset].start,
                        LeftBracketNotOnSeparateLine),
                   CheckBody(indent + 2, n.children[offset]))
    ensures n.children[offset].kind != CompoundStatement && !r.crashed ==>
      forall k :: offset <= k < |n.children| ==> CheckedAt(indent + 2, r.diags, n.children[k])
  {
    var body := n.children[offset];
    if body.kind == CompoundStatement then
      var inner := CheckBody(indent + 2, body);
      SoundDeeper(inner.diags, indent, 1);
      Then(Emit(body.start.row == n.children[offset - 1].start.row, body.start, LeftBracketNotOnSeparateLine), inner)
    else
      var inner := IndentsRange(indent + 2, n, offset, |n.children|, false);
      SoundDeeper(inner.diags, indent, 1);
      inner
  }

  // ---------------------------------------------------------------------
  // Properties

  function Count(b: bool): nat
  {
    if b then 1 else 0
  }

  /** Children that are all unnamed are never visited by the named-children loop. */
  lemma {:induction false} UnnamedChildrenSilent(indent: nat, parent: Node, lo: nat, hi: nat)
    requires lo <= hi <= |parent.children|
    requires forall k :: lo <= k < hi ==> !parent.children[k].named
    ensures IndentsRange(indent, parent, lo, hi, true) == Done
  {
    if lo < hi {
      UnnamedChildrenSilent(indent, parent, lo, hi - 1);
    }
  }

  /** A propagating statement with no named children, at the expected
      column, produces nothing. */
  lemma AlignedLeafSilent(indent: nat, n: Node)
    requires IsPropagating(n.kind) && n.start.column == indent
    requires forall k :: 0 <= k < |n.children| ==> !n.children[k].named
    ensures Indents(indent, n) == Done
  {
    UnnamedChildrenSilent(indent + 2, n, 0, |n.children|);
  }

  /** Checking more children only appends to what was printed. */
  lemma {:induction false} RangePrefix(indent: nat, parent: Node, lo: nat, j: nat, hi: nat, namedOnly: bool)
    requires lo <= j <= hi <= |parent.children|
    ensures IndentsRange(indent, parent, lo, j, namedOnly).diags <= IndentsRange(indent, parent, lo, hi, namedOnly).diags
    decreases hi - j
  {
    if j < hi {
      RangePrefix(indent, parent, lo, j, hi - 1, namedOnly);
      var c := parent.children[hi - 1];
      var prefix := IndentsRange(indent, parent, lo, hi - 1, namedOnly);
      assert IndentsRange(indent, parent, lo, hi, namedOnly)
        == Then(prefix, if namedOnly && !c.named then Done else Indents(indent, c));
    }
  }

  /** A leaf statement off its column prints exactly its own error. */
  lemma MisplacedLeaf(indent: nat, c: Node)
    requires IsPropagating(c.kind) && c.start.column != indent
    requires forall j :: 0 <= j < |c.children| ==> !c.children[j].named
    ensures Indents(indent, c) == Report([Misplaced(indent, c)], false)
  {
    UnnamedChildrenSilent(indent + 2, c, 0, |c.children|);
    assert Indents(indent, c) == Then(IndentsRange(indent + 2, c, 0, |c.children|, true), OwnColumn(indent, c));
  }

  /** A simple statement hands each of its named children to the check two
      columns to the right. */
  lemma PropagatingChildrenChecked(indent: nat, n: Node)
    requires IsPropagating(n.kind)
    ensures !Indents(indent, n).crashed ==>
      forall k :: 0 <= k < |n.children| && n.children[k].named ==> CheckedAt(indent + 2, Indents(indent, n).diags, n.children[k])
  {
    var inner := IndentsRange(indent + 2, n, 0, |n.children|, true);
    assert Indents(indent, n) == Then(inner, OwnColumn(indent, n));
  }

  /** Children are checked one level in: when the first named child of a
      simple statement is a leaf statement off the column two to the right,
      that is the first error printed for the statement. */
  lemma MisplacedChildFirst(indent: nat, n: Node, k: nat)
    requires IsPropagating(n.kind) && k < |n.children|
    requires forall j :: 0 <= j < k ==> !n.children[j].named
    requires n.children[k].named && IsPropagating(n.children[k].kind)
    requires forall j :: 0 <= j < |n.children[k].children| ==> !n.children[k].children[j].named
    requires n.children[k].start.column != indent + 2
    ensures Indents(indent, n).diags != []
    ensures Indents(indent, n).diags[0] == Misplaced(indent + 2, n.children[k])
  {
    var inner := IndentsRange(indent + 2, n, 0, |n.children|, true);
    FirstNamedChildFirst(indent + 2, n, k);
    assert Indents(indent, n) == Then(inner, OwnColumn(indent, n));
  }

  /** The same, for the loop over the named children. */
  lemma FirstNamedChildFirst(indent: nat, n: Node, k: nat)
    requires k < |n.children|
    requires forall j :: 0 <= j < k ==> !n.children[j].named
    requires n.children[k].named && IsPropagating(n.children[k].kind)
    requires forall j :: 0 <= j < |n.children[k].children| ==> !n.children[k].children[j].named
    requires n.children[k].start.column != indent
    ensures IndentsRange(indent, n, 0, |n.children|, true).diags != []
    ensures IndentsRange(indent, n, 0, |n.children|, true).diags[0] == Misplaced(indent, n.children[k])
  {
    UnnamedChildrenSilent(indent, n, 0, k);
    MisplacedLeaf(indent, n.children[k]);
    assert IndentsRange(indent, n, 0, k + 1, true) == Then(IndentsRange(indent, n, 0, k, true), Indents(indent, n.children[k]));
    assert IndentsRange(indent, n, 0, k + 1, true).diags == [Misplaced(indent, n.children[k])];
    RangePrefix(indent, n, 0, k + 1, |n.children|, true);
  }

  /** The brace policy: once the block's contents are clean, each of the four
      brace conditions gives its own diagnostic, so the number printed is the
      number of misplaced braces. */
  lemma BracePolicy(indent: nat, n: Node)
    requires n.kind != ExpressionStatement && |n.children| >= 2
    requires IndentsRange(indent + 2, n, 0, |n.children|, true) == Done
    ensures !CheckBody(indent, n).crashed
    ensures |CheckBody(indent, n).diags|
      == Count(n.children[0].start.row == n.children[1].start.row)
       + Count(n.children[0].start.column != indent)
       + Count(n.children[|n.children| - 1].start.row == n.children[|n.children| - 2].start.row)
       + Count(n.children[|n.children| - 1].start.column != indent)
    ensures Diagnostic(n.start, Error, LeftBracketNotOnSeparateLine) in CheckBody(indent, n).diags <==>
      n.children[0].start.row == n.children[1].start.row
    ensures Diagnostic(n.start, Error, RightBracketNotOnSeparateLine) in CheckBody(indent, n).diags <==>
      n.children[|n.children| - 1].start.row == n.children[|n.children| - 2].start.row
  {
    var o, c := OpenBrace(indent, n), CloseBrace(indent, n);
    BlockOfBraces(indent, n);
    OpenBraceCount(indent, n);
    CloseBraceCount(indent, n);
  }

  lemma BlockOfBraces(indent: nat, n: Node)
    requires n.kind != ExpressionStatement && |n.children| >= 2
    requires IndentsRange(indent + 2, n, 0, |n.children|, true) == Done
    ensures CheckBody(indent, n) == Report(OpenBrace(indent, n).diags + CloseBrace(indent, n).diags, false)
  {
    var o, c := OpenBrace(indent, n), CloseBrace(indent, n);
    var inner := IndentsRange(indent + 2, n, 0, |n.children|, true);
    assert CheckBody(indent, n) == Then(Done, Then(o, Then(inner, c)));
    assert Then(inner, c) == c;
    assert [] + (o.diags + c.diags) == o.diags + c.diags;
  }

  lemma OpenBraceCount(indent: nat, n: Node)
    requires |n.children| >= 2
    ensures |OpenBrace(indent, n).diags| == Count(n.children[0].start.row == n.children[1].start.row)
                                          + Count(n.children[0].start.column != indent)
    ensures Diagnostic(n.start, Error, LeftBracketNotOnSeparateLine) in OpenBrace(indent, n).diags <==>
      n.children[0].start.row == n.children[1].start.row
    ensures Diagnostic(n.start, Error, RightBracketNotOnSeparateLine) !in OpenBrace(indent, n).diags
  {
  }

  lemma CloseBraceCount(indent: nat, n: Node)
    requires |n.children| >= 2
    ensures |CloseBrace(indent, n).diags|
      == Count(n.children[|n.children| - 1].start.row == n.children[|n.children| - 2].start.row)
       + Count(n.children[|n.children| - 1].start.column != indent)
    ensures Diagnostic(n.start, Error, RightBracketNotOnSeparateLine) in CloseBrace(indent, n).diags <==>
      n.children[|n.children| - 1].start.row == n.children[|n.children| - 2].start.row
    ensures Diagnostic(n.start, Error, LeftBracketNotOnSeparateLine) !in CloseBrace(indent, n).diags
  {
  }

  /** One misplaced brace, one diagnostic: an opening brace in the wrong
      column, everything else in place. */
  lemma MisplacedOpenBrace(indent: nat, n: Node)
    requires n.kind != ExpressionStatement && |n.children| >= 2
    requires IndentsRange(indent + 2, n, 0, |n.children|, true) == Done
    requires n.children[0].start.row != n.children[1].start.row
    requires n.children[|n.children| - 1].start.row != n.children[|n.children| - 2].start.row
    requires n.children[|n.children| - 1].start.column == indent
    requires n.children[0].start.column != indent
    ensures CheckBody(indent, n).diags == [Diagnostic(n.start, Error, WrongIndentation(indent, n.children[0].start.column))]
  {
    BracePolicy(indent, n);
  }

  /** `else` followed by anything but an `if`: that statement is checked as
      a block one level in, and nothing else is checked there. */
  lemma ElseBody(indent: nat, n: Node)
    requires n.kind == ElseClause && |n.children| >= 2 && n.children[1].kind != IfStatement
    ensures CheckIf(indent, n) == CheckBody(indent + 2, n.children[1])
    ensures Sound(CheckIf(indent, n).diags, indent + 2)
  {
  }

  /** `else if`: the `if` must start on the `else` row, and is reported
      first when it does not; either way the `if` is then checked at the
      same indent, its consequence one level in and its alternative at that
      indent. */
  lemma ElseIf(indent: nat, n: Node)
    requires n.kind == ElseClause && |n.children| >= 2 && n.children[1].kind == IfStatement
    ensures n.children[1].start.row != n.start.row ==>
      CheckIf(indent, n).diags != []
      && CheckIf(indent, n).diags[0] == Diagnostic(n.children[1].start, Error, IfNotInlinedWithElse)
    ensures CheckIf(indent, n) ==
      Then(Emit(n.children[1].start.row != n.start.row, n.children[1].start, IfNotInlinedWithElse),
           CheckIf(indent, n.children[1]))
    ensures CheckIf(indent, n.children[1]) == IfArms(indent, n.children[1])
  {
  }

  /** A consequence opening on the `if` row is reported first; either way
      the consequence is then checked as a block one level in. */
  lemma ConsequenceOnIfRow(indent: nat, n: Node, i: nat)
    requires FieldIndex(n, Consequence) == Some(i)
    ensures n.children[i].start.row == n.start.row ==>
      CheckConsequence(indent, n).diags != []
      && CheckConsequence(indent, n).diags[0] == Diagnostic(n.children[i].start, Error, LeftBracketNotOnSeparateLine)
    ensures CheckConsequence(indent, n) ==
      Then(Emit(n.children[i].start.row == n.start.row, n.children[i].start, LeftBracketNotOnSeparateLine),
           CheckBody(indent + 2, n.children[i]))
  {
  }

  /** A `for` with the empty statement as its body: flagged exactly when the
      `;` is not on the row of what precedes it, and nothing else. */
  lemma ForEmptyBody(indent: nat, n: Node, i: nat)
    requires FieldIndex(n, Body) == Some(i) && 0 < i
    requires n.children[i].kind == ExpressionStatement && NamedCount(n.children[i].children) == 0
    ensures CheckFor(indent, n).diags ==
      if n.children[i - 1].start.row != n.children[i].start.row
      then [Diagnostic(n.children[i].start, Error, EmptyBodyNotInline)] else []
    ensures !CheckFor(indent, n).crashed
  {
  }

  /** A `for` whose body is a non-empty expression statement checks that
      statement's contents two levels in. */
  lemma ForExpressionBody(indent: nat, n: Node, i: nat)
    requires FieldIndex(n, Body) == Some(i) && 0 < i
    requires n.children[i].kind == ExpressionStatement && NamedCount(n.children[i].children) > 0
    ensures Sound(CheckFor(indent, n).diags, indent + 4)
    ensures !CheckFor(indent, n).crashed ==>
      forall k :: 0 <= k < |n.children[i].children| && n.children[i].children[k].named ==>
        CheckedAt(indent + 4, CheckFor(indent, n).diags, n.children[i].children[k])
  {
  }

  /** A `for` with a braced body: a body opening on the row of what precedes
      it is reported first; either way the body is then checked as a block
      one level in. */
  lemma ForBlockBody(indent: nat, n: Node, i: nat)
    requires FieldIndex(n, Body) == Some(i) && 0 < i && n.children[i].kind == CompoundStatement
    ensures n.children[i].start.row == n.children[i - 1].start.row ==>
      CheckFor(indent, n).diags != []
      && CheckFor(indent, n).diags[0] == Diagnostic(n.children[i].start, Error, LeftBracketNotOnSeparateLine)
    ensures CheckFor(indent, n) ==
      Then(Emit(n.children[i].start.row == n.children[i - 1].start.row, n.children[i].start, LeftBracketNotOnSeparateLine),
           CheckBody(indent + 2, n.children[i]))
  {
  }

  /** `while` and `do`: the same rule for the body. */
  lemma WhileBody(indent: nat, n: Node, i: nat)
    requires FieldIndex(n, Body) == Some(i) && 0 < i
    ensures n.children[i].start.row == n.children[i - 1].start.row ==>
      CheckWhile(indent, n).diags != []
      && CheckWhile(indent, n).diags[0] == Diagnostic(n.children[i].start, Error, LeftBracketNotOnSeparateLine)
    ensures CheckWhile(indent, n) ==
      Then(Emit(n.children[i].start.row == n.children[i - 1].start.row, n.children[i].start, LeftBracketNotOnSeparateLine),
           CheckBody(indent + 2, n.children[i]))
  {
  }

  /** `switch`: the body's brace is checked one level in, its cases two
      levels in, and its closing brace one level in. */
  lemma SwitchLayout(indent: nat, n: Node, i: nat)
    requires FieldIndex(n, Body) == Some(i) && 0 < i
    ensures n.children[i].start.row == n.children[i - 1].start.row ==>
      CheckSwitch(indent, n).diags != []
      && CheckSwitch(indent, n).diags[0] == Diagnostic(n.children[i].start, Error, LeftBracketNotOnSeparateLine)
    ensures Misplaced(indent + 2, n.children[i]) in CheckSwitch(indent, n).diags <==>
      n.children[i].start.column != indent + 2
    ensures !CheckSwitch(indent, n).crashed ==>
      forall k :: 0 <= k < |n.children[i].children| && n.children[i].children[k].named
                  && n.children[i].children[k].kind == CaseStatement ==>
        ColumnChecked(indent + 4, CheckSwitch(indent, n).diags, n.children[i].children[k])
    ensures !CheckSwitch(indent, n).crashed ==>
      |n.children[i].children| >= 2
      && ColumnChecked(indent + 2, CheckSwitch(indent, n).diags, n.children[i].children[|n.children[i].children| - 1])
  {
    var body := n.children[i];
    var open, cases, close := SwitchOpen(indent + 2, body, n.children[i - 1]),
      CaseRange(indent + 4, body, |body.children|), SwitchClose(indent + 2, body);
    assert CheckSwitch(indent, n) == Then(open, Then(cases, close));
    assert Sound(cases.diags, indent + 4);
  }

  /** A `case` whose children stop at or before the content offset makes
      `children[offset]` fail: the check dies with nothing printed. */
  lemma ShortCase(indent: nat, n: Node)
    requires |n.children| <= (if n.children != [] && n.children[0].kind == CaseKeyword then 3 else 2)
    ensures CheckCase(indent, n) == Crash
  {
  }

  /** A body that is a lone `;` (an expression statement with one child),
      as in `while (x);` or `if (x);`, makes the brace policy read
      `children[1]` and fail. */
  lemma LoneSemicolonBody(indent: nat, n: Node, i: nat)
    requires 0 < i < |n.children| && |n.children[i].children| < 2
    ensures FieldIndex(n, Body) == Some(i) ==> CheckWhile(indent, n).crashed
    ensures FieldIndex(n, Consequence) == Some(i) ==> CheckConsequence(indent, n).crashed && IfArms(indent, n).crashed
  {
  }

  /** A `for` body that is neither a block nor an expression statement
      (`return x;`, `if (...) ...`) is not checked at all. */
  lemma ForOtherBody(indent: nat, n: Node, i: nat)
    requires FieldIndex(n, Body) == Some(i)
    requires n.children[i].kind != CompoundStatement && n.children[i].kind != ExpressionStatement
    ensures CheckFor(indent, n) == Done
  {
  }

  /** Loops without a body, or whose body has nothing before it, check nothing. */
  lemma NoBodyNoDiagnostics(indent: nat, n: Node)
    requires FieldIndex(n, Body).None? || FieldIndex(n, Body) == Some(0)
    ensures CheckFor(indent, n) == Done && CheckWhile(indent, n) == Done && CheckSwitch(indent, n) == Done
  {
  }
}
