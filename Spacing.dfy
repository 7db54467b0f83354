/** The token-spacing checker `__check_whitespaces`: five independent
    searches over one node's source text, each a fixed regular expression
    of the source written out here as a predicate on the string.

    Two of the source's patterns do not do what they evidently mean to (see
    the findings in README.md).  `Whitespaces` uses them as written
    (`UnspacedBeforeOperatorAsWritten`, `StripQuotedAsWritten`);
    `WhitespacesCorrected` uses the corrected definitions
    (`UnspacedBeforeOperator`, `StripLiterals`) and stands beside it. */
module Spacing {
  import opened SyntaxTree
  import opened Diagnostics

  /** Python's `\s` on str: the characters for which str.isspace holds. */
  predicate IsSpace(c: char)
  {
    var k := c as int;
    (9 <= k <= 13) || (28 <= k <= 32) || k == 0x85 || k == 0xA0 || k == 0x1680
    || (0x2000 <= k <= 0x200A) || k == 0x2028 || k == 0x2029 || k == 0x202F
    || k == 0x205F || k == 0x3000
  }

  /** The characters that open the operator class `[+\*\/%&|^<>!=]=`. */
  predicate IsOperatorChar(c: char)
  {
    c in "+*/%&|^<>!="
  }

  /** Length of the operator `\|\||&&|<<=|>>=|[+\*\/%&|^<>!=]=` matched at
      position i, or 0.  At most one alternative can match at a position,
      so the order of the alternatives does not matter. */
  function OpLen(s: string, i: nat): (r: nat)
    ensures r == 0 || r == 2 || r == 3
    ensures r > 0 ==> i + r <= |s| && IsOperatorChar(s[i])
    ensures i < |s| && !IsOperatorChar(s[i]) ==> r == 0
  {
    if i + 2 <= |s| && ((s[i] == '|' && s[i + 1] == '|') || (s[i] == '&' && s[i + 1] == '&')) then 2
    else if i + 3 <= |s| && (s[i] == '<' || s[i] == '>') && s[i + 1] == s[i] && s[i + 2] == '=' then 3
    else if i + 2 <= |s| && IsOperatorChar(s[i]) && s[i + 1] == '=' then 2
    else 0
  }

  /** `\(\s+` */
  predicate HasSpaceAfterOpenParen(s: string)
    ensures HasSpaceAfterOpenParen(s) ==> '(' in s
  {
    exists i :: 0 <= i && i + 1 < |s| && s[i] == '(' && IsSpace(s[i + 1])
  }

  /** `\s+\)` */
  predicate HasSpaceBeforeCloseParen(s: string)
    ensures HasSpaceBeforeCloseParen(s) ==> ')' in s
  {
    exists i :: 0 <= i && i + 1 < |s| && IsSpace(s[i]) && s[i + 1] == ')'
  }

  /** `(?<!\s)(op)` searched at every position, as written: an operator
      inside a longer one (the `<=` of `<<=`) is tried on its own. */
  predicate UnspacedBeforeOperatorAsWritten(s: string)
    ensures UnspacedBeforeOperatorAsWritten(s) ==> exists k :: 0 <= k < |s| && IsOperatorChar(s[k])
  {
    exists i :: 0 <= i < |s| && OpLen(s, i) > 0 && (i == 0 || !IsSpace(s[i - 1]))
  }

  /** `(op)(?!\s)` */
  predicate UnspacedAfterOperator(s: string)
    ensures UnspacedAfterOperator(s) ==> exists k :: 0 <= k < |s| && IsOperatorChar(s[k])
  {
    exists i :: 0 <= i < |s| && OpLen(s, i) > 0 && (i + OpLen(s, i) == |s| || !IsSpace(s[i + OpLen(s, i)]))
  }

  /** `,(?!\s)` */
  predicate UnspacedComma(t: string)
    ensures UnspacedComma(t) ==> ',' in t
  {
    exists i :: 0 <= i < |t| && t[i] == ',' && (i + 1 == |t| || !IsSpace(t[i + 1]))
  }

  /** Corrected before-operator check: operators are read left to right as
      whole tokens, and a token is flagged when no whitespace precedes it. */
  predicate UnspacedBeforeOperator(s: string)
  {
    UnspacedOperatorFrom(s, 0)
  }

  predicate UnspacedOperatorFrom(s: string, i: nat)
    decreases |s| - i
  {
    if i >= |s| then false
    else if OpLen(s, i) > 0 then (i == 0 || !IsSpace(s[i - 1])) || UnspacedOperatorFrom(s, i + OpLen(s, i))
    else UnspacedOperatorFrom(s, i + 1)
  }

  /** Index of the first `q` at or after j, unless a newline comes first
      (`.` does not match a newline). */
  function Close(s: string, j: nat, q: char): (r: Option<nat>)
    decreases |s| - j
    ensures r.Some? ==> j <= r.value < |s| && s[r.value] == q
    ensures r.Some? ==> forall k :: j <= k < r.value ==> s[k] != q && s[k] != '\n'
    ensures r.None? ==> forall k :: j <= k < |s| && s[k] == q ==> exists m :: j <= m < k && s[m] == '\n'
  {
    if j >= |s| then None
    else if s[j] == q then Some(j)
    else if s[j] == '\n' then None
    else Close(s, j + 1, q)
  }

  predicate IsQuote(c: char) { c == '"' || c == '\'' }

  /** `re.sub(r"([\"\'].*?\")", "", s)` as written: a span opened by either
      quote is closed only by a double quote. */
  function StripQuotedAsWritten(s: string): (r: string)
    decreases |s|
    ensures |r| <= |s|
  {
    if s == [] then []
    else if IsQuote(s[0]) && Close(s, 1, '"').Some? then StripQuotedAsWritten(s[Close(s, 1, '"').value + 1..])
    else [s[0]] + StripQuotedAsWritten(s[1..])
  }

  /** Corrected masking: a literal opened by a quote is closed by the same quote. */
  function StripLiterals(s: string): (r: string)
    decreases |s|
    ensures |r| <= |s|
  {
    if s == [] then []
    else if IsQuote(s[0]) && Close(s, 1, s[0]).Some? then StripLiterals(s[Close(s, 1, s[0]).value + 1..])
    else [s[0]] + StripLiterals(s[1..])
  }

  /** __check_whitespaces: the five checks, in the source's order, all
      reported at the node's start, with the patterns as written. */
  function Whitespaces(n: Node): (r: seq<Diagnostic>)
    ensures |r| <= 5
    ensures forall d :: d in r ==> d.at == n.start && d.severity == Error
    ensures Diagnostic(n.start, Error, SpaceAfterOpenParen) in r <==> HasSpaceAfterOpenParen(n.text)
    ensures Diagnostic(n.start, Error, SpaceBeforeCloseParen) in r <==> HasSpaceBeforeCloseParen(n.text)
    ensures Diagnostic(n.start, Error, MissingSpaceBeforeOperator) in r <==> UnspacedBeforeOperatorAsWritten(n.text)
    ensures Diagnostic(n.start, Error, MissingSpaceAfterOperator) in r <==> UnspacedAfterOperator(n.text)
    ensures Diagnostic(n.start, Error, MissingSpaceAfterComma) in r <==> UnspacedComma(StripQuotedAsWritten(n.text))
  {
    var t := n.text;
    Emit(HasSpaceAfterOpenParen(t), n.start, SpaceAfterOpenParen).diags
    + Emit(HasSpaceBeforeCloseParen(t), n.start, SpaceBeforeCloseParen).diags
    + Emit(UnspacedBeforeOperatorAsWritten(t), n.start, MissingSpaceBeforeOperator).diags
    + Emit(UnspacedAfterOperator(t), n.start, MissingSpaceAfterOperator).diags
    + Emit(UnspacedComma(StripQuotedAsWritten(t)), n.start, MissingSpaceAfterComma).diags
  }

  /** The same five checks with the two corrections: operators read as whole
      tokens, and a literal closed by the quote that opened it. */
  function WhitespacesCorrected(n: Node): (r: seq<Diagnostic>)
    ensures |r| <= 5
    ensures forall d :: d in r ==> d.at == n.start && d.severity == Error
    ensures Diagnostic(n.start, Error, SpaceAfterOpenParen) in r <==> HasSpaceAfterOpenParen(n.text)
    ensures Diagnostic(n.start, Error, SpaceBeforeCloseParen) in r <==> HasSpaceBeforeCloseParen(n.text)
    ensures Diagnostic(n.start, Error, MissingSpaceBeforeOperator) in r <==> UnspacedBeforeOperator(n.text)
    ensures Diagnostic(n.start, Error, MissingSpaceAfterOperator) in r <==> UnspacedAfterOperator(n.text)
    ensures Diagnostic(n.start, Error, MissingSpaceAfterComma) in r <==> UnspacedComma(StripLiterals(n.text))
  {
    var t := n.text;
    Emit(HasSpaceAfterOpenParen(t), n.start, SpaceAfterOpenParen).diags
    + Emit(HasSpaceBeforeCloseParen(t), n.start, SpaceBeforeCloseParen).diags
    + Emit(UnspacedBeforeOperator(t), n.start, MissingSpaceBeforeOperator).diags
    + Emit(UnspacedAfterOperator(t), n.start, MissingSpaceAfterOperator).diags
    + Emit(UnspacedComma(StripLiterals(t)), n.start, MissingSpaceAfterComma).diags
  }

  /** The corrected checks report a subset of what the checks as written
      report: only the before-operator alarm can disappear, and only where
      the pattern as written also fires. */
  lemma CorrectedOperatorAlarmKept(n: Node)
    ensures Diagnostic(n.start, Error, MissingSpaceBeforeOperator) in WhitespacesCorrected(n) ==>
      Diagnostic(n.start, Error, MissingSpaceBeforeOperator) in Whitespaces(n)
  {
    if UnspacedBeforeOperator(n.text) {
      CorrectedOperatorCheckIsNarrower(n.text, 0);
    }
  }

  // ---------------------------------------------------------------------
  // Properties of the operator checks

  /** Every operator token the corrected scan flags is also matched by the
      pattern as written: the correction only removes false alarms. */
  lemma {:induction false} CorrectedOperatorCheckIsNarrower(s: string, i: nat)
    requires UnspacedOperatorFrom(s, i)
    ensures UnspacedBeforeOperatorAsWritten(s)
    decreases |s| - i
  {
    if OpLen(s, i) > 0 && (i == 0 || !IsSpace(s[i - 1])) {
      assert 0 <= i < |s| && OpLen(s, i) > 0 && (i == 0 || !IsSpace(s[i - 1]));
    } else if OpLen(s, i) > 0 {
      CorrectedOperatorCheckIsNarrower(s, i + OpLen(s, i));
    } else {
      CorrectedOperatorCheckIsNarrower(s, i + 1);
    }
  }

  /** The three-character operators as one token. */
  predicate IsCompoundShift(op: string)
  {
    op == "<<=" || op == ">>="
  }

  /** Finding, as written: a shift-assignment with a space on both sides
      is still reported, because the inner `<=` / `>=` is preceded by `<` / `>`. */
  lemma SpacedShiftAssignFlaggedAsWritten(l: string, op: string, r: string)
    requires IsCompoundShift(op)
    ensures UnspacedBeforeOperatorAsWritten(l + " " + op + " " + r)
  {
    var s := l + " " + op + " " + r;
    var i := |l| + 2;
    assert s[i - 1] == op[0] && s[i] == op[1] && s[i + 1] == op[2];
    assert OpLen(s, i) == 2;
  }

  predicate NoOperatorChars(s: string)
  {
    forall k :: 0 <= k < |s| ==> !IsOperatorChar(s[k])
  }

  /** The corrected scan, started inside a stretch without operator
      characters, flags nothing before the stretch ends. */
  lemma {:induction false} ScanSkipsPlainText(s: string, i: nat, j: nat)
    requires i <= j <= |s|
    requires forall k :: i <= k < j ==> !IsOperatorChar(s[k])
    ensures UnspacedOperatorFrom(s, i) == UnspacedOperatorFrom(s, j)
    decreases j - i
  {
    if i < j {
      assert OpLen(s, i) == 0;
      ScanSkipsPlainText(s, i + 1, j);
    }
  }

  /** A whole operator token: the operator pattern matches all of it. */
  predicate IsOperatorToken(op: string)
  {
    op != [] && OpLen(op, 0) == |op|
  }

  /** A token followed by a space is matched in full wherever it stands. */
  lemma TokenMatched(s: string, at: nat, op: string)
    requires IsOperatorToken(op)
    requires at + |op| < |s| && s[at..at + |op|] == op && s[at + |op|] == ' '
    ensures OpLen(s, at) == |op|
  {
    assert s[at] == op[0];
    assert |op| >= 2 ==> s[at + 1] == op[1];
    assert |op| == 3 ==> s[at + 2] == op[2];
  }

  /** Corrected: an operator spaced on both sides, between operands without
      operator characters, is not reported. */
  lemma SpacedOperatorAccepted(l: string, op: string, r: string)
    requires IsOperatorToken(op)
    requires NoOperatorChars(l) && NoOperatorChars(r)
    ensures !UnspacedBeforeOperator(l + " " + op + " " + r)
  {
    var s := l + " " + op + " " + r;
    var at := |l| + 1;
    assert forall k :: 0 <= k < at ==> !IsOperatorChar(s[k]) by {
      forall k | 0 <= k < at ensures !IsOperatorChar(s[k]) {
        if k < |l| { assert s[k] == l[k]; } else { assert s[k] == ' '; }
      }
    }
    ScanSkipsPlainText(s, 0, at);
    assert s[at - 1] == ' ';
    assert s[at..at + |op|] == op;
    TokenMatched(s, at, op);
    var after := at + |op|;
    assert forall k :: after <= k < |s| ==> !IsOperatorChar(s[k]) by {
      forall k | after <= k < |s| ensures !IsOperatorChar(s[k]) {
        if k == after { assert s[k] == ' '; } else { assert s[k] == r[k - after - 1]; }
      }
    }
    ScanSkipsPlainText(s, after, |s|);
  }

  // ---------------------------------------------------------------------
  // Properties of the literal masking

  predicate NoQuotes(s: string)
  {
    forall k :: 0 <= k < |s| ==> !IsQuote(s[k])
  }

  /** Text without quote characters is left as it is. */
  lemma {:induction false} StripLiteralsKeepsPlainText(s: string)
    requires NoQuotes(s)
    ensures StripLiterals(s) == s
    decreases |s|
  {
    if s != [] {
      StripLiteralsKeepsPlainText(s[1..]);
    }
  }

  lemma {:induction false} CloseFinds(s: string, j: nat, q: char, k: nat)
    requires j <= k < |s| && s[k] == q
    requires forall m :: j <= m < k ==> s[m] != q && s[m] != '\n'
    ensures Close(s, j, q) == Some(k)
    decreases k - j
  {
    if j < k {
      CloseFinds(s, j + 1, q, k);
    }
  }

  lemma {:induction false} CloseMisses(s: string, j: nat, q: char)
    requires forall m :: j <= m < |s| ==> s[m] != q
    ensures Close(s, j, q) == None
    decreases |s| - j
  {
    if j < |s| && s[j] != '\n' {
      CloseMisses(s, j + 1, q);
    }
  }

  /** A literal `q body q` that closes on its line is removed whole, with
      whatever it holds, and the text before it is kept. */
  lemma {:induction false} StripLiteralsRemovesLiteral(pre: string, q: char, body: string, post: string)
    requires NoQuotes(pre) && IsQuote(q)
    requires forall k :: 0 <= k < |body| ==> body[k] != q && body[k] != '\n'
    ensures StripLiterals(pre + [q] + body + [q] + post) == pre + StripLiterals(post)
    decreases |pre|
  {
    var s := pre + [q] + body + [q] + post;
    if pre == [] {
      assert s == [q] + body + [q] + post;
      assert forall k :: 1 <= k < 1 + |body| ==> s[k] == body[k - 1];
      CloseFinds(s, 1, q, 1 + |body|);
      assert s[1 + |body| + 1..] == post;
    } else {
      assert s[0] == pre[0];
      assert s[1..] == pre[1..] + [q] + body + [q] + post;
      StripLiteralsRemovesLiteral(pre[1..], q, body, post);
    }
  }

  /** As written, text without a double quote is left as it is. */
  lemma {:induction false} StripQuotedAsWrittenKeeps(s: string)
    requires forall k :: 0 <= k < |s| ==> s[k] != '"'
    ensures StripQuotedAsWritten(s) == s
    decreases |s|
  {
    if s != [] {
      CloseMisses(s, 1, '"');
      StripQuotedAsWrittenKeeps(s[1..]);
    }
  }

  /** As written: a span opened by either quote and closed by a double
      quote on the same line is removed whole, and the text before it is kept. */
  lemma {:induction false} StripQuotedAsWrittenRemovesSpan(pre: string, q: char, body: string, post: string)
    requires NoQuotes(pre) && IsQuote(q)
    requires forall k :: 0 <= k < |body| ==> body[k] != '"' && body[k] != '\n'
    ensures StripQuotedAsWritten(pre + [q] + body + ['"'] + post) == pre + StripQuotedAsWritten(post)
    decreases |pre|
  {
    if pre == [] {
      assert pre + [q] + body + ['"'] + post == [q] + body + ['"'] + post;
      StripQuotedAsWrittenLeadingSpan(q, body, post);
    } else {
      var s := pre + [q] + body + ['"'] + post;
      assert s[0] == pre[0] && !IsQuote(s[0]);
      assert s[1..] == pre[1..] + [q] + body + ['"'] + post;
      assert StripQuotedAsWritten(s) == [s[0]] + StripQuotedAsWritten(s[1..]);
      StripQuotedAsWrittenRemovesSpan(pre[1..], q, body, post);
    }
  }

  /** The span at the very start of the text. */
  lemma StripQuotedAsWrittenLeadingSpan(q: char, body: string, post: string)
    requires IsQuote(q)
    requires forall k :: 0 <= k < |body| ==> body[k] != '"' && body[k] != '\n'
    ensures StripQuotedAsWritten([q] + body + ['"'] + post) == StripQuotedAsWritten(post)
  {
    var s := [q] + body + ['"'] + post;
    assert forall k :: 1 <= k < 1 + |body| ==> s[k] == body[k - 1];
    CloseFinds(s, 1, '"', 1 + |body|);
    assert s[1 + |body| + 1..] == post;
  }

  /** As written: an unspaced comma before a `"..."` string is still
      reported, whatever the string holds. */
  lemma CommaBeforeStringFlagged(pre: string, body: string, post: string, i: nat)
    requires NoQuotes(pre) && i + 1 < |pre| && pre[i] == ',' && !IsSpace(pre[i + 1])
    requires forall k :: 0 <= k < |body| ==> body[k] != '"' && body[k] != '\n'
    ensures UnspacedComma(StripQuotedAsWritten(pre + ['"'] + body + ['"'] + post))
  {
    StripQuotedAsWrittenRemovesSpan(pre, '"', body, post);
    var t := pre + StripQuotedAsWritten(post);
    assert t[i] == ',' && t[i + 1] == pre[i + 1];
  }

  /** Finding, as written: a character literal is only closed by a later
      double quote, so in an argument list such as `(',', x)` the comma
      inside `','` stays in the masked text and is reported. */
  lemma CharLiteralCommaFlaggedAsWritten(pre: string, post: string)
    requires forall k :: 0 <= k < |pre| ==> pre[k] != '"'
    requires forall k :: 0 <= k < |post| ==> post[k] != '"'
    ensures UnspacedComma(StripQuotedAsWritten(pre + "','" + post))
  {
    var lit := "','";
    assert forall k :: 0 <= k < |lit| ==> lit[k] != '"';
    assert lit[1] == ',' && lit[2] == '\'';
    CommaKeptFlagged(pre, lit, post, 1);
  }

  /** A comma followed by a non-space, in text without double quotes, is
      reported by the check as written. */
  lemma CommaKeptFlagged(a: string, b: string, c: string, i: nat)
    requires forall k :: 0 <= k < |a| ==> a[k] != '"'
    requires forall k :: 0 <= k < |b| ==> b[k] != '"'
    requires forall k :: 0 <= k < |c| ==> c[k] != '"'
    requires i + 1 < |b| && b[i] == ',' && !IsSpace(b[i + 1])
    ensures UnspacedComma(StripQuotedAsWritten(a + b + c))
  {
    var s := a + b + c;
    assert forall k :: 0 <= k < |s| ==> s[k] != '"';
    StripQuotedAsWrittenKeeps(s);
    assert s[|a| + i] == ',' && s[|a| + i + 1] == b[i + 1];
  }

  /** Corrected: with the literal masked, the commas checked are exactly
      those of the text around it. */
  lemma CharLiteralCommaAccepted(pre: string, post: string)
    requires NoQuotes(pre) && NoQuotes(post) && !UnspacedComma(pre + post)
    ensures !UnspacedComma(StripLiterals(pre + "','" + post))
  {
    assert pre + "','" + post == pre + ['\''] + "," + ['\''] + post;
    StripLiteralsRemovesLiteral(pre, '\'', ",", post);
    StripLiteralsKeepsPlainText(post);
  }

  // ---------------------------------------------------------------------
  // The two findings on a whole node

  /** `x <<= 1` as the text of an argument list: the checks as written
      report a missing space before the operator, the corrected ones do not. */
  lemma SpacedShiftAssignReported(n: Node, l: string, op: string, r: string)
    requires IsCompoundShift(op) && n.text == l + " " + op + " " + r
    requires NoOperatorChars(l) && NoOperatorChars(r)
    ensures Diagnostic(n.start, Error, MissingSpaceBeforeOperator) in Whitespaces(n)
    ensures Diagnostic(n.start, Error, MissingSpaceBeforeOperator) !in WhitespacesCorrected(n)
  {
    SpacedShiftAssignFlaggedAsWritten(l, op, r);
    assert OpLen(op, 0) == 3;
    SpacedOperatorAccepted(l, op, r);
  }

  /** `(',', x)`: the checks as written report a missing space after a
      comma, the corrected ones do not. */
  lemma CharLiteralCommaReported(n: Node, pre: string, post: string)
    requires NoQuotes(pre) && NoQuotes(post) && !UnspacedComma(pre + post)
    requires n.text == pre + "','" + post
    ensures Diagnostic(n.start, Error, MissingSpaceAfterComma) in Whitespaces(n)
    ensures Diagnostic(n.start, Error, MissingSpaceAfterComma) !in WhitespacesCorrected(n)
  {
    assert forall k :: 0 <= k < |pre| ==> pre[k] != '"';
    assert forall k :: 0 <= k < |post| ==> post[k] != '"';
    CharLiteralCommaFlaggedAsWritten(pre, post);
    CharLiteralCommaAccepted(pre, post);
  }
}
