# nxstyle C checker, modelled in Dafny

nxstyle is a style checker for NuttX C sources. `CChecker.check_style` takes
the named captures of a tree-sitter query over a parsed C file and sends each
group of captures to a validator:

- function bodies go to the indentation checker `__check_indents`, with its
  helpers for `if`/`else`, `for`, `while`/`do`, `switch`, `case` and the
  shared brace policy `__check_body`;
- parenthesised expressions of keyword statements get a keyword-spacing check
  followed by `__check_whitespaces`;
- argument lists go to `__check_whitespaces`;
- structs and enums go to `__check_structs` and `__check_enums`, which check
  the naming and then the body layout;
- pointer declarators go to `__check_pointer_declarator`.

Each validator ends in `style_assert(check, line)`, which prints
`file:row+1:column: [ERROR] text` when the check holds. `Checker.walk_tree`
is the generator that yields the nodes of a subtree in pre-order by moving a
tree cursor.

The project has one module per concern:

- `SyntaxTree`: the node record the checker reads. Each node has its kind,
  the field it hangs under in its parent, whether it is named, its start and
  end points, its text and its children. Field lookup returns the first child
  that carries a field. `WellFormed` says that a kind or field name the
  checker knows is always carried by its own constructor, never by `Other`
  or `OtherField`.
- `Diagnostics`: the seventeen messages (with the source's own wording) and
  the rendering of a printed line. A `Report` is the list of diagnostics plus
  a flag that says the traversal died on an out-of-range child index. Python
  raises IndexError there: what was already printed stays, and nothing after
  it runs. `Then` sequences two steps with that behaviour.
- `Layout`: `__check_indents` and its helpers, as mutually recursive
  functions over the tree. Every diagnostic they yield is `Sound`: it is an
  error with a layout message, and a wrong-indentation error names an
  expected column that differs from the actual one and lies an even number
  of columns beyond the starting indentation.
- `Spacing`: the five regular expressions of `__check_whitespaces`, written
  as predicates on strings with the patterns as written. `Whitespaces` is
  the check the program runs. `WhitespacesCorrected` is the same check with
  the two patterns of the findings below corrected; it is related to
  `Whitespaces` by lemmas and is not used by the rest of the model.
- `Naming`: the struct, enum and pointer-declarator checks.
- `StyleChecker`: `check_style`. The specification function `StyleReport`
  gives the complete output in order. Loop methods compute it the way the
  source does, one capture list after another, and stop at the first crash.
  `CheckStyle` is proved to print exactly `Lines(file, StyleReport(c).diags)`.
- `TreeWalk`: a `TreeCursor` class (a root and a path of child indices) with
  the three moves of a tree-sitter cursor. `WalkTree` runs the generator's
  loop and is proved to visit exactly the pre-order of the subtree.

## Model

| member | source | states |
|---|---|---|
| SyntaxTree.FieldIndex | nxtool/nxstyle/nxstyle.py:289-290 | `child_by_field_name`: returns the index of the first child that carries the field, with no earlier child carrying it; returns none only when no child carries it |
| SyntaxTree.NamedCount | nxtool/nxstyle/nxstyle.py:333 | the named-child count is zero exactly when no child is named |
| Diagnostics.Emit | nxtool/nxstyle/nxstyle.py:92-94 | `style_assert` prints its one error line exactly when the check holds, prints nothing otherwise, and never raises |
| Diagnostics.Then | nxtool/nxstyle/nxstyle.py:125-168 | running two steps in sequence crashes iff either step crashes; a crash in the first step drops the second step entirely; otherwise the output is the first step's lines followed by the second's |
| Diagnostics.ThenAssociative | nxtool/nxstyle/nxstyle.py:125-168 | how a chain of sequenced checks is grouped does not change what it prints or whether it crashes |
| Diagnostics.NatToString | nxtool/nxstyle/nxstyle.py:86-90 | the row and column in a printed line are non-empty runs of decimal digits |
| Diagnostics.NatToStringRoundTrip | nxtool/nxstyle/nxstyle.py:86-90 | a printed number reads back as the number that was printed |
| Diagnostics.MessageText | nxtool/nxstyle/nxstyle.py:203-541 | definition: the text of each of the seventeen messages in the source's wording, typos included; the wrong-indentation text names the expected and the actual column; no text is empty |
| Diagnostics.Render | nxtool/nxstyle/nxstyle.py:86-90 | definition of `error` (and of `info` and `warning` by severity): `path:row+1:column: [SEVERITY] text`; every line starts with the path and a colon |
| Diagnostics.RenderEndsWithMessage | nxtool/nxstyle/nxstyle.py:86-90 | every printed line ends with `] ` followed by the message text |
| Diagnostics.Lines | nxtool/nxstyle/nxstyle.py:92-94 | one printed line per diagnostic |
| Diagnostics.LinesAppend | nxtool/nxstyle/nxstyle.py:92-94 | printing two diagnostic streams one after the other prints the concatenation of their lines |
| Diagnostics.LinesAt | nxtool/nxstyle/nxstyle.py:86-94 | the k-th printed line is the rendering of the k-th diagnostic |
| Diagnostics.FirstColon | nxtool/nxstyle/nxstyle.py:86-90 | finds the first `:` of a line, or reports that the line has none |
| Diagnostics.ParseFieldsRoundTrip | nxtool/nxstyle/nxstyle.py:86-90 | the `row+1:column:` part of a line parses back to the point it was printed from |
| Diagnostics.LocationRoundTrip | nxtool/nxstyle/nxstyle.py:86-90 | a line that starts with the file path followed by that part parses back to the point, whatever follows |
| Diagnostics.RenderLocationRoundTrip | nxtool/nxstyle/nxstyle.py:86-90 | every error line can be parsed back to the exact 0-based row and column of its diagnostic; the path, the 1-based row and the column are not ambiguous |
| Layout.SoundDeeper | nxtool/nxstyle/nxstyle.py:170-209 | whatever holds of the diagnostics when checking starts two columns deeper also holds at the outer level |
| Layout.OwnColumn | nxtool/nxstyle/nxstyle.py:203-209 | the own-column `style_assert`: exactly one wrong-indentation error, naming the expected and the actual column, when the node is not at the indentation, and nothing when it is; never crashes |
| Layout.Indents | nxtool/nxstyle/nxstyle.py:170-209 | all diagnostics are sound for the indentation; a node of a kind with no case yields nothing; when the traversal survives, the last diagnostic is the node's own wrong-indentation error exactly when the node is not at the expected column; the children of a simple statement are Layout.PropagatingChildrenChecked |
| Layout.IndentsRange | nxtool/nxstyle/nxstyle.py:199-200 | checking a run of children at an indentation yields only sound diagnostics; when it survives, every child of the run (every named one, for the named-children loop) of a dispatched kind that is off that indentation has its wrong-indentation error among them |
| Layout.CheckBody | nxtool/nxstyle/nxstyle.py:211-255 | the brace policy yields only sound diagnostics; a block with fewer than two children crashes at `children[1]`; the opening brace's wrong-indentation error appears exactly when the brace is off the indentation; when the traversal survives, the closing brace's column is checked at the indentation and every named statement inside at the next level |
| Layout.OpenBrace | nxtool/nxstyle/nxstyle.py:224-236 | the opening-brace checks never crash and yield only sound diagnostics |
| Layout.CloseBrace | nxtool/nxstyle/nxstyle.py:242-255 | the closing-brace checks never crash and yield only sound diagnostics |
| Layout.CheckIf | nxtool/nxstyle/nxstyle.py:257-306 | the `if`/`else` checks yield only sound diagnostics for the indentation |
| Layout.IfArms | nxtool/nxstyle/nxstyle.py:289-306 | the arms yield only sound diagnostics; when the traversal survives, an alternative (an `else` clause) is checked at the same indentation as its `if`, so an alternative off that column gets its wrong-indentation error |
| Layout.CheckConsequence | nxtool/nxstyle/nxstyle.py:292-300 | the consequence checks yield only diagnostics that are sound one level in |
| Layout.CheckFor | nxtool/nxstyle/nxstyle.py:309-341 | the `for` checks yield only diagnostics that are sound one level in; the per-body rules are Layout.ForEmptyBody, Layout.ForExpressionBody, Layout.ForBlockBody and, for any other body, Layout.ForOtherBody |
| Layout.CheckWhile | nxtool/nxstyle/nxstyle.py:343-361 | the `while`/`do` checks yield only diagnostics that are sound one level in; the body rule is Layout.WhileBody |
| Layout.CheckSwitch | nxtool/nxstyle/nxstyle.py:363-405 | the `switch` checks yield only diagnostics that are sound one level in; the brace and case rules are Layout.SwitchLayout |
| Layout.SwitchOpen | nxtool/nxstyle/nxstyle.py:373-386 | never crashes; the left-bracket error appears exactly when the body starts on the row of what precedes it, and is then the first diagnostic; the body's wrong-indentation error appears exactly when the body is off the expected column |
| Layout.SwitchClose | nxtool/nxstyle/nxstyle.py:392-405 | crashes exactly when the body has fewer than two children; otherwise the reused left-bracket error appears exactly when the last two children share a row, and the closing brace's wrong-indentation error exactly when it is off the expected column |
| Layout.CaseRange | nxtool/nxstyle/nxstyle.py:388-390 | only sound diagnostics; when the traversal survives, every named `case_statement` child off the expected column has its wrong-indentation error among them |
| Layout.CheckCase | nxtool/nxstyle/nxstyle.py:407-436 | only sound diagnostics; crashes when there is nothing after the label (offset 3 after `case`, 2 after `default`); otherwise the label's own wrong-indentation error is the first diagnostic exactly when the label is off the expected column |
| Layout.CaseContents | nxtool/nxstyle/nxstyle.py:421-436 | a block after the label is reported with a left-bracket error exactly when it opens on the row of what precedes it, and then that error comes first; in every case the block is then checked one level in; plain statements after the label are each checked one level in |
| Layout.UnnamedChildrenSilent | nxtool/nxstyle/nxstyle.py:239-240 | only named children are checked: a run of anonymous children yields nothing and never crashes |
| Layout.AlignedLeafSilent | nxtool/nxstyle/nxstyle.py:191-209 | a simple statement at the expected column with no named children yields no diagnostic |
| Layout.RangePrefix | nxtool/nxstyle/nxstyle.py:199-200 | checking more children only appends: what the first children print is a prefix of what the whole run prints |
| Layout.MisplacedLeaf | nxtool/nxstyle/nxstyle.py:191-209 | a simple statement with no named children, off the expected column, prints exactly its own wrong-indentation error and nothing else |
| Layout.PropagatingChildrenChecked | nxtool/nxstyle/nxstyle.py:191-200 | a simple statement hands every named child to the check two columns in: when the traversal survives, each such child of a dispatched kind off that column has its wrong-indentation error in the output |
| Layout.MisplacedChildFirst | nxtool/nxstyle/nxstyle.py:191-209 | when the first named child of a simple statement is a leaf statement off the column two to the right, the first error printed for the statement is that child's wrong-indentation error, naming that column |
| Layout.FirstNamedChildFirst | nxtool/nxstyle/nxstyle.py:199-200 | the same for the named-children loop: its first error is that of the first named child when that child is a misplaced leaf |
| Layout.BracePolicy | nxtool/nxstyle/nxstyle.py:211-255 | for a block whose inner statements are clean: it never crashes; the number of diagnostics is the number of the four brace rules it breaks (open brace on the first statement's row, open brace column, close brace on the last statement's row, close brace column); the left- and right-bracket errors appear exactly when the matching row rule is broken |
| Layout.BlockOfBraces | nxtool/nxstyle/nxstyle.py:224-255 | for a block whose inner statements are clean, the output is the open-brace diagnostics followed by the close-brace diagnostics, with no crash |
| Layout.OpenBraceCount | nxtool/nxstyle/nxstyle.py:224-236 | the opening brace yields one diagnostic per broken rule, includes the left-bracket error exactly when the brace shares the first statement's row, and never includes the right-bracket error |
| Layout.CloseBraceCount | nxtool/nxstyle/nxstyle.py:242-255 | the closing brace yields one diagnostic per broken rule, includes the right-bracket error exactly when the brace shares the last statement's row, and never includes the left-bracket error |
| Layout.MisplacedOpenBrace | nxtool/nxstyle/nxstyle.py:230-236 | a block that is correct except for the column of its opening brace yields exactly one error, which names the expected and the actual column |
| Layout.ElseBody | nxtool/nxstyle/nxstyle.py:267-275 | a plain `else` is checked as a block one level in, and everything it reports is sound at that deeper level |
| Layout.ElseIf | nxtool/nxstyle/nxstyle.py:277-306 | an `else if` whose `if` is not on the `else` row is reported first with "If keyword not inlined with else keyword"; in both cases the output is that error (when present) followed by the check of the `if` itself at the same indent, which is its consequence one level in and its alternative at that indent |
| Layout.ConsequenceOnIfRow | nxtool/nxstyle/nxstyle.py:292-300 | the consequence is reported with a left-bracket error exactly when it starts on the `if` row, and then that error comes first; in every case the consequence is then checked as a block one level in |
| Layout.ForEmptyBody | nxtool/nxstyle/nxstyle.py:331-337 | a `for` whose body is the empty statement yields "Empty body should be inline with last node" if and only if the `;` is not on the row of what precedes it, and nothing else, and never crashes |
| Layout.ForExpressionBody | nxtool/nxstyle/nxstyle.py:339-341 | an unbraced statement body of a `for` yields diagnostics sound two levels in, and each named statement inside it is checked at exactly two levels in |
| Layout.ForBlockBody | nxtool/nxstyle/nxstyle.py:321-329 | a braced `for` body is reported with a left-bracket error exactly when it opens on the row of what precedes it, and then that error comes first; in every case the body is then checked as a block one level in |
| Layout.ForOtherBody | nxtool/nxstyle/nxstyle.py:318-341 | a `for` body that is neither a block nor an expression statement (`return x;`, an `if`) is not checked at all: there is no branch for it |
| Layout.WhileBody | nxtool/nxstyle/nxstyle.py:355-361 | the same rule for the body of `while` and `do`: left-bracket error first exactly on a shared row, then the block one level in, in every case |
| Layout.SwitchLayout | nxtool/nxstyle/nxstyle.py:363-405 | a `switch` body on the row of what precedes it is reported first with a left-bracket error; the body's wrong-indentation error appears exactly when it is off one level in; when the traversal survives, each named case off two levels in and the closing brace off one level in get their wrong-indentation errors |
| Layout.LoneSemicolonBody | nxtool/nxstyle/nxstyle.py:211-226 | a `while`, `do` or `if` whose body is a lone `;` (one child) crashes, because the brace policy reads `children[1]` of that statement |
| Layout.ShortCase | nxtool/nxstyle/nxstyle.py:409-411 | a case with nothing after its label crashes at `children[offset]` before printing anything |
| Layout.NoBodyNoDiagnostics | nxtool/nxstyle/nxstyle.py:309-371 | a `for`, `while` or `switch` with no body, or whose body has no preceding sibling, yields nothing |
| Spacing.OpLen | nxtool/nxstyle/nxstyle.py:457 | an operator of the class `\|\|`, `&&`, `<<=`, `>>=`, `[+*/%&\|^<>!=]=` is 2 or 3 characters long, lies inside the text and starts with an operator character |
| Spacing.HasSpaceAfterOpenParen | nxtool/nxstyle/nxstyle.py:446 | definition of `\(\s+`: some `(` is followed by whitespace; a match needs a `(` |
| Spacing.HasSpaceBeforeCloseParen | nxtool/nxstyle/nxstyle.py:451 | definition of `\s+\)`: some `)` follows whitespace; a match needs a `)` |
| Spacing.UnspacedBeforeOperatorAsWritten | nxtool/nxstyle/nxstyle.py:457 | definition of the pattern as written: at some position an operator of the class starts with no whitespace before it (or at the start of the text), tried at every position; a match needs an operator character |
| Spacing.UnspacedAfterOperator | nxtool/nxstyle/nxstyle.py:464 | definition of `(op)(?!\s)`: some operator of the class is followed by a non-space or by the end of the text; a match needs an operator character |
| Spacing.UnspacedComma | nxtool/nxstyle/nxstyle.py:471 | definition of `,(?!\s)`: some comma is followed by a non-space or by the end of the text; a match needs a comma |
| Spacing.Close | nxtool/nxstyle/nxstyle.py:471 | the lazy `.*?` closing quote: the first matching quote on the same line, or none when a newline comes before every quote |
| Spacing.StripQuotedAsWritten | nxtool/nxstyle/nxstyle.py:471 | removing the quoted spans never lengthens the text; what it removes and keeps is Spacing.StripQuotedAsWrittenRemovesSpan and Spacing.StripQuotedAsWrittenKeeps |
| Spacing.StripLiterals | nxtool/nxstyle/nxstyle.py:471 | the corrected masking never lengthens the text |
| Spacing.Whitespaces | nxtool/nxstyle/nxstyle.py:438-474 | at most five errors, all at the node's start; each of the five errors appears if and only if its pattern, as written, matches: whitespace after `(`, whitespace before `)`, the before-operator look-behind at any position, an operator without whitespace after it, a comma without whitespace after it once the quoted spans are removed |
| Spacing.WhitespacesCorrected | nxtool/nxstyle/nxstyle.py:438-474 | the same five errors with the corrected operator scan and literal masking of the findings below: each appears if and only if its corrected pattern matches |
| Spacing.CorrectedOperatorAlarmKept | nxtool/nxstyle/nxstyle.py:457 | every before-operator error of the corrected checks is also reported by the checks as written |
| Spacing.CorrectedOperatorCheckIsNarrower | nxtool/nxstyle/nxstyle.py:457 | whatever the corrected before-operator check flags, the check as written flags too |
| Spacing.SpacedShiftAssignFlaggedAsWritten | nxtool/nxstyle/nxstyle.py:457 | as written, a `<<=` or `>>=` with whitespace on both sides is still flagged as missing whitespace before the operator |
| Spacing.ScanSkipsPlainText | nxtool/nxstyle/nxstyle.py:457 | the operator scan passes over characters that cannot start an operator |
| Spacing.TokenMatched | nxtool/nxstyle/nxstyle.py:457 | a whole operator followed by a space is read as that operator |
| Spacing.SpacedOperatorAccepted | nxtool/nxstyle/nxstyle.py:455-460 | with the corrected scan, `l op r` with whitespace around a whole operator (including `<<=` and `>>=`) is not flagged, when `l` and `r` contain no operator characters |
| Spacing.StripLiteralsKeepsPlainText | nxtool/nxstyle/nxstyle.py:471 | text without quotes is left unchanged by masking |
| Spacing.CloseFinds | nxtool/nxstyle/nxstyle.py:471 | the span closes at the first matching quote when no newline comes before it |
| Spacing.CloseMisses | nxtool/nxstyle/nxstyle.py:471 | a span with no matching quote after it does not close |
| Spacing.StripLiteralsRemovesLiteral | nxtool/nxstyle/nxstyle.py:471 | a string or character literal is removed whole, and the text around it is kept |
| Spacing.StripQuotedAsWrittenKeeps | nxtool/nxstyle/nxstyle.py:471 | as written, text with no double quote is left unchanged, even when it contains character literals |
| Spacing.StripQuotedAsWrittenRemovesSpan | nxtool/nxstyle/nxstyle.py:471 | as written, a span opened by either quote and closed by a `"` on the same line is removed whole, whatever it holds, and quote-free text before it is kept |
| Spacing.StripQuotedAsWrittenLeadingSpan | nxtool/nxstyle/nxstyle.py:471 | the same for a span at the start of the text |
| Spacing.CommaBeforeStringFlagged | nxtool/nxstyle/nxstyle.py:469-474 | as written, an unspaced comma before a `"..."` string is still reported after the masking |
| Spacing.CharLiteralCommaFlaggedAsWritten | nxtool/nxstyle/nxstyle.py:469-474 | as written, a `','` character literal in a line with no double quote is reported as a comma without whitespace after it |
| Spacing.CommaKeptFlagged | nxtool/nxstyle/nxstyle.py:469-474 | as written, an unspaced comma in text with no double quote survives the masking and is flagged |
| Spacing.CharLiteralCommaAccepted | nxtool/nxstyle/nxstyle.py:469-474 | with the corrected masking, a `','` literal does not cause a comma error on its own when the text around it is well spaced |
| Spacing.SpacedShiftAssignReported | nxtool/nxstyle/nxstyle.py:455-460 | for a node whose text is `l <<= r` or `l >>= r` with spaces around the operator, the checks as written report a missing space before the operator and the corrected checks do not |
| Spacing.CharLiteralCommaReported | nxtool/nxstyle/nxstyle.py:469-474 | for a node whose text holds a `','` literal in otherwise well-spaced text without quotes, the checks as written report a missing space after a comma and the corrected checks do not |
| Naming.NameCheck | nxtool/nxstyle/nxstyle.py:485-494 | at most one naming error, at the declaration's start: the anonymous-type error exactly when there is no name, and the suffix error exactly when the name does not end in `_s` (struct) or `_e` (enum) |
| Naming.EndsWithSuffix | nxtool/nxstyle/nxstyle.py:492 | definition of `.*_s$` (and `.*_e$` at line 520): the text ends in the suffix, or in the suffix and one final newline, since `$` also matches before a final newline; a match needs the text to be at least as long as the suffix |
| Naming.HasQualifier | nxtool/nxstyle/nxstyle.py:536 | definition of `(FAR\|NEAR\|DSEG\|CODE)`: one of the four words occurs somewhere in the text; a match needs at least three characters |
| Naming.UnspacedStar | nxtool/nxstyle/nxstyle.py:541 | definition of `(?<!\s)\*`: some `*` is at the start of the text or follows a non-space; a match needs a `*` |
| Naming.CheckTagged | nxtool/nxstyle/nxstyle.py:476-530 | a struct or enum without a body, or whose body has no preceding sibling, yields nothing; otherwise the output is the naming errors followed by the body's layout check; the anonymous and suffix errors appear exactly in the cases above |
| Naming.TaggedLayout | nxtool/nxstyle/nxstyle.py:496-502 | only sound diagnostics; a body that opens on the row of what precedes it is reported first with a left-bracket error; the body's braces are checked at the construct's own column (its opening-brace error exactly when the brace is off that column) and the named entries inside one level in |
| Naming.Pointer | nxtool/nxstyle/nxstyle.py:532-543 | at most two errors, both at the declarator's start: the qualifier error exactly when the NuttX rules apply and none of FAR, NEAR, DSEG, CODE occurs in the text; the star error exactly when some `*` is not preceded by whitespace |
| Naming.SuffixedNameAccepted | nxtool/nxstyle/nxstyle.py:490-494 | a name that ends in the tag's suffix passes the suffix check |
| Naming.UnsuffixedNameFlagged | nxtool/nxstyle/nxstyle.py:490-494 | a name whose last character is neither the suffix letter nor a newline fails the suffix check |
| Naming.SameRowBraceFlagged | nxtool/nxstyle/nxstyle.py:496-500 | a well-named struct or enum whose `{` is on the name's row is still reported, first, with a left-bracket error |
| Naming.QualifierFound | nxtool/nxstyle/nxstyle.py:534-538 | any text that contains one of the four qualifiers satisfies the qualifier check |
| Naming.NoCapitalsNoQualifier | nxtool/nxstyle/nxstyle.py:534-538 | text without capital letters contains no qualifier |
| Naming.WordNotFound | nxtool/nxstyle/nxstyle.py:534-538 | a word that starts with a capital does not occur in text without capitals |
| Naming.UnqualifiedPointerFlagged | nxtool/nxstyle/nxstyle.py:534-538 | under the NuttX rules, a declarator with no capital letters gets the qualifier error |
| Naming.QualifiedPointerAccepted | nxtool/nxstyle/nxstyle.py:534-538 | under the NuttX rules, a declarator that contains a qualifier does not get the qualifier error |
| Naming.LeadingStarFlagged | nxtool/nxstyle/nxstyle.py:540-543 | a declarator whose text starts with `*` always gets the star error |
| Naming.SpacedStarsAccepted | nxtool/nxstyle/nxstyle.py:540-543 | a declarator in which every `*` follows whitespace does not get the star error |
| StyleChecker.ParenCheck | nxtool/nxstyle/nxstyle.py:131-152 | every error is at the expression's start; the keyword-spacing error appears exactly when the parent is a keyword statement, there is a previous sibling, and the gap is not one column; with a keyword parent and no previous sibling nothing is checked; without a keyword parent only the spacing checks run, and with a previous sibling their errors are always included |
| StyleChecker.BodySteps | nxtool/nxstyle/nxstyle.py:126-129 | one step per function body, each sound for indentation 2 |
| StyleChecker.ParensReport | nxtool/nxstyle/nxstyle.py:131-152 | every error reported for parenthesised expressions is located at one of the captured expressions |
| StyleChecker.ArgumentsReport | nxtool/nxstyle/nxstyle.py:154-156 | every error reported for argument lists is located at one of the captured lists |
| StyleChecker.TaggedSteps | nxtool/nxstyle/nxstyle.py:158-164 | one step per captured struct or enum |
| StyleChecker.TaggedStepsAt | nxtool/nxstyle/nxstyle.py:158-164 | the i-th step is the check of the i-th captured declaration |
| StyleChecker.PointersReport | nxtool/nxstyle/nxstyle.py:166-168 | every pointer error is at a captured declarator; outside the NuttX rules only the star error can appear |
| StyleChecker.StyleReport | nxtool/nxstyle/nxstyle.py:125-168 | the whole report: the function-body checks, then the parenthesis and argument-list checks, then structs, enums and pointers, a crash ending the run; every printed diagnostic is an error, since the checker never calls `info` or `warning` |
| StyleChecker.DeclarationsReport | nxtool/nxstyle/nxstyle.py:158-168 | the struct, enum and pointer part of the report; every diagnostic in it is an error |
| StyleChecker.SequenceOnlyErrors | nxtool/nxstyle/nxstyle.py:125-168 | running steps that report only errors, up to the first crash, reports only errors |
| StyleChecker.TaggedStepsOnlyErrors | nxtool/nxstyle/nxstyle.py:158-164 | each struct or enum check reports only errors |
| StyleChecker.IndentsRangeCrashSticks | nxtool/nxstyle/nxstyle.py:128-129 | once a function body's traversal has crashed, the later statements add nothing |
| StyleChecker.SequenceCrashSticks | nxtool/nxstyle/nxstyle.py:125-168 | once a loop over captures has crashed, later captures add nothing |
| StyleChecker.SequenceSound | nxtool/nxstyle/nxstyle.py:126-129 | a sequence of sound steps is sound |
| StyleChecker.BodiesIndentsEven | nxtool/nxstyle/nxstyle.py:126-129 | every wrong-indentation error inside function bodies expects an even column of at least 2 |
| StyleChecker.CheckFunctionBody | nxtool/nxstyle/nxstyle.py:128-129 | the loop over the named children of one body prints the output of checking them at indentation 2 and stops where that output stops |
| StyleChecker.CheckFunctionBodies | nxtool/nxstyle/nxstyle.py:126-129 | the loop over all function bodies prints their outputs in capture order and crashes exactly when that sequence crashes |
| StyleChecker.CheckParens | nxtool/nxstyle/nxstyle.py:131-152 | the loop over parenthesised expressions prints their reports in capture order |
| StyleChecker.CheckArguments | nxtool/nxstyle/nxstyle.py:154-156 | the loop over argument lists prints their reports in capture order |
| StyleChecker.CheckTaggeds | nxtool/nxstyle/nxstyle.py:158-164 | the loop over structs (or enums) prints their reports in order and crashes exactly when that sequence crashes |
| StyleChecker.TaggedStep | nxtool/nxstyle/nxstyle.py:160 | one iteration checks the i-th declaration |
| StyleChecker.CheckPointers | nxtool/nxstyle/nxstyle.py:166-168 | the loop over pointer declarators prints their reports in capture order |
| StyleChecker.Collect | nxtool/nxstyle/nxstyle.py:125-168 | the six loops together produce the whole report in the source's order, with the crash flag |
| StyleChecker.CollectDeclarations | nxtool/nxstyle/nxstyle.py:158-168 | the struct, enum and pointer loops together produce their part of the report |
| StyleChecker.CheckStyle | nxtool/nxstyle/nxstyle.py:125-168 | `check_style` prints exactly the rendered lines of the whole report, in order, and raises exactly when the report crashes |
| TreeWalk.PreOrder | nxtool/nxstyle/nxstyle.py:46-72 | the pre-order of a subtree is non-empty and starts with its root |
| TreeWalk.ExtendPath | nxtool/nxstyle/nxstyle.py:67-68 | stepping to child i is a valid move; the nodes yielded before child i are those yielded before its parent, then the parent, then the subtrees of children 0 to i-1 |
| TreeWalk.ParentPath | nxtool/nxstyle/nxstyle.py:71 | the parent of a cursor position is valid, and the position is one of its children |
| TreeWalk.PrefixOfPreOrder | nxtool/nxstyle/nxstyle.py:46-72 | what was yielded before a position, followed by that position's subtree, is a prefix of the whole walk |
| TreeWalk.UpToPrefix | nxtool/nxstyle/nxstyle.py:46-72 | the walk of fewer children is a prefix of the walk of more |
| TreeWalk.YieldedBound | nxtool/nxstyle/nxstyle.py:46-72 | what was yielded before a position, plus that position's subtree, is never longer than the whole walk |
| TreeWalk.PreOrderComplete | nxtool/nxstyle/nxstyle.py:46-72 | every node reachable from the root is yielded |
| TreeWalk.YieldStep | nxtool/nxstyle/nxstyle.py:65-68 | after a node is yielded, its first child comes next; a childless node's subtree is the node alone |
| TreeWalk.SiblingStep | nxtool/nxstyle/nxstyle.py:69-70 | moving to the next sibling skips exactly the finished subtree |
| TreeWalk.SiblingMove | nxtool/nxstyle/nxstyle.py:69-70 | the same step, stated for the cursor's current path |
| TreeWalk.ParentStep | nxtool/nxstyle/nxstyle.py:71-72 | after the last child, returning to the parent leaves the walk where the parent's subtree ends |
| TreeWalk.ParentMove | nxtool/nxstyle/nxstyle.py:71-72 | the same step, stated for the cursor's current path |
| TreeWalk.TreeCursor.constructor | nxtool/nxstyle/nxstyle.py:57-60 | `node.walk()`: a cursor on the given node |
| TreeWalk.TreeCursor.GotoFirstChild | nxtool/nxstyle/nxstyle.py:67 | moves exactly when the current node has children, and then to child 0 |
| TreeWalk.TreeCursor.GotoNextSibling | nxtool/nxstyle/nxstyle.py:69 | moves exactly when a next sibling exists below the cursor's root, and then to it; never moves from the root |
| TreeWalk.TreeCursor.GotoParent | nxtool/nxstyle/nxstyle.py:71 | moves up exactly when the cursor is below its root; never leaves the walked subtree |
| TreeWalk.WalkTree | nxtool/nxstyle/nxstyle.py:46-72 | the generator yields exactly the pre-order of the subtree: each node once, a parent before its children, children left to right; the loop ends |

## Left out

- Parsing C with tree-sitter and running the capture query are not modelled. The checker gets the captures as data: the nodes with their kind, field, named flag, points, text and children, plus each capture's parent and previous sibling.
- Reading the file, the `FileNotFoundError` exit, and the CLI in `nxtool/nxstyle/__main__.py` are not modelled. They are I/O.
- The path is an opaque string. The model does not resolve it the way `Path.resolve` does (that needs the filesystem).
- `node.text` is a character string. The model does not decode bytes as UTF-8, and the `text is None` guard of `__check_whitespaces` is not modelled: it cannot fire on nodes of a parsed file.
- `info` and `warning` are modelled only as the severity names a line can carry. The checker never calls them.
- Printing is modelled as the list of lines that would be written, in order.
- Regular expressions are modelled by hand as predicates over characters. Python's `\s` is the set `Spacing.IsSpace` names.
- The trees are taken to be `SyntaxTree.WellFormed`, as a parse makes them: a node whose kind is `Other` carrying a known name such as `if_statement` would not be dispatched. No contract states this as a precondition, because a parse never yields such a node.
- Python's recursion limit is not modelled. Each `else if` adds two frames (`__check_indents` at nxtool/nxstyle/nxstyle.py:184 calls the `if` helper, which calls `__check_indents` on the alternative at line 306), so with the default limit of 1000 a chain of about 500 `else if`s raises RecursionError in the program, while `Layout.Indents` returns the full report for any depth.
- Layout.CheckBody: the model promises soundness and crash behaviour for any block. The exact diagnostic count is proved only for blocks whose inner statements are clean (Layout.BracePolicy).

## Behaviour that follows the code

The code behaves as follows on these points, and so does the model.

- A struct or enum written `struct foo_s {`, with the brace on the name's row, is reported with "Left bracket not on separate line". See `Naming.SameRowBraceFlagged`.
- `if (x){` also gets the column check on the compound statement's brace.
- The enum suffix message keeps the code's text, `Struct name should end in "_e"`. The messages keep the typos "exacly" and "paranthesis".
- `-=` is not in the operator class `[+*/%&|^<>!=]=`, so the spacing checks do not look at it.
- A `*` at the start of a declarator's text is always flagged, because the look-behind `(?<!\s)` succeeds at position 0. See `Naming.LeadingStarFlagged`.
- `while (x);`, `do ;` and `if (x);` raise IndexError: the lone `;` is an expression statement with one child, and the brace policy reads its `children[1]` at nxtool/nxstyle/nxstyle.py:226. Only `for` handles an empty body (lines 331-336). See `Layout.LoneSemicolonBody`.
- `_s$` and `_e$` also accept a name followed by a trailing newline. See `Naming.EndsWithSuffix`.

## Findings

| source | as written | input that shows it | evidently intended | confidence | as-written member | corrected member |
|---|---|---|---|---|---|---|
| nxtool/nxstyle/nxstyle.py:457 | the before-operator pattern is searched at every position, so the `<=` inside `<<=` (or `>=` inside `>>=`) is tried alone; it is preceded by `<` and is flagged | `x <<= 1` is reported as "Missing whitespaces before operator" | operators read as whole tokens; `x <<= 1` is accepted | medium, not executed | Spacing.SpacedShiftAssignFlaggedAsWritten and Spacing.SpacedShiftAssignReported (on Spacing.Whitespaces) | Spacing.SpacedOperatorAccepted, Spacing.CorrectedOperatorCheckIsNarrower and Spacing.CorrectedOperatorAlarmKept (on Spacing.WhitespacesCorrected) |
| nxtool/nxstyle/nxstyle.py:471 | the masking pattern opens a span at either quote but closes it only at `"`, so a character literal `','` is not removed | `(',', x)` is reported as "Missing whitespaces after comma" | a literal is closed by the quote that opened it, so commas inside literals are ignored | medium, not executed | Spacing.CharLiteralCommaFlaggedAsWritten and Spacing.CharLiteralCommaReported (on Spacing.Whitespaces) | Spacing.CharLiteralCommaAccepted (on Spacing.WhitespacesCorrected) |
