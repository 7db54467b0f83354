/** Diagnostics and the stream the checker writes.

    Every check ends in `style_assert(check, message)`: the message line is
    printed when the check holds.  The model collects the diagnostics in
    traversal order; a `Report` also says whether the traversal died on an
    out-of-range child index (Python raises IndexError there: what was
    printed before stays, nothing after it is checked). */
module Diagnostics {
  import opened SyntaxTree

  datatype Severity = Info | Warning | Error

  datatype Message =
    | WrongIndentation(expected: nat, actual: nat)
    | LeftBracketNotOnSeparateLine
    | RightBracketNotOnSeparateLine
    | IfNotInlinedWithElse
    | EmptyBodyNotInline
    | KeywordSpacing
    | SpaceAfterOpenParen
    | SpaceBeforeCloseParen
    | MissingSpaceBeforeOperator
    | MissingSpaceAfterOperator
    | MissingSpaceAfterComma
    | AnonymousStruct
    | StructSuffix
    | AnonymousEnum
    | EnumSuffix
    | PointerQualifierMissing
    | MissingSpaceBeforePointer

  datatype Diagnostic = Diagnostic(at: Point, severity: Severity, message: Message)

  datatype Report = Report(diags: seq<Diagnostic>, crashed: bool)

  const Done := Report([], false)
  const Crash := Report([], true)

  /** style_assert: one error diagnostic when `check` holds, nothing otherwise. */
  function Emit(check: bool, at: Point, m: Message): (r: Report)
    ensures !r.crashed
    ensures check <==> r.diags == [Diagnostic(at, Error, m)]
    ensures !check <==> r.diags == []
  {
    if check then Report([Diagnostic(at, Error, m)], false) else Done
  }

  /** Run `a`, then `b` unless `a` died. */
  function Then(a: Report, b: Report): (r: Report)
    ensures r.crashed <==> a.crashed || b.crashed
    ensures a.crashed ==> r == a
    ensures !a.crashed ==> r.diags == a.diags + b.diags
  {
    if a.crashed then a else Report(a.diags + b.diags, b.crashed)
  }

  lemma ThenAssociative(a: Report, b: Report, c: Report)
    ensures Then(Then(a, b), c) == Then(a, Then(b, c))
  {
    if !a.crashed && !b.crashed {
      assert (a.diags + b.diags) + c.diags == a.diags + (b.diags + c.diags);
    }
  }

  function Digit(d: nat): char
    requires d < 10
  {
    "0123456789"[d]
  }

  predicate IsDigit(c: char) { 48 <= c as int <= 57 }

  /** The decimal numeral Python's f-string prints for a non-negative int. */
  function NatToString(n: nat): (r: string)
    ensures r != []
    ensures forall k :: 0 <= k < |r| ==> IsDigit(r[k])
  {
    if n < 10 then [Digit(n)] else NatToString(n / 10) + [Digit(n % 10)]
  }

  function DigitValue(c: char): nat
    requires IsDigit(c)
  {
    c as int - 48
  }

  function DigitsValue(s: string): (v: nat)
    requires forall k :: 0 <= k < |s| ==> IsDigit(s[k])
  {
    if s == [] then 0
    else DigitsValue(s[..|s| - 1]) * 10 + DigitValue(s[|s| - 1])
  }

  lemma {:induction false} NatToStringRoundTrip(n: nat)
    ensures DigitsValue(NatToString(n)) == n
  {
    var s := NatToString(n);
    if n >= 10 {
      NatToStringRoundTrip(n / 10);
      assert s[..|s| - 1] == NatToString(n / 10);
    }
  }

  function SeverityName(s: Severity): string
  {
    match s
    case Info => "INFO"
    case Warning => "WARNING"
    case Error => "ERROR"
  }

  /** The text of each message, in the source's wording. */
  function MessageText(m: Message): (r: string)
    ensures r != []
  {
    match m
    case WrongIndentation(e, a) =>
      "Wrong indentation [Expected: " + NatToString(e) + " / Actual: " + NatToString(a) + "]"
    case LeftBracketNotOnSeparateLine => "Left bracket not on separate line"
    case RightBracketNotOnSeparateLine => "Right bracket not on separate line"
    case IfNotInlinedWithElse => "If keyword not inlined with else keyword"
    case EmptyBodyNotInline => "Empty body should be inline with last node"
    case KeywordSpacing => "There should be exacly one whitespace after keyword"
    case SpaceAfterOpenParen => "Whitespace after open paranthesis"
    case SpaceBeforeCloseParen => "Whitespace before close paranthesis"
    case MissingSpaceBeforeOperator => "Missing whitespaces before operator"
    case MissingSpaceAfterOperator => "Missing whitespaces after operator"
    case MissingSpaceAfterComma => "Missing whitespaces after comma"
    case AnonymousStruct => "Avoid anonymous structs"
    case StructSuffix => "Struct name should end in \"_s\""
    case AnonymousEnum => "Avoid anonymous enums"
    case EnumSuffix => "Struct name should end in \"_e\""
    case PointerQualifierMissing => "Pointer qualifier missing"
    case MissingSpaceBeforePointer => "Missing whitespace before pointer"
  }

  /** `info`, `warning` and `error`: "<path>:<row+1>:<column>: [<SEVERITY>] <text>". */
  function Render(file: string, d: Diagnostic): (r: string)
    ensures file + ":" <= r
  {
    file + ":" + NatToString(d.at.row + 1) + ":" + NatToString(d.at.column) + ":"
      + " [" + SeverityName(d.severity) + "] " + MessageText(d.message)
  }

  /** A printed line ends with the message text, after the severity tag. */
  lemma RenderEndsWithMessage(file: string, d: Diagnostic)
    ensures |Render(file, d)| >= |MessageText(d.message)| + 2
    ensures Render(file, d)[|Render(file, d)| - |MessageText(d.message)|..] == MessageText(d.message)
    ensures Render(file, d)[|Render(file, d)| - |MessageText(d.message)| - 2..|Render(file, d)| - |MessageText(d.message)|] == "] "
  {
    var head := file + ":" + NatToString(d.at.row + 1) + ":" + NatToString(d.at.column) + ":"
      + " [" + SeverityName(d.severity) + "] ";
    assert Render(file, d) == head + MessageText(d.message);
  }

  /** The printed lines of a diagnostic stream. */
  function Lines(file: string, ds: seq<Diagnostic>): (r: seq<string>)
    ensures |r| == |ds|
  {
    if ds == [] then [] else Lines(file, ds[..|ds| - 1]) + [Render(file, ds[|ds| - 1])]
  }

  lemma {:induction false} LinesAppend(file: string, a: seq<Diagnostic>, b: seq<Diagnostic>)
    ensures Lines(file, a + b) == Lines(file, a) + Lines(file, b)
    decreases |b|
  {
    if b == [] {
      assert a + b == a;
    } else {
      var init, last := b[..|b| - 1], b[|b| - 1];
      assert a + b == (a + init) + [last];
      assert (a + b)[..|a + b| - 1] == a + init;
      assert Lines(file, a + b) == Lines(file, a + init) + [Render(file, last)];
      LinesAppend(file, a, init);
      assert Lines(file, b) == Lines(file, init) + [Render(file, last)];
    }
  }

  lemma {:induction false} LinesAt(file: string, ds: seq<Diagnostic>, k: nat)
    requires k < |ds|
    ensures Lines(file, ds)[k] == Render(file, ds[k])
    decreases |ds|
  {
    if k < |ds| - 1 {
      LinesAt(file, ds[..|ds| - 1], k);
    }
  }

  /** Index of the first ':' in `s`. */
  function FirstColon(s: string): (r: Option<nat>)
    ensures r.Some? ==> r.value < |s| && s[r.value] == ':' && forall k :: 0 <= k < r.value ==> s[k] != ':'
    ensures r.None? ==> forall k :: 0 <= k < |s| ==> s[k] != ':'
  {
    if s == [] then None
    else if s[0] == ':' then Some(0)
    else match FirstColon(s[1..])
      case None => None
      case Some(k) => Some(k + 1)
  }

  predicate AllDigits(s: string) { s != [] && forall k :: 0 <= k < |s| ==> IsDigit(s[k]) }

  /** Reads "<row+1>:<column>:..." back into a 0-based point. */
  function ParseFields(rest: string): Option<Point>
  {
    match FirstColon(rest)
    case None => None
    case Some(i) =>
      var rowText, rest2 := rest[..i], rest[i + 1..];
      match FirstColon(rest2)
      case None => None
      case Some(j) =>
        var colText := rest2[..j];
        if AllDigits(rowText) && AllDigits(colText) && DigitsValue(rowText) >= 1
        then Some(Point(DigitsValue(rowText) - 1, DigitsValue(colText)))
        else None
  }

  /** Reads the location back from a printed line, for a known file path. */
  function ParseLocation(file: string, line: string): Option<Point>
  {
    var head := file + ":";
    if |line| < |head| || line[..|head|] != head then None
    else ParseFields(line[|head|..])
  }

  lemma FirstColonAfterDigits(digits: string, rest: string)
    requires forall k :: 0 <= k < |digits| ==> IsDigit(digits[k])
    ensures FirstColon(digits + ":" + rest) == Some(|digits|)
  {
    var s := digits + ":" + rest;
    assert s[|digits|] == ':';
    assert forall k :: 0 <= k < |digits| ==> s[k] == digits[k];
  }

  lemma ParseFieldsRoundTrip(p: Point, tail: string)
    ensures ParseFields(NatToString(p.row + 1) + ":" + (NatToString(p.column) + ":" + tail)) == Some(p)
  {
    var rowText := NatToString(p.row + 1);
    var colText := NatToString(p.column);
    var rest2 := colText + ":" + tail;
    var rest := rowText + ":" + rest2;
    FirstColonAfterDigits(rowText, rest2);
    assert rest[..|rowText|] == rowText;
    assert rest[|rowText| + 1..] == rest2;
    FirstColonAfterDigits(colText, tail);
    assert rest2[..|colText|] == colText;
    NatToStringRoundTrip(p.row + 1);
    NatToStringRoundTrip(p.column);
  }

  lemma LocationRoundTrip(file: string, p: Point, tail: string)
    ensures ParseLocation(file, file + ":" + (NatToString(p.row + 1) + ":" + (NatToString(p.column) + ":" + tail))) == Some(p)
  {
    var rest := NatToString(p.row + 1) + ":" + (NatToString(p.column) + ":" + tail);
    var head := file + ":";
    var line := head + rest;
    assert line[..|head|] == head;
    assert line[|head|..] == rest;
    ParseFieldsRoundTrip(p, tail);
  }

  /** The printed line names the diagnostic's position: the 1-based row and
      0-based column can be read back, whatever the path and message. */
  lemma RenderLocationRoundTrip(file: string, d: Diagnostic)
    ensures ParseLocation(file, Render(file, d)) == Some(d.at)
  {
    var tail := " [" + SeverityName(d.severity) + "] " + MessageText(d.message);
    var row, col := NatToString(d.at.row + 1), NatToString(d.at.column);
    assert Render(file, d) == file + ":" + (row + ":" + (col + ":" + tail));
    LocationRoundTrip(file, d.at, tail);
  }
}
