/** The naming and qualifier checks: `__check_structs`, `__check_enums`
    (one routine here, parameterised by the tag) and
    `__check_pointer_declarator`. */
module Naming {
  import opened SyntaxTree
  import opened Diagnostics
  import opened Spacing
  import opened Layout

  datatype Tag = Struct | Enum

  function Suffix(tag: Tag): string
  {
    match tag
    case Struct => "_s"
    case Enum => "_e"
  }

  function AnonymousMessage(tag: Tag): Message
  {
    match tag
    case Struct => AnonymousStruct
    case Enum => AnonymousEnum
  }

  function SuffixMessage(tag: Tag): Message
  {
    match tag
    case Struct => StructSuffix
    case Enum => EnumSuffix
  }

  /** `re.search(r".*_s$", t)` (and `_e`): `.*` may match nothing, and `$`
      matches at the end of the text or just before a final newline. */
  predicate EndsWithSuffix(t: string, suf: string)
    ensures EndsWithSuffix(t, suf) ==> |suf| <= |t|
  {
    (|suf| <= |t| && t[|t| - |suf|..] == suf)
    || (|suf| + 1 <= |t| && t[|t| - |suf| - 1..] == suf + "\n")
  }

  /** The construct is checked at all: it has a body, and something precedes it. */
  predicate HasBody(n: Node)
  {
    FieldIndex(n, Body).Some? && FieldIndex(n, Body).value > 0
  }

  /** The naming part: anonymous constructs are always flagged, named
      ones when the name lacks the tag's suffix. */
  function NameCheck(tag: Tag, n: Node): (r: Report)
    ensures !r.crashed && |r.diags| <= 1
    ensures forall d :: d in r.diags ==> d.at == n.start && d.severity == Error && !IsLayoutMessage(d.message)
    ensures Diagnostic(n.start, Error, AnonymousMessage(tag)) in r.diags <==> FieldIndex(n, Name).None?
    ensures Diagnostic(n.start, Error, SuffixMessage(tag)) in r.diags <==>
      FieldIndex(n, Name).Some? && !EndsWithSuffix(n.children[FieldIndex(n, Name).value].text, Suffix(tag))
  {
    match FieldIndex(n, Name)
    case None => Emit(true, n.start, AnonymousMessage(tag))
    case Some(i) => Emit(!EndsWithSuffix(n.children[i].text, Suffix(tag)), n.start, SuffixMessage(tag))
  }

  /** __check_structs / __check_enums: the naming check, the left bracket
      on its own row, then the brace policy at the construct's own column. */
  function CheckTagged(tag: Tag, n: Node): (r: Report)
    ensures !HasBody(n) ==> r == Done
    ensures HasBody(n) ==>
      r.diags == NameCheck(tag, n).diags + TaggedLayout(n, FieldIndex(n, Body).value).diags
      && r.crashed == TaggedLayout(n, FieldIndex(n, Body).value).crashed
    ensures Diagnostic(n.start, Error, AnonymousMessage(tag)) in r.diags <==>
      HasBody(n) && FieldIndex(n, Name).None?
    ensures Diagnostic(n.start, Error, SuffixMessage(tag)) in r.diags <==>
      HasBody(n) && FieldIndex(n, Name).Some?
      && !EndsWithSuffix(n.children[FieldIndex(n, Name).value].text, Suffix(tag))
  {
    match FieldIndex(n, Body)
    case None => Done
    case Some(b) =>
      if b == 0 then Done
      else
        var naming, layout := NameCheck(tag, n), TaggedLayout(n, b);
        var r := Then(naming, layout);
        assert !IsLayoutMessage(AnonymousMessage(tag)) && !IsLayoutMessage(SuffixMessage(tag));
        assert forall d :: d in r.diags && !IsLayoutMessage(d.message) ==> d in naming.diags;
        r
  }

  /** The layout part of a construct whose body is child b: the left
      bracket on its own row, then the brace policy at the construct's
      own column. */
  function TaggedLayout(n: Node, b: nat): (r: Report)
    requires 0 < b < |n.children|
    ensures Sound(r.diags, n.start.column)
    ensures n.children[b].start.row == n.children[b - 1].start.row ==>
      r.diags != [] && r.diags[0] == Diagnostic(n.children[b].start, Error, LeftBracketNotOnSeparateLine)
    ensures n.children[b].kind != ExpressionStatement && |n.children[b].children| >= 2 ==>
      (Diagnostic(n.children[b].start, Error, WrongIndentation(n.start.column, n.children[b].children[0].start.column)) in r.diags <==>
        n.children[b].children[0].start.column != n.start.column)
    ensures !r.crashed ==>
      |n.children[b].children| >= 2
      && ColumnChecked(n.start.column, r.diags, n.children[b].children[|n.children[b].children| - 1])
    ensures !r.crashed ==>
      forall k :: 0 <= k < |n.children[b].children| && n.children[b].children[k].named ==>
        CheckedAt(n.start.column + 2, r.diags, n.children[b].children[k])
  {
    var body, prev := n.children[b], n.children[b - 1];
    Then(Emit(body.start.row == prev.start.row, body.start, LeftBracketNotOnSeparateLine),
         CheckBody(n.start.column, body))
  }

  /** `re.search(w, t)` for a fixed word w. */
  predicate Occurs(w: string, t: string)
  {
    exists i :: 0 <= i <= |t| && WordAt(t, i, w)
  }

  predicate WordAt(t: string, i: nat, w: string)
  {
    i + |w| <= |t| && t[i..i + |w|] == w
  }

  /** `(FAR|NEAR|DSEG|CODE)` */
  predicate HasQualifier(t: string)
    ensures HasQualifier(t) ==> |t| >= 3
  {
    Occurs("FAR", t) || Occurs("NEAR", t) || Occurs("DSEG", t) || Occurs("CODE", t)
  }

  /** `(?<!\s)\*`: a star not preceded by whitespace; at index 0 nothing
      precedes it, so the lookbehind succeeds there. */
  predicate UnspacedStar(t: string)
    ensures UnspacedStar(t) ==> '*' in t
  {
    exists i :: 0 <= i < |t| && t[i] == '*' && (i == 0 || !IsSpace(t[i - 1]))
  }

  /** __check_pointer_declarator */
  function Pointer(n: Node, nuttxCodebase: bool): (r: seq<Diagnostic>)
    ensures |r| <= 2
    ensures forall d :: d in r ==> d.at == n.start && d.severity == Error
    ensures Diagnostic(n.start, Error, PointerQualifierMissing) in r <==> nuttxCodebase && !HasQualifier(n.text)
    ensures Diagnostic(n.start, Error, MissingSpaceBeforePointer) in r <==> UnspacedStar(n.text)
  {
    (if nuttxCodebase then Emit(!HasQualifier(n.text), n.start, PointerQualifierMissing).diags else [])
    + Emit(UnspacedStar(n.text), n.start, MissingSpaceBeforePointer).diags
  }

  // ---------------------------------------------------------------------
  // Properties

  /** Any name made of a stem and the tag's suffix passes the suffix check. */
  lemma SuffixedNameAccepted(stem: string, tag: Tag)
    ensures EndsWithSuffix(stem + Suffix(tag), Suffix(tag))
  {
    var t := stem + Suffix(tag);
    assert t[|t| - 2..] == Suffix(tag);
  }

  /** A name whose last character is neither the suffix letter nor a
      newline fails it. */
  lemma {:induction false} UnsuffixedNameFlagged(t: string, tag: Tag)
    requires t != [] && t[|t| - 1] != Suffix(tag)[1] && t[|t| - 1] != '\n'
    ensures !EndsWithSuffix(t, Suffix(tag))
  {
    var suf := Suffix(tag);
    assert |suf| == 2;
    if 2 <= |t| {
      var tail := t[|t| - 2..];
      assert tail[1] == t[|t| - 1] && tail[1] != suf[1];
      assert tail != suf;
    }
    if 3 <= |t| {
      var tail := t[|t| - 3..];
      assert tail[2] == t[|t| - 1] && (suf + "\n")[2] == '\n';
      assert tail != suf + "\n";
    }
  }

  /** A correctly suffixed struct or enum whose brace opens on the row of
      what precedes it (`struct foo_s {`) gets exactly the left-bracket
      error first: the naming part is silent and the layout part starts
      with that error. */
  lemma SameRowBraceFlagged(tag: Tag, n: Node)
    requires HasBody(n) && FieldIndex(n, Name).Some?
    requires EndsWithSuffix(n.children[FieldIndex(n, Name).value].text, Suffix(tag))
    requires n.children[FieldIndex(n, Body).value].start.row == n.children[FieldIndex(n, Body).value - 1].start.row
    ensures CheckTagged(tag, n).diags != []
    ensures CheckTagged(tag, n).diags[0]
      == Diagnostic(n.children[FieldIndex(n, Body).value].start, Error, LeftBracketNotOnSeparateLine)
  {
    var b := FieldIndex(n, Body).value;
    assert NameCheck(tag, n).diags == [];
    assert CheckTagged(tag, n).diags == TaggedLayout(n, b).diags;
  }

  /** A qualifier word anywhere in the text satisfies the qualifier check,
      whatever surrounds it. */
  lemma QualifierFound(pre: string, w: string, post: string)
    requires w in ["FAR", "NEAR", "DSEG", "CODE"]
    ensures HasQualifier(pre + w + post)
  {
    var t := pre + w + post;
    assert t[|pre|..|pre| + |w|] == w;
    assert WordAt(t, |pre|, w);
  }

  /** A declarator text without capital letters has no qualifier. */
  lemma NoCapitalsNoQualifier(t: string)
    requires forall k :: 0 <= k < |t| ==> !('A' <= t[k] <= 'Z')
    ensures !HasQualifier(t)
  {
    WordNotFound(t, "FAR");
    WordNotFound(t, "NEAR");
    WordNotFound(t, "DSEG");
    WordNotFound(t, "CODE");
  }

  lemma WordNotFound(t: string, w: string)
    requires w != [] && 'A' <= w[0] <= 'Z'
    requires forall k :: 0 <= k < |t| ==> !('A' <= t[k] <= 'Z')
    ensures !Occurs(w, t)
  {
    forall i | 0 <= i <= |t|
      ensures !WordAt(t, i, w)
    {
      if i + |w| <= |t| {
        assert t[i..i + |w|][0] == t[i];
      }
    }
  }

  /** In qualifier-mandatory mode, a declarator such as `*p` (no capital
      letters at all) is reported as missing its qualifier; one that
      mentions a qualifier word is not. */
  lemma UnqualifiedPointerFlagged(n: Node)
    requires forall k :: 0 <= k < |n.text| ==> !('A' <= n.text[k] <= 'Z')
    ensures Diagnostic(n.start, Error, PointerQualifierMissing) in Pointer(n, true)
  {
    NoCapitalsNoQualifier(n.text);
  }

  lemma QualifiedPointerAccepted(n: Node, pre: string, w: string, post: string)
    requires w in ["FAR", "NEAR", "DSEG", "CODE"] && n.text == pre + w + post
    ensures Diagnostic(n.start, Error, PointerQualifierMissing) !in Pointer(n, true)
  {
    QualifierFound(pre, w, post);
  }

  /** The text of a pointer declarator starts with its star, so the
      missing-whitespace check flags every such declarator. */
  lemma LeadingStarFlagged(n: Node, nuttxCodebase: bool)
    requires n.text != [] && n.text[0] == '*'
    ensures Diagnostic(n.start, Error, MissingSpaceBeforePointer) in Pointer(n, nuttxCodebase)
  {
    assert UnspacedStar(n.text) by { assert n.text[0] == '*'; }
  }

  /** Stars that all follow whitespace are accepted. */
  lemma SpacedStarsAccepted(n: Node, nuttxCodebase: bool)
    requires forall i :: 0 <= i < |n.text| && n.text[i] == '*' ==> i > 0 && IsSpace(n.text[i - 1])
    ensures Diagnostic(n.start, Error, MissingSpaceBeforePointer) !in Pointer(n, nuttxCodebase)
  {
  }
}
