/** The parsed C syntax tree the checker reads (it never changes it).

    A node carries its kind (if statement, compound statement, ...),
    whether it is a named node or an anonymous token, its 0-based start and
    end points, its source text and its ordered children.  Tree-sitter
    attaches field names (body, consequence, alternative, name) to
    child slots; here each node records the field name under which it hangs
    in its parent, so a field lookup is a search through the children. */
module SyntaxTree {

  datatype Option<+T> = None | Some(value: T)

  datatype Point = Point(row: nat, column: nat)

  /** The node kinds the checker tells apart, each standing for the
      tree-sitter kind of the same name ("if_statement", ..., and the
      anonymous "case" keyword); any other kind is `Other` with its name. */
  datatype Kind =
    | IfStatement | ElseClause | ForStatement | WhileStatement | DoStatement | SwitchStatement
    | ReturnStatement | ExpressionStatement | Declaration | BreakStatement
    | FieldDeclaration | Enumerator | CompoundStatement | CaseStatement | CaseKeyword
    | Other(name: string)

  /** The field names the checker looks up; any other is `OtherField`. */
  datatype Field = Body | Consequence | Alternative | Name | OtherField(fieldName: string)

  /** The tree-sitter names that have their own `Kind` constructor. */
  const KnownKindNames: set<string> := {
    "if_statement", "else_clause", "for_statement", "while_statement", "do_statement",
    "switch_statement", "return_statement", "expression_statement", "declaration",
    "break_statement", "field_declaration", "enumerator", "compound_statement",
    "case_statement", "case" }

  /** The field names that have their own `Field` constructor. */
  const KnownFieldNames: set<string> := {"body", "consequence", "alternative", "name"}

  /** A tree built from a parse: a known kind or field name is always
      carried by its own constructor, never by `Other` or `OtherField`, so
      each tree-sitter node has exactly one representation. */
  predicate WellFormed(n: Node)
  {
    && (n.kind.Other? ==> n.kind.name !in KnownKindNames)
    && (n.field.Some? && n.field.value.OtherField? ==> n.field.value.fieldName !in KnownFieldNames)
    && forall c :: c in n.children ==> WellFormed(c)
  }

  datatype Node = Node(
    kind: Kind,
    field: Option<Field>,
    named: bool,
    start: Point,
    end: Point,
    text: string,
    children: seq<Node>)

  /** child_by_field_name: the index of the first child labelled `name`. */
  function FieldIndex(n: Node, name: Field): (r: Option<nat>)
    ensures r.Some? ==> r.value < |n.children| && n.children[r.value].field == Some(name)
    ensures r.Some? ==> forall j :: 0 <= j < r.value ==> n.children[j].field != Some(name)
    ensures r.None? ==> forall j :: 0 <= j < |n.children| ==> n.children[j].field != Some(name)
  {
    FieldIndexFrom(n.children, name, 0)
  }

  function {:tailrecursion} FieldIndexFrom(cs: seq<Node>, name: Field, i: nat): (r: Option<nat>)
    requires i <= |cs|
    decreases |cs| - i
    ensures r.Some? ==> i <= r.value < |cs| && cs[r.value].field == Some(name)
    ensures r.Some? ==> forall j :: i <= j < r.value ==> cs[j].field != Some(name)
    ensures r.None? ==> forall j :: i <= j < |cs| ==> cs[j].field != Some(name)
  {
    if i == |cs| then None
    else if cs[i].field == Some(name) then Some(i)
    else FieldIndexFrom(cs, name, i + 1)
  }

  /** named_child_count */
  function NamedCount(cs: seq<Node>): (r: nat)
    ensures r <= |cs|
    ensures r == 0 <==> forall j :: 0 <= j < |cs| ==> !cs[j].named
  {
    if cs == [] then 0
    else NamedCount(cs[..|cs| - 1]) + (if cs[|cs| - 1].named then 1 else 0)
  }
}
