/** The part of the external SQL parser's syntax tree that the planner
    matches on. Every other alternative the parser can produce is collapsed
    into one `Other…` constructor per type, since the planner treats them
    alike. Fields the planner never reads (DISTINCT, GROUP BY, HAVING,
    ORDER BY, LIMIT, OFFSET, WITH) are not represented. */
module SqlAst {
  import opened Wrappers

  datatype SqlBinaryOperator =
    | Eq | NotEq | Gt | Lt | GtEq | LtEq
    | Plus | Minus | Multiply | Divide
    | Modulo | And | Or | OtherBinaryOperator
  {
    predicate IsComparison() { Eq? || NotEq? || Gt? || Lt? || GtEq? || LtEq? }
    predicate IsArithmetic() { Plus? || Minus? || Multiply? || Divide? }
  }

  datatype SqlUnaryOperator = Plus | Minus | Not | OtherUnaryOperator

  datatype SqlValue =
    | Number(text: string, long: bool)
    | SingleQuotedString(s: string)
    | DoubleQuotedString(s: string)
    | Boolean(b: bool)
    | Null
    | OtherValue

  datatype SqlExpr =
    | Identifier(ident: string)
    | CompoundIdentifier(parts: seq<string>)
    | Value(value: SqlValue)
    | BinaryOp(left: SqlExpr, binaryOp: SqlBinaryOperator, right: SqlExpr)
    | UnaryOp(unaryOp: SqlUnaryOperator, operand: SqlExpr)
    | Nested(inner: SqlExpr)
    | OtherExpr

  datatype SelectItem =
    | UnnamedExpr(expr: SqlExpr)
    | ExprWithAlias(expr: SqlExpr, alias: string)
    | QualifiedWildcard(qualifier: string)
    | Wildcard

  /** An object name: its identifier parts, and the text the parser's
      `Display` renders for it (quotes included), which is taken as given. */
  datatype ObjectName = ObjectName(parts: seq<string>, rendered: string)

  datatype TableFactor = Table(name: ObjectName) | OtherRelation

  datatype TableWithJoins = TableWithJoins(relation: TableFactor, joins: seq<TableFactor>)

  datatype Select = Select(projection: seq<SelectItem>, from: seq<TableWithJoins>, selection: Option<SqlExpr>)

  datatype SetExpr = SelectBody(select: Select) | OtherSetExpr

  datatype Query = Query(body: SetExpr)

  datatype Statement = QueryStatement(query: Query) | OtherStatement
}
