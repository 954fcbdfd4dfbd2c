/** Translation of a parsed SQL statement into a logical plan
    (src/sql_support/planner.rs). Only `SELECT … FROM <table> [WHERE …]` is
    accepted. Number literals that are not `i32` go through `parseFloat`,
    which stands for Rust's `parse::<f64>` and is not modelled numerically. */
module Planner {
  import opened Wrappers
  import opened Errors
  import opened DataTypes
  import opened Scalar
  import opened Schemas
  import opened Numbers
  import opened Plan
  import opened SqlAst

  // Error texts. Where the Rust code appends the `{:?}` rendering of a
  // syntax-tree value, the text here is everything before that rendering,
  // the `: ` separator included.
  const UnsupportedStatement := "Unsupported statement type: "
  const OnlySelect := "Only SELECT queries are supported"
  const NoFromClause := "Query must have a FROM clause"
  const InvalidTableName := "Invalid table name"
  const OnlySimpleTables := "Only simple table references are supported (no subqueries, joins, etc.)"
  const WildcardUnsupported := "SELECT * is not yet supported in projection"
  const UnsupportedSelectItem := "Unsupported SELECT item: "
  const UnsupportedExpression := "Unsupported expression type: "
  const UnsupportedBinaryOperator := "Unsupported binary operator: "
  const UnsupportedUnaryOperator := "Unsupported unary operator: "
  const UnsupportedValue := "Unsupported value type: "

  function TableNotInCatalog(name: string): string
  {
    "Table '" + name + "' not found in catalog"
  }

  function InvalidNumber(text: string): string
  {
    "Invalid number: " + text
  }

  // ---------------------------------------------------------------- operators

  /** `sql_binary_op_to_operator`. `>=` and `<=` have no counterpart in
      `Operator` and become the strict `>` and `<`. */
  function BinaryOperatorToOperator(op: SqlBinaryOperator): (r: Result<Operator, QueryError>)
    ensures r.Ok? <==> op.IsComparison() || op.IsArithmetic()
    ensures r.Ok? ==> (r.value.IsComparison() <==> op.IsComparison())
    ensures op == SqlBinaryOperator.GtEq ==> r == Ok(Operator.Gt)
    ensures op == SqlBinaryOperator.LtEq ==> r == Ok(Operator.Lt)
    ensures r.Ok? && op != SqlBinaryOperator.GtEq && op != SqlBinaryOperator.LtEq ==> Namesake(r.value) == op
    ensures r.Err? ==> r.error == ValidationError(UnsupportedBinaryOperator)
  {
    match op
    case Eq => Ok(Operator.Eq)
    case NotEq => Ok(Operator.NotEq)
    case Gt => Ok(Operator.Gt)
    case Lt => Ok(Operator.Lt)
    case GtEq => Ok(Operator.Gt)
    case LtEq => Ok(Operator.Lt)
    case Plus => Ok(Operator.Add)
    case Minus => Ok(Operator.Subtract)
    case Multiply => Ok(Operator.Multiply)
    case Divide => Ok(Operator.Divide)
    case _ => Err(ValidationError(UnsupportedBinaryOperator))
  }

  /** The SQL operator that bears the same name as a plan operator. */
  function Namesake(o: Operator): SqlBinaryOperator
  {
    match o
    case Eq => SqlBinaryOperator.Eq
    case NotEq => SqlBinaryOperator.NotEq
    case Gt => SqlBinaryOperator.Gt
    case Lt => SqlBinaryOperator.Lt
    case Add => SqlBinaryOperator.Plus
    case Subtract => SqlBinaryOperator.Minus
    case Multiply => SqlBinaryOperator.Multiply
    case Divide => SqlBinaryOperator.Divide
  }

  /** Every plan operator is reached, from the SQL operator of the same name. */
  lemma NamesakeRoundTrip(o: Operator)
    ensures BinaryOperatorToOperator(Namesake(o)) == Ok(o)
  {
  }

  /** `sql_unary_op_to_operator`: unary `+` and `-` both become `Negate`. */
  function UnaryOperatorToOperator(op: SqlUnaryOperator): (r: Result<UnaryOperator, QueryError>)
    ensures r.Ok? <==> !op.OtherUnaryOperator?
    ensures r.Ok? ==> !r.value.IsNull? && !r.value.IsNotNull?
    ensures r.Ok? ==> (r.value.Not? <==> op.Not?)
    ensures r.Err? ==> r.error == ValidationError(UnsupportedUnaryOperator)
  {
    match op
    case Not => Ok(UnaryOperator.Not)
    case Minus => Ok(UnaryOperator.Negate)
    case Plus => Ok(UnaryOperator.Negate)
    case OtherUnaryOperator => Err(ValidationError(UnsupportedUnaryOperator))
  }

  // ----------------------------------------------------------------- literals

  /** `sql_value_to_scalar`. A number is tried as `i32` first and only then
      as `f64`; SQL `NULL` becomes a NULL string. */
  function ValueToScalar(v: SqlValue, parseFloat: string -> Option<F64>): (r: Result<ScalarValue, QueryError>)
    ensures v.Number? && ParseI32(v.text).Some? ==> r == Ok(ScalarValue.Int32(ParseI32(v.text)))
    ensures v.Number? && r.Ok? ==> TypeOf(r.value) == DataType.Int32 || TypeOf(r.value) == DataType.Float64
    ensures v.Number? && r.Err? ==> ParseI32(v.text).None? && parseFloat(v.text).None?
                                    && r.error == ValidationError(InvalidNumber(v.text))
    ensures v.Number? && ParseI32(v.text).None? && parseFloat(v.text).Some?
      ==> r == Ok(ScalarValue.Float64(parseFloat(v.text)))
    ensures v.Number? && ParseI32(v.text).None? && parseFloat(v.text).None?
      ==> r == Err(ValidationError(InvalidNumber(v.text)))
    ensures v.SingleQuotedString? || v.DoubleQuotedString? ==> r == Ok(ScalarValue.String(Some(v.s)))
    ensures v.Boolean? ==> r == Ok(ScalarValue.Bool(Some(v.b)))
    ensures v.OtherValue? ==> r == Err(ValidationError(UnsupportedValue))
    ensures r.Ok? ==> (IsNullValue(r.value) <==> v.Null?)
    ensures v.Null? ==> r.Ok? && TypeOf(r.value) == DataType.String
  {
    match v
    case Number(text, _) =>
      (match ParseI32(text)
       case Some(i) => Ok(ScalarValue.Int32(Some(i)))
       case None =>
         match parseFloat(text)
         case Some(f) => Ok(ScalarValue.Float64(Some(f)))
         case None => Err(ValidationError(InvalidNumber(text))))
    case SingleQuotedString(s) => Ok(ScalarValue.String(Some(s)))
    case DoubleQuotedString(s) => Ok(ScalarValue.String(Some(s)))
    case Boolean(b) => Ok(ScalarValue.Bool(Some(b)))
    case Null => Ok(ScalarValue.String(None))
    case OtherValue => Err(ValidationError(UnsupportedValue))
  }

  /** The rendering of any `i32` comes back as that `Int32` literal, whatever the float parser does. */
  lemma IntegerLiteralRoundTrip(x: I32, long: bool, parseFloat: string -> Option<F64>)
    ensures ValueToScalar(Number(FormatI32(x), long), parseFloat) == Ok(ScalarValue.Int32(Some(x)))
  {
    ParseFormatRoundTrip(x);
  }

  /** A number with a decimal point is never an `i32`: it is decided by the float parser alone. */
  lemma DecimalPointTakesFloatPath(text: string, long: bool, parseFloat: string -> Option<F64>)
    requires '.' in text
    ensures ValueToScalar(Number(text, long), parseFloat) ==
      match parseFloat(text)
      case Some(f) => Ok(ScalarValue.Float64(Some(f)))
      case None => Err(ValidationError(InvalidNumber(text)))
  {
  }

  // -------------------------------------------------------------- expressions

  /** Every `Column` leaf carries the type of the first schema field of its name. */
  predicate ColumnsTypedBy(x: Expression, schema: Schema)
  {
    match x
    case Column(n, t) => ColumnExists(schema, n).Ok? && ColumnExists(schema, n).value.fieldType == t
    case Literal(_) => true
    case Binary(l, r, _) => ColumnsTypedBy(l, schema) && ColumnsTypedBy(r, schema)
    case Unary(o, _) => ColumnsTypedBy(o, schema)
  }

  /** No `IsNull`/`IsNotNull` node occurs. */
  predicate NoNullTests(x: Expression)
  {
    match x
    case Column(_, _) => true
    case Literal(_) => true
    case Binary(l, r, _) => NoNullTests(l) && NoNullTests(r)
    case Unary(o, op) => !op.IsNull? && !op.IsNotNull? && NoNullTests(o)
  }

  /** Identifiers of an SQL expression, left to right. */
  function Identifiers(e: SqlExpr): seq<string>
  {
    match e
    case Identifier(n) => [n]
    case BinaryOp(l, _, r) => Identifiers(l) + Identifiers(r)
    case UnaryOp(_, o) => Identifiers(o)
    case _ => []
  }

  /** Column names of an expression, left to right. */
  function ColumnNames(x: Expression): seq<string>
  {
    match x
    case Column(n, _) => [n]
    case Literal(_) => []
    case Binary(l, r, _) => ColumnNames(l) + ColumnNames(r)
    case Unary(o, _) => ColumnNames(o)
  }

  /** The translation relation node by node: `x` is what `e` denotes. */
  predicate Mirrors(e: SqlExpr, x: Expression, schema: Schema, parseFloat: string -> Option<F64>)
  {
    match e
    case Identifier(n) =>
      x.Column? && x.name == n && ColumnExists(schema, n).Ok? && x.dataType == ColumnExists(schema, n).value.fieldType
    case Value(v) => x.Literal? && ValueToScalar(v, parseFloat) == Ok(x.value)
    case BinaryOp(l, op, r) =>
      x.Binary? && BinaryOperatorToOperator(op) == Ok(x.op)
      && Mirrors(l, x.left, schema, parseFloat) && Mirrors(r, x.right, schema, parseFloat)
    case UnaryOp(op, o) =>
      x.Unary? && UnaryOperatorToOperator(op) == Ok(x.unaryOp) && Mirrors(o, x.operand, schema, parseFloat)
    case _ => false
  }

  /** `sql_expr_to_expression`: left operand, then right operand, then the
      operator; the first failure is the result. */
  function ExprToExpression(e: SqlExpr, schema: Schema, parseFloat: string -> Option<F64>): (r: Result<Expression, QueryError>)
    ensures e.CompoundIdentifier? || e.Nested? || e.OtherExpr? ==> r == Err(ValidationError(UnsupportedExpression))
    ensures e.Identifier? && ColumnExists(schema, e.ident).Err? ==> r == Err(ValidationError(ColumnNotFound(e.ident)))
    ensures r.Ok? ==> ColumnsTypedBy(r.value, schema) && NoNullTests(r.value)
    ensures r.Ok? ==> ColumnNames(r.value) == Identifiers(e)
  {
    match e
    case Identifier(name) =>
      (match ColumnExists(schema, name)
       case Err(message) => Err(ValidationError(message))
       case Ok(field) => Ok(Column(name, field.fieldType)))
    case Value(v) =>
      var scalar :- ValueToScalar(v, parseFloat);
      Ok(Literal(scalar))
    case BinaryOp(l, op, r) =>
      var left :- ExprToExpression(l, schema, parseFloat);
      var right :- ExprToExpression(r, schema, parseFloat);
      var operator :- BinaryOperatorToOperator(op);
      Ok(Binary(left, right, operator))
    case UnaryOp(op, o) =>
      var operand :- ExprToExpression(o, schema, parseFloat);
      var operator :- UnaryOperatorToOperator(op);
      Ok(Unary(operand, operator))
    case _ => Err(ValidationError(UnsupportedExpression))
  }

  /** A successful translation mirrors its input node by node. */
  lemma {:induction false} TranslationMirrors(e: SqlExpr, schema: Schema, parseFloat: string -> Option<F64>)
    ensures ExprToExpression(e, schema, parseFloat).Ok? ==> Mirrors(e, ExprToExpression(e, schema, parseFloat).value, schema, parseFloat)
  {
    match e
    case BinaryOp(l, _, r) =>
      TranslationMirrors(l, schema, parseFloat);
      TranslationMirrors(r, schema, parseFloat);
    case UnaryOp(_, o) =>
      TranslationMirrors(o, schema, parseFloat);
    case _ =>
  }

  /** Whatever mirrors `e` is exactly what the translation returns. */
  lemma {:induction false} MirrorIsTranslation(e: SqlExpr, x: Expression, schema: Schema, parseFloat: string -> Option<F64>)
    requires Mirrors(e, x, schema, parseFloat)
    ensures ExprToExpression(e, schema, parseFloat) == Ok(x)
  {
    match e
    case BinaryOp(l, _, r) =>
      MirrorIsTranslation(l, x.left, schema, parseFloat);
      MirrorIsTranslation(r, x.right, schema, parseFloat);
    case UnaryOp(_, o) =>
      MirrorIsTranslation(o, x.operand, schema, parseFloat);
    case _ =>
  }

  /** A binary node reports its left operand's error first, then its right
      operand's, then the operator's; a unary node its operand's, then the operator's. */
  lemma TranslationErrorOrder(e: SqlExpr, schema: Schema, parseFloat: string -> Option<F64>)
    ensures e.BinaryOp? ==>
      var left := ExprToExpression(e.left, schema, parseFloat);
      var right := ExprToExpression(e.right, schema, parseFloat);
      var r := ExprToExpression(e, schema, parseFloat);
      && (left.Err? ==> r == Err(left.error))
      && (left.Ok? && right.Err? ==> r == Err(right.error))
      && (left.Ok? && right.Ok? && BinaryOperatorToOperator(e.binaryOp).Err? ==> r == Err(ValidationError(UnsupportedBinaryOperator)))
    ensures e.UnaryOp? ==>
      var operand := ExprToExpression(e.operand, schema, parseFloat);
      var r := ExprToExpression(e, schema, parseFloat);
      && (operand.Err? ==> r == Err(operand.error))
      && (operand.Ok? && UnaryOperatorToOperator(e.unaryOp).Err? ==> r == Err(ValidationError(UnsupportedUnaryOperator)))
  {
  }

  // ------------------------------------------------------------- select items

  /** `select_item_to_expression`: an alias is dropped, wildcards are refused. */
  function SelectItemToExpression(item: SelectItem, schema: Schema, parseFloat: string -> Option<F64>): (r: Result<Expression, QueryError>)
    ensures item.Wildcard? ==> r == Err(ValidationError(WildcardUnsupported))
    ensures item.QualifiedWildcard? ==> r == Err(ValidationError(UnsupportedSelectItem))
    ensures item.UnnamedExpr? || item.ExprWithAlias? ==> r == ExprToExpression(item.expr, schema, parseFloat)
  {
    match item
    case UnnamedExpr(e) => ExprToExpression(e, schema, parseFloat)
    case ExprWithAlias(e, _) => ExprToExpression(e, schema, parseFloat)
    case Wildcard => Err(ValidationError(WildcardUnsupported))
    case QualifiedWildcard(_) => Err(ValidationError(UnsupportedSelectItem))
  }

  /** `.map(select_item_to_expression).collect::<Result<Vec<_>, _>>()`:
      all items translated in order, or the error of the first that fails. */
  function SelectItemsToExpressions(items: seq<SelectItem>, schema: Schema, parseFloat: string -> Option<F64>): (r: Result<seq<Expression>, QueryError>)
    ensures r.Ok? ==> |r.value| == |items|
    ensures r.Ok? ==> forall i :: 0 <= i < |items| ==> SelectItemToExpression(items[i], schema, parseFloat) == Ok(r.value[i])
    ensures r.Err? ==> exists k :: 0 <= k < |items| && SelectItemToExpression(items[k], schema, parseFloat) == Err(r.error)
                        && forall j :: 0 <= j < k ==> SelectItemToExpression(items[j], schema, parseFloat).Ok?
    decreases |items|
  {
    if |items| == 0 then Ok([])
    else
      var first :- SelectItemToExpression(items[0], schema, parseFloat);
      var rest :- SelectItemsToExpressions(items[1..], schema, parseFloat);
      Ok([first] + rest)
  }

  // --------------------------------------------------------------- table name

  /** Length of the run of `c` at the start of `s`. */
  function LeadingRun(s: string, c: char): (k: nat)
    ensures k <= |s|
    ensures forall j :: 0 <= j < k ==> s[j] == c
    ensures k < |s| ==> s[k] != c
  {
    if |s| > 0 && s[0] == c then 1 + LeadingRun(s[1..], c) else 0
  }

  /** Length of the run of `c` at the end of `s`. */
  function TrailingRun(s: string, c: char): (k: nat)
    ensures k <= |s|
    ensures forall j :: |s| - k <= j < |s| ==> s[j] == c
    ensures k < |s| ==> s[|s| - 1 - k] != c
  {
    if |s| > 0 && s[|s| - 1] == c then 1 + TrailingRun(s[..|s| - 1], c) else 0
  }

  /** Bounds of what `trim_matches(c)` keeps: everything before `start` and
      from `end` on is `c`, and the kept part neither starts nor ends with `c`. */
  function TrimSpan(s: string, c: char): (span: (nat, nat))
    ensures span.0 <= span.1 <= |s|
    ensures forall k :: 0 <= k < span.0 ==> s[k] == c
    ensures forall k :: span.1 <= k < |s| ==> s[k] == c
    ensures span.0 < span.1 ==> s[span.0] != c && s[span.1 - 1] != c
  {
    var i := LeadingRun(s, c);
    var j := |s| - TrailingRun(s[i..], c);
    assert forall k :: j <= k < |s| ==> s[k] == s[i..][k - i];
    (i, j)
  }

  /** `str::trim_matches(c)`: every leading and every trailing `c` removed. */
  function TrimMatches(s: string, c: char): (r: string)
    ensures r == [] || (r[0] != c && r[|r| - 1] != c)
  {
    s[TrimSpan(s, c).0..TrimSpan(s, c).1]
  }

  /** Text that neither starts nor ends with `c` is left alone. */
  lemma TrimMatchesKeepsUntrimmed(s: string, c: char)
    requires s == [] || (s[0] != c && s[|s| - 1] != c)
    ensures TrimMatches(s, c) == s
  {
  }

  /** Trimming one character twice is trimming it once. */
  lemma TrimMatchesIdempotent(s: string, c: char)
    ensures TrimMatches(TrimMatches(s, c), c) == TrimMatches(s, c)
  {
  }

  /** One `c` on each side of text that does not start or end with `c` is removed. */
  lemma TrimMatchesOneLayer(body: string, c: char)
    requires |body| > 0 && body[0] != c && body[|body| - 1] != c
    ensures TrimMatches([c] + body + [c], c) == body
  {
    var w := [c] + body + [c];
    assert w[1..][0] == body[0];
    assert LeadingRun(w, c) == 1;
    var t := w[1..];
    assert t == body + [c];
    assert t[..|t| - 1] == body;
    assert TrailingRun(body, c) == 0;
    assert TrailingRun(t, c) == 1;
    assert w[1..|w| - 1] == body;
  }

  /** The two trims together are not idempotent: a `"`-quoted name inside
      `'` quotes loses its `'` quotes on the first pass and its `"` quotes
      only on the second. */
  lemma TableNameNotIdempotent()
    ensures TableName("'\"x\"'") == "\"x\""
    ensures TableName(TableName("'\"x\"'")) == "x"
  {
    QuotedNameFirstPass();
    QuotedNameSecondPass();
  }

  lemma QuotedNameFirstPass()
    ensures TableName("'\"x\"'") == "\"x\""
  {
    var inner := "\"x\"";
    var s := "'\"x\"'";
    assert s == ['\''] + inner + ['\''];
    TrimMatchesKeepsUntrimmed(s, '"');
    TrimMatchesOneLayer(inner, '\'');
  }

  lemma QuotedNameSecondPass()
    ensures TableName("\"x\"") == "x"
  {
  }

  lemma SliceOfSlice(s: string, a: nat, b: nat, c: nat, d: nat)
    requires a <= b <= |s| && c <= d <= b - a
    ensures s[a..b][c..d] == s[a + c..a + d]
  {
    var t := s[a..b];
    assert |t[c..d]| == d - c == |s[a + c..a + d]|;
    forall k | 0 <= k < d - c
      ensures t[c..d][k] == s[a + c..a + d][k]
    {
      assert t[c..d][k] == t[c + k] == s[a + c + k];
    }
  }

  predicate IsQuote(ch: char) { ch == '"' || ch == '\'' }

  /** The table name: `"` trimmed from both ends, then `'`. */
  function TableName(rendered: string): (t: string)
    ensures |t| <= |rendered|
    ensures |t| > 0 ==> t[0] != '\'' && t[|t| - 1] != '\''
  {
    TrimMatches(TrimMatches(rendered, '"'), '\'')
  }

  /** The table name is a contiguous piece of the rendered name that neither
      starts nor ends with `'`; only `"` and `'` were cut off around it. */
  lemma TableNameIsTrimmedPiece(rendered: string)
    ensures var t := TableName(rendered);
      t == [] || (t[0] != '\'' && t[|t| - 1] != '\'')
    ensures exists i, j :: (
      && 0 <= i <= j <= |rendered| && TableName(rendered) == rendered[i..j]
      && (forall k :: 0 <= k < i ==> IsQuote(rendered[k]))
      && (forall k :: j <= k < |rendered| ==> IsQuote(rendered[k])))
  {
    var outer := TrimSpan(rendered, '"');
    var u := rendered[outer.0..outer.1];
    var inner := TrimSpan(u, '\'');
    var i, j := outer.0 + inner.0, outer.0 + inner.1;
    assert TableName(rendered) == u[inner.0..inner.1];
    SliceOfSlice(rendered, outer.0, outer.1, inner.0, inner.1);
    forall k | 0 <= k < i
      ensures IsQuote(rendered[k])
    {
      if k >= outer.0 {
        assert rendered[k] == u[k - outer.0];
      }
    }
    forall k | j <= k < |rendered|
      ensures IsQuote(rendered[k])
    {
      if k < outer.1 {
        assert rendered[k] == u[k - outer.0];
      }
    }
  }

  /** `extract_table_name`: only the relation of the first FROM entry is
      consulted; its joins and any further entries are ignored. */
  function ExtractTableName(select: Select): (r: Result<string, QueryError>)
    ensures |select.from| == 0 ==> r == Err(ValidationError(NoFromClause))
    ensures |select.from| > 0 && select.from[0].relation.OtherRelation? ==> r == Err(ValidationError(OnlySimpleTables))
    ensures |select.from| > 0 && select.from[0].relation.Table? && |select.from[0].relation.name.parts| == 0
      ==> r == Err(ValidationError(InvalidTableName))
    ensures r.Ok? <==> |select.from| > 0 && select.from[0].relation.Table? && |select.from[0].relation.name.parts| > 0
    ensures r.Ok? ==> r.value == TableName(select.from[0].relation.name.rendered)
  {
    if |select.from| == 0 then Err(ValidationError(NoFromClause))
    else
      match select.from[0].relation
      case Table(name) =>
        if |name.parts| == 0 then Err(ValidationError(InvalidTableName))
        else Ok(TableName(name.rendered))
      case OtherRelation => Err(ValidationError(OnlySimpleTables))
  }

  // -------------------------------------------------------------------- query

  /** The plan below an optional `Projection`. */
  function BelowProjection(p: LogicalPlan): LogicalPlan
  {
    if p.Projection? then p.input else p
  }

  /** The plan below an optional `Filter`. */
  function BelowFilter(p: LogicalPlan): LogicalPlan
  {
    if p.Filter? then p.input else p
  }

  /** `query_to_logical_plan`: a `Scan` with no projection list, wrapped in a
      `Filter` when there is a WHERE clause, wrapped in a `Projection` when
      the select list is not empty. Failures are reported in the order table
      name, catalog lookup, WHERE clause, select list. */
  function QueryToLogicalPlan(query: Query, catalog: Catalog, parseFloat: string -> Option<F64>): (r: Result<LogicalPlan, QueryError>)
    ensures query.body.OtherSetExpr? ==> r == Err(ValidationError(OnlySelect))
    ensures query.body.SelectBody? && ExtractTableName(query.body.select).Err?
      ==> r == Err(ExtractTableName(query.body.select).error)
    ensures query.body.SelectBody? && ExtractTableName(query.body.select).Ok?
            && ExtractTableName(query.body.select).value !in catalog
      ==> r == Err(ValidationError(TableNotInCatalog(ExtractTableName(query.body.select).value)))
    ensures r.Ok? ==> query.body.SelectBody? && ExtractTableName(query.body.select).Ok?
                      && ExtractTableName(query.body.select).value in catalog
    ensures query.body.SelectBody? && ExtractTableName(query.body.select).Ok?
            && ExtractTableName(query.body.select).value in catalog
      ==> var name := ExtractTableName(query.body.select).value;
          r == TablePlan(name, catalog[name], query.body.select.selection, query.body.select.projection, parseFloat)
  {
    match query.body
    case OtherSetExpr => Err(ValidationError(OnlySelect))
    case SelectBody(select) =>
      var name :- ExtractTableName(select);
      match GetSchema(catalog, name)
      case None => Err(ValidationError(TableNotInCatalog(name)))
      case Some(schema) => TablePlan(name, schema, select.selection, select.projection, parseFloat)
  }

  /** The part of `query_to_logical_plan` after the schema is found: scan,
      then the WHERE filter, then the projection. */
  function TablePlan(name: string, schema: Schema, selection: Option<SqlExpr>, projection: seq<SelectItem>,
                     parseFloat: string -> Option<F64>): (r: Result<LogicalPlan, QueryError>)
    ensures selection.Some? && ExprToExpression(selection.value, schema, parseFloat).Err?
      ==> r == Err(ExprToExpression(selection.value, schema, parseFloat).error)
    ensures (selection.None? || ExprToExpression(selection.value, schema, parseFloat).Ok?)
            && SelectItemsToExpressions(projection, schema, parseFloat).Err?
      ==> r == Err(SelectItemsToExpressions(projection, schema, parseFloat).error)
    ensures r.Ok? <==> (selection.None? || ExprToExpression(selection.value, schema, parseFloat).Ok?)
                       && SelectItemsToExpressions(projection, schema, parseFloat).Ok?
  {
    var scan := Scan(name, schema, None);
    var filtered :- match selection
                    case None => Ok(scan)
                    case Some(where) =>
                      (var condition :- ExprToExpression(where, schema, parseFloat);
                       Ok(Filter(scan, condition)));
    var columns :- SelectItemsToExpressions(projection, schema, parseFloat);
    Ok(if |columns| == 0 then filtered else Projection(filtered, columns))
  }

  /** The shape of a translated query: the projection is there exactly when
      the select list is not empty and holds one expression per item; the
      filter is there exactly when WHERE is, and its condition mirrors it;
      innermost is a scan of the catalog table with no projection list. */
  lemma QueryPlanShape(select: Select, catalog: Catalog, parseFloat: string -> Option<F64>)
    requires QueryToLogicalPlan(Query(SelectBody(select)), catalog, parseFloat).Ok?
    ensures ExtractTableName(select).Ok? && ExtractTableName(select).value in catalog
    ensures
      var name := ExtractTableName(select).value;
      var p := QueryToLogicalPlan(Query(SelectBody(select)), catalog, parseFloat).value;
      && (p.Projection? <==> |select.projection| > 0)
      && (p.Projection? ==> SelectItemsToExpressions(select.projection, catalog[name], parseFloat) == Ok(p.columns)
                            && |p.columns| == |select.projection|)
      && (BelowProjection(p).Filter? <==> select.selection.Some?)
      && (select.selection.Some? ==>
            Mirrors(select.selection.value, BelowProjection(p).condition, catalog[name], parseFloat))
      && BelowFilter(BelowProjection(p)) == Scan(name, catalog[name], None)
  {
    var name := ExtractTableName(select).value;
    var schema := catalog[name];
    var p := QueryToLogicalPlan(Query(SelectBody(select)), catalog, parseFloat).value;
    assert Ok(p) == TablePlan(name, schema, select.selection, select.projection, parseFloat);
    if select.selection.Some? {
      TranslationMirrors(select.selection.value, schema, parseFloat);
    }
  }

  /** `sql_to_logical_plan`: only query statements are translated. */
  function SqlToLogicalPlan(statement: Statement, catalog: Catalog, parseFloat: string -> Option<F64>): (r: Result<LogicalPlan, QueryError>)
    ensures statement.OtherStatement? ==> r == Err(ValidationError(UnsupportedStatement))
    ensures statement.QueryStatement? ==> r == QueryToLogicalPlan(statement.query, catalog, parseFloat)
  {
    match statement
    case QueryStatement(query) => QueryToLogicalPlan(query, catalog, parseFloat)
    case OtherStatement => Err(ValidationError(UnsupportedStatement))
  }

  /** Later FROM entries and the joins of the first one do not change the translation. */
  lemma OnlyFirstRelationMatters(projection: seq<SelectItem>, first: TableWithJoins, rest: seq<TableWithJoins>,
                                 selection: Option<SqlExpr>, catalog: Catalog, parseFloat: string -> Option<F64>)
    ensures QueryToLogicalPlan(Query(SelectBody(Select(projection, [first] + rest, selection))), catalog, parseFloat)
         == QueryToLogicalPlan(Query(SelectBody(Select(projection, [TableWithJoins(first.relation, [])], selection))), catalog, parseFloat)
  {
  }

  // ------------------------------------------- translator against plan builder

  /** The builder's explicit full projection list in place of `None`. */
  function WithFullProjection(p: LogicalPlan): LogicalPlan
  {
    match p
    case Scan(path, schema, projection) =>
      Scan(path, schema, Some(if projection.None? then FieldNames(schema.fields) else projection.value))
    case Filter(input, condition) => Filter(WithFullProjection(input), condition)
    case Projection(input, columns) => Projection(WithFullProjection(input), columns)
  }

  /** The builder's `scan(name)` optionally followed by `filter(condition)`
      gives the scan (and filter) with the full name list. */
  lemma BuilderScanThenFilter(catalog: Catalog, name: string, condition: Option<Expression>,
                              validate: Expression -> Outcome<string>)
    requires name in catalog
    requires condition.Some? ==> validate(condition.value).Pass? && (condition.value.Binary? || condition.value.Unary?)
    ensures
      var scan := Scan(name, catalog[name], None);
      var below := if condition.Some? then Filter(scan, condition.value) else scan;
      var steps := [ScanStep(name)] + (if condition.Some? then [FilterStep(condition.value)] else []);
      Run(Initial(catalog), steps, validate) == Ok(PlanBuilder(catalog, Some(WithFullProjection(below)), catalog[name]))
  {
    var schema := catalog[name];
    var fullScan := Scan(name, schema, Some(FieldNames(schema.fields)));
    var scanned := PlanBuilder(catalog, Some(fullScan), schema);
    assert ApplyStep(Initial(catalog), ScanStep(name), validate) == Ok(scanned);
    if condition.Some? {
      var c := condition.value;
      var steps := [ScanStep(name)] + [FilterStep(c)];
      var filtered := PlanBuilder(catalog, Some(Filter(fullScan, c)), schema);
      assert WithFullProjection(Filter(Scan(name, schema, None), c)) == Filter(fullScan, c);
      assert ApplyStep(scanned, FilterStep(c), validate) == Ok(filtered);
      assert steps[1..] == [FilterStep(c)] && steps[1..][1..] == [];
      assert Run(scanned, steps[1..], validate) == Run(filtered, [], validate) == Ok(filtered);
      assert Run(Initial(catalog), steps, validate) == Run(scanned, steps[1..], validate);
    } else {
      var steps := [ScanStep(name)];
      assert steps[1..] == [];
      assert Run(Initial(catalog), steps, validate) == Run(scanned, [], validate);
    }
  }

  /** Below its projection, a translated query is the plan the builder makes
      with `scan(table)` and, for a WHERE clause, `filter(condition)`, once
      the translator's `None` projection is read as the full column list.
      The builder needs the WHERE condition to pass `is_valid` and to be a
      binary or unary node; the translator checks neither. */
  lemma TranslatorAgreesWithBuilder(select: Select, catalog: Catalog, parseFloat: string -> Option<F64>,
                                    validate: Expression -> Outcome<string>)
    requires QueryToLogicalPlan(Query(SelectBody(select)), catalog, parseFloat).Ok?
    requires var below := BelowProjection(QueryToLogicalPlan(Query(SelectBody(select)), catalog, parseFloat).value);
      below.Filter? ==> validate(below.condition).Pass? && (below.condition.Binary? || below.condition.Unary?)
    ensures var below := BelowProjection(QueryToLogicalPlan(Query(SelectBody(select)), catalog, parseFloat).value);
      var name := ExtractTableName(select).value;
      var steps := [ScanStep(name)] + (if below.Filter? then [FilterStep(below.condition)] else []);
      Run(Initial(catalog), steps, validate) == Ok(PlanBuilder(catalog, Some(WithFullProjection(below)), catalog[name]))
  {
    QueryPlanShape(select, catalog, parseFloat);
    var below := BelowProjection(QueryToLogicalPlan(Query(SelectBody(select)), catalog, parseFloat).value);
    var name := ExtractTableName(select).value;
    var condition := if below.Filter? then Some(below.condition) else None;
    BuilderScanThenFilter(catalog, name, condition, validate);
  }
}
