# vektur planning core in Dafny

This project models the query-planning core of vektur, a small analytical
query engine written in Rust. It covers three parts:

- **Columnar data model** (`datatypes.dfy`, `scalar.dfy`, `schema.dfy`, `errors.dfy`).
  `DataType` and its derived order, nullable `ScalarValue`s, `ColumnVector`,
  `Field`, `Schema` and `RecordBatch`, and the `QueryError` taxonomy.
  `RecordBatch::new` checks the column count, then walks the columns in a
  loop and stops at the first length mismatch. It is a `method` with that loop.
- **Logical plan, catalog and plan builder** (`plan.dfy`). `Expression` and
  `LogicalPlan` are trees. The catalog is a map from table name to schema.
  The builder's `scan` and `filter` consume a builder and return a new one,
  so they are functions on a `PlanBuilder` value. A builder chain is a
  sequence of `Step`s run fail-fast by `Run`.
- **SQL-to-plan translator** (`sql_ast.dfy`, `planner.dfy`, `numbers.dfy`).
  The subset of the external parser's syntax tree that the translator
  matches on. The translation of statements, select items, expressions,
  operators and literals. Rust's `parse::<i32>`, which literal translation
  relies on.

`wrappers.dfy` holds `Option`, `Result` (usable with `:-`) and `Outcome`.

Two operations the core calls are parameters of the model:

- `Expression::is_valid` has no written body (it is `todo!()`). The
  builder's `filter` takes it as `validate: Expression -> Outcome<string>`.
- `parse::<f64>` is a standard-library call whose decimal-to-binary
  rounding is not modelled. It is the parameter
  `parseFloat: string -> Option<F64>`. `F64` is the 64-bit pattern of an
  `f64`, and no arithmetic is done on it.

Notes on how the model reads the Rust code:

- `Scan.projection` is `Vec<String>` in src/logical_plan/plan.rs:11, but the
  translator writes `None` (src/sql_support/planner.rs:42). The model uses
  `Option<seq<string>>`. The builder writes `Some(all field names)`. The
  translator writes `None`. `Planner.WithFullProjection` reads `None` as the
  full list, and `Planner.TranslatorAgreesWithBuilder` shows that with this
  reading the translator's scan and filter are what the builder produces.
- `Projection.columns` is one `Expression` in src/logical_plan/plan.rs:19,
  but the translator passes a vector (src/sql_support/planner.rs:62). The
  model uses `seq<Expression>`.
- `DataSource::schema` returns a field vector (src/datasource/mod.rs:5), and
  `Catalog::get_schema` returns a `Schema`. Both are the `Schema` stored in
  the catalog map.
- `Schema::column_exists` is called (src/sql_support/planner.rs:126) but never
  defined. Here it returns the first field with that exact name, or an
  error message. The message text `Column '<name>' not found` is this
  model's, because the Rust code has none.
- src/lib.rs:1-4 does not declare the `logical_plan` and `sql_support`
  modules. The model treats them as declared.
- Where the code departs from a complete SQL front end, the model does
  what the code does:
  - `SELECT *` fails with "SELECT * is not yet supported in projection"
    (src/sql_support/planner.rs:107-111). It does not expand to every column.
  - `>=` and `<=` become the strict `Gt` and `Lt`
    (src/sql_support/planner.rs:168-169), as the Rust code's TODO comments say.
  - `filter` calls `is_valid` without the schema
    (src/logical_plan/plan.rs:113).
  - The builder's unknown-table error is "Table not found"
    (src/logical_plan/plan.rs:103). The translator's is
    "Table '<name>' not found in catalog".
  - Only the first FROM entry is read. Later entries and its joins are
    ignored, not rejected (src/sql_support/planner.rs:77-88,
    `Planner.OnlyFirstRelationMatters`).
- Trimming `"` and then `'` from a table name is not idempotent.
  `'"x"'` becomes `"x"` on the first pass and `x` on the second
  (`Planner.TableNameNotIdempotent`). Each single-character trim is
  idempotent (`Planner.TrimMatchesIdempotent`).
- The translator accepts a WHERE clause that is a bare column or literal.
  The builder's `filter` rejects such a condition.

## Model

| member | source | states |
|---|---|---|
| DataTypes.Compare | src/types/datatypes.rs:1-7 | the derived `Ord`: zero exactly for equal types; its sign follows declaration position, so swapping the arguments flips it |
| DataTypes.LessIsStrictTotalOrder | src/types/datatypes.rs:1-7 | the order is irreflexive, total on distinct types and transitive, with Int32 < String < Bool < Float64 |
| Schemas.NewSchema | src/types/schema.rs:20-24 | `Schema::new` keeps the fields exactly as given, in order |
| Schemas.ColumnExists | src/sql_support/planner.rs:126-127 | the lookup succeeds iff some field has that exact name; the field returned is the first such field; otherwise the error names the column |
| Schemas.NewRecordBatch | src/types/schema.rs:28-54 | a count mismatch gives `SchemaCountMismatch{fields, columns}` before lengths are looked at; otherwise success iff every column is as long as column 0, with the batch holding the given schema and columns unchanged (value tags unchecked, zero columns always fine); otherwise `ColumnLengthMismatch` at the smallest offending index with column 0's length and that column's length; every success is well formed |
| Schemas.FirstLengthMismatchUnique | src/types/schema.rs:38-46 | the length-mismatch error described for `NewRecordBatch` is determined uniquely by the columns |
| Numbers.ParseI32 | src/sql_support/planner.rs:198 | `parse::<i32>` succeeds exactly when the text is an optional `+`/`-` followed by at least one digit and the signed decimal value lies in the `i32` range, and then yields that value |
| Numbers.ParseI32Signs | src/sql_support/planner.rs:198 | `+7` and `007` parse to 7, `-0` to 0; a lone `+` or `-` fails |
| Numbers.ParseI32RangeEnds | src/sql_support/planner.rs:198 | `-2147483648` parses; `2147483648` and `-2147483649` fail |
| Numbers.ParseFormatRoundTrip | src/sql_support/planner.rs:198 | parsing the decimal rendering of any `i32` gives back that `i32` |
| Plan.GetSchema | src/logical_plan/plan.rs:74-82 | `Some` exactly for registered tables, carrying that table's schema; `None` otherwise |
| Plan.FieldNames | src/logical_plan/plan.rs:97-99 | one name per field, the i-th being the i-th field's name |
| Plan.BuilderScan | src/logical_plan/plan.rs:92-105 | an unregistered table gives "Table not found"; a registered one replaces the current plan by a scan of that table with its schema and its field names in order, sets the current schema to the table's, and leaves the catalog alone |
| Plan.BuilderFilter | src/logical_plan/plan.rs:107-127 | no current plan gives "Filter did not receive current plan" whatever the expression; an `is_valid` failure is reported next; a valid bare column or literal gives "Expression Type not supported for filtering"; success iff plan present, valid and binary/unary, and then wraps the old plan in a `Filter` with that condition, keeping schema and catalog |
| Plan.StepKeepsConsistent | src/logical_plan/plan.rs:92-127 | one successful `scan` or `filter` keeps the builder consistent (filters over a full scan of a catalog table whose schema is the current schema) and keeps the catalog |
| Plan.RunKeepsConsistent | src/logical_plan/plan.rs:92-127 | any successful chain of `scan`/`filter` steps keeps the builder consistent and never changes the catalog |
| Plan.ChainFromInitialIsFilterChain | src/logical_plan/plan.rs:100-126 | any plan built from an empty builder is zero or more `Filter` nodes over one `Scan` |
| Plan.FiltersStack | src/logical_plan/plan.rs:121-126 | n successful filters after a scan add exactly n `Filter` nodes over the same scan and keep the schema |
| Plan.FilterBeforeScanFails | src/logical_plan/plan.rs:109-111 | a chain starting with `filter` on an empty builder fails with "Filter did not receive current plan" |
| Planner.BinaryOperatorToOperator | src/sql_support/planner.rs:162-178 | exactly the six comparisons and four arithmetic operators are accepted; comparisons map to comparisons and arithmetic to arithmetic; `>=` becomes `Gt` and `<=` becomes `Lt`; every other accepted operator becomes the plan operator of the same name (`+` `Add`, `-` `Subtract`, `*` `Multiply`, `/` `Divide`); others fail with "Unsupported binary operator: " |
| Planner.NamesakeRoundTrip | src/sql_support/planner.rs:162-178 | every plan operator is produced, from the SQL operator of the same name |
| Planner.UnaryOperatorToOperator | src/sql_support/planner.rs:181-192 | `+`, `-` and `NOT` are accepted; only `NOT` gives `Not`; `IsNull`/`IsNotNull` are never produced; others fail |
| Planner.ValueToScalar | src/sql_support/planner.rs:195-217 | an i32-parsable number is `Int32` whatever the float parser says; any other number is `Float64` of exactly what the float parser returns, or, when that parser fails, the error "Invalid number: n"; quoted strings become `String`, booleans `Bool`, `NULL` a NULL `String`; only `NULL` yields a NULL; other values fail |
| Planner.IntegerLiteralRoundTrip | src/sql_support/planner.rs:197-199 | the rendering of any `i32` as a number literal translates to that `Int32` |
| Planner.DecimalPointTakesFloatPath | src/sql_support/planner.rs:197-206 | a number containing `.` is decided by the float parser alone |
| Planner.ExprToExpression | src/sql_support/planner.rs:119-159 | compound identifiers, nested and other expressions fail with "Unsupported expression type: "; an unknown identifier fails with the lookup's message; every result types each column by its schema field, contains no null tests, and lists the identifiers' names in order |
| Planner.TranslationMirrors | src/sql_support/planner.rs:119-159 | a successful translation mirrors its input node by node (identifier to typed column, value to literal, operator nodes to operator nodes with mapped operators) |
| Planner.MirrorIsTranslation | src/sql_support/planner.rs:119-159 | any expression that mirrors the input is exactly the translation's result |
| Planner.TranslationErrorOrder | src/sql_support/planner.rs:137-153 | binary nodes report the left operand's error, then the right's, then the operator's; unary nodes the operand's, then the operator's |
| Planner.SelectItemToExpression | src/sql_support/planner.rs:96-116 | a wildcard fails with "SELECT * is not yet supported in projection", a qualified wildcard with "Unsupported SELECT item: "; an aliased item translates like its bare expression |
| Planner.SelectItemsToExpressions | src/sql_support/planner.rs:53-57 | success gives one expression per item, in order; failure is the error of the first failing item, all items before it translating |
| Planner.TrimSpan | src/sql_support/planner.rs:87 | the kept span is bounded by runs of the trimmed character and does not start or end with it |
| Planner.TrimMatches | src/sql_support/planner.rs:87 | the trimmed text does not start or end with the trimmed character |
| Planner.TrimMatchesKeepsUntrimmed | src/sql_support/planner.rs:87 | text not starting or ending with the character is unchanged |
| Planner.TrimMatchesIdempotent | src/sql_support/planner.rs:87 | trimming one character twice equals trimming it once |
| Planner.TrimMatchesOneLayer | src/sql_support/planner.rs:87 | one copy of the character on each side of such text is removed |
| Planner.TableName | src/sql_support/planner.rs:87 | `"` is trimmed from both ends of the rendered name, then `'`; the result is no longer than the rendering and neither starts nor ends with `'` |
| Planner.TableNameIsTrimmedPiece | src/sql_support/planner.rs:87 | the table name is a contiguous substring of the rendered name, only quote characters are cut from either side, and it neither starts nor ends with `'` |
| Planner.TableNameNotIdempotent | src/sql_support/planner.rs:87 | the two-step trim is not idempotent: `'"x"'` gives `"x"` and then `x` |
| Planner.QuotedNameFirstPass | src/sql_support/planner.rs:87 | `'"x"'` is trimmed to `"x"`: the `"` pass changes nothing, the `'` pass removes one layer |
| Planner.QuotedNameSecondPass | src/sql_support/planner.rs:87 | `"x"` is trimmed to `x` |
| Planner.ExtractTableName | src/sql_support/planner.rs:70-93 | empty FROM gives "Query must have a FROM clause"; a non-table first relation and a name with no parts fail; success iff the first relation is a named table, and then the name is the trimmed rendering |
| Planner.OnlyFirstRelationMatters | src/sql_support/planner.rs:77-88 | later FROM entries and the joins of the first are ignored by the translation |
| Planner.QueryToLogicalPlan | src/sql_support/planner.rs:20-67 | a non-SELECT body gives "Only SELECT queries are supported"; table-name errors come first; an unregistered table gives "Table '<name>' not found in catalog"; success implies a registered table; for a registered table the result is `TablePlan` on its schema |
| Planner.TablePlan | src/sql_support/planner.rs:39-66 | a failing WHERE translation is the result's error; otherwise a failing select list is; success exactly when WHERE (if any) and every select item translate |
| Planner.QueryPlanShape | src/sql_support/planner.rs:33-66 | the plan is a `Projection` iff the select list is non-empty (one expression per item), over a `Filter` iff WHERE is present (its condition mirrors WHERE), over `Scan{name, catalog schema, None}` |
| Planner.SqlToLogicalPlan | src/sql_support/planner.rs:6-18 | statements other than queries fail with "Unsupported statement type: "; queries are translated |
| Planner.BuilderScanThenFilter | src/logical_plan/plan.rs:92-127 | for a registered table, `scan` then an accepted `filter` yields the scan (and filter) with the full name list, the table's schema and the same catalog |
| Planner.TranslatorAgreesWithBuilder | src/sql_support/planner.rs:39-51 | below its projection a translated query equals the builder's `scan(table)` followed by `filter(WHERE)` when the condition passes `is_valid` and is a binary or unary node, with `None` read as the full name list |

## Left out

- src/datasource/csv.rs: every step is file-system I/O and printing. Its schema inference returns an empty field list, and its `scan` is `todo!()`.
- `DataSource::scan` (src/datasource/mod.rs:8): a lazy file-backed iterator. Only `schema()` is kept, as the catalog map's value.
- src/sql_support/sql.rs `tokenize`: an unfinished stub outside the planner.
- src/main.rs and src/cli/arg.rs: command-line parsing and printing.
- `f64` parsing and `Float64` payloads: an opaque `parseFloat` parameter and a 64-bit pattern.
- `Expression::is_valid`: its body is `todo!()`. It is a parameter of `BuilderFilter`.
- Expression type checking, `PlanBuilder::project`, `PlanBuilder::build` and `SELECT *` expansion: the Rust code does not implement them.
- The external SQL parser: only the matched subset of its syntax tree is modelled. Its `Display` for object names is replaced by the `rendered` string an `ObjectName` carries.
- Error messages built with `format!("...: {:?}", value)`: the message is the text before the `{:?}` rendering, `: ` included. The `Debug` rendering of syntax-tree values is not modelled.
- Building or registering a catalog: the Rust code defines no operation for it.
- Constructing a `PlanBuilder`: its fields are private and the Rust code gives it no constructor (src/logical_plan/plan.rs:85-89). `Plan.Initial` is this model's starting builder: the given catalog, no plan and an empty schema. The lemmas that start from it do not depend on that schema: with no plan, `filter` fails, so the first successful step is a `scan`, which overwrites the schema.
- The clauses of a SELECT other than its select list, FROM and WHERE (DISTINCT, GROUP BY, HAVING, ORDER BY, LIMIT, OFFSET) and a query's WITH: the translator never reads them (src/sql_support/planner.rs:24-57), so it ignores them rather than rejecting them, and a query using them gets the same plan as the query without them. The syntax-tree datatypes do not represent them.
- `LexerError`: declared, but nothing in the modelled core produces it.
- `ColumnVector::new`: a field-wise constructor, represented by the datatype constructor.
- Integer widths: `usize` counts are unbounded `nat`, since no batch in the model approaches the `usize` range. `i32` values are the `I32` subset type.
- Planner.ExprToExpression: the error returned for a failing literal is not stated in its own contract; `Planner.ValueToScalar` states it, and `Planner.TranslationErrorOrder` states the order of operand errors.
