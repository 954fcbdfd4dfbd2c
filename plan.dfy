/** Expressions, logical plans, the catalog and the fluent plan builder of
    src/logical_plan/plan.rs. Builder steps consume a builder and return a
    new one, so they are functions here. */
module Plan {
  import opened Wrappers
  import opened Errors
  import opened DataTypes
  import opened Scalar
  import opened Schemas

  datatype Operator = Gt | Lt | Eq | NotEq | Add | Subtract | Multiply | Divide
  {
    predicate IsComparison() { Gt? || Lt? || Eq? || NotEq? }
  }

  datatype UnaryOperator = Not | IsNull | IsNotNull | Negate

  datatype Expression =
    | Column(name: string, dataType: DataType)
    | Literal(value: ScalarValue)
    | Binary(left: Expression, right: Expression, op: Operator)
    | Unary(operand: Expression, unaryOp: UnaryOperator)

  /** `projection` is `None` for "every column"; `Projection` carries a list
      of expressions. */
  datatype LogicalPlan =
    | Scan(path: string, schema: Schema, projection: Option<seq<string>>)
    | Filter(input: LogicalPlan, condition: Expression)
    | Projection(input: LogicalPlan, columns: seq<Expression>)

  /** Table name to the schema its data source reports. */
  type Catalog = map<string, Schema>

  /** `Catalog::get_schema`. */
  function GetSchema(catalog: Catalog, tableName: string): (r: Option<Schema>)
    ensures r.Some? <==> tableName in catalog
    ensures r.Some? ==> r.value == catalog[tableName]
  {
    if tableName in catalog then Some(catalog[tableName]) else None
  }

  datatype PlanBuilder = PlanBuilder(catalog: Catalog, currentPlan: Option<LogicalPlan>, currentSchema: Schema)

  /** A builder before its first step: no plan, an empty schema. */
  function Initial(catalog: Catalog): PlanBuilder
  {
    PlanBuilder(catalog, None, Schema([]))
  }

  /** Field names in schema order (`fields.iter().map(|f| f.name.clone()).collect()`). */
  function FieldNames(fields: seq<Field>): (names: seq<string>)
    ensures |names| == |fields|
    ensures forall i :: 0 <= i < |fields| ==> names[i] == fields[i].name
  {
    if |fields| == 0 then [] else [fields[0].name] + FieldNames(fields[1..])
  }

  const TableNotFound := "Table not found"
  const NoCurrentPlan := "Filter did not receive current plan"
  const NotAPredicate := "Expression Type not supported for filtering"

  /** `PlanBuilder::scan`: replaces whatever plan was built with a full scan of the table. */
  function BuilderScan(b: PlanBuilder, tableName: string): (r: Result<PlanBuilder, QueryError>)
    ensures tableName !in b.catalog ==> r == Err(ValidationError(TableNotFound))
    ensures tableName in b.catalog ==> r.Ok?
    ensures r.Ok? ==> r.value.catalog == b.catalog && r.value.currentSchema == b.catalog[tableName]
    ensures r.Ok? ==> r.value.currentPlan.Some? && r.value.currentPlan.value.Scan?
    ensures r.Ok? ==> var p := r.value.currentPlan.value;
      && p.path == tableName && p.schema == b.catalog[tableName]
      && p.projection.Some? && |p.projection.value| == |p.schema.fields|
      && forall i :: 0 <= i < |p.schema.fields| ==> p.projection.value[i] == p.schema.fields[i].name
  {
    if tableName in b.catalog then
      var schema := b.catalog[tableName];
      var plan := Scan(tableName, schema, Some(FieldNames(schema.fields)));
      Ok(b.(currentSchema := schema, currentPlan := Some(plan)))
    else
      Err(ValidationError(TableNotFound))
  }

  /** `PlanBuilder::filter`. `validate` stands for `Expression::is_valid`,
      whose body is not written in the Rust code. The missing plan is reported
      before the expression is looked at; validation runs before the shape check. */
  function BuilderFilter(b: PlanBuilder, expression: Expression, validate: Expression -> Outcome<string>): (r: Result<PlanBuilder, QueryError>)
    ensures b.currentPlan.None? ==> r == Err(ValidationError(NoCurrentPlan))
    ensures b.currentPlan.Some? && validate(expression).Fail? ==> r == Err(ValidationError(validate(expression).error))
    ensures b.currentPlan.Some? && validate(expression).Pass? && (expression.Column? || expression.Literal?)
      ==> r == Err(ValidationError(NotAPredicate))
    ensures r.Ok? <==> b.currentPlan.Some? && validate(expression).Pass? && (expression.Binary? || expression.Unary?)
    ensures r.Ok? ==> r.value.catalog == b.catalog && r.value.currentSchema == b.currentSchema
    ensures r.Ok? ==> r.value.currentPlan == Some(Filter(b.currentPlan.value, expression))
  {
    match b.currentPlan
    case None => Err(ValidationError(NoCurrentPlan))
    case Some(input) =>
      match validate(expression)
      case Fail(message) => Err(ValidationError(message))
      case Pass =>
        if !(expression.Binary? || expression.Unary?) then Err(ValidationError(NotAPredicate))
        else Ok(b.(currentPlan := Some(Filter(input, expression))))
  }

  /** Zero or more `Filter` nodes over one `Scan`. */
  predicate FilterChain(p: LogicalPlan)
  {
    match p
    case Scan(_, _, _) => true
    case Filter(input, _) => FilterChain(input)
    case Projection(_, _) => false
  }

  /** The `Scan` at the bottom of a filter chain. */
  function BaseScan(p: LogicalPlan): (s: LogicalPlan)
    requires FilterChain(p)
    ensures s.Scan?
  {
    if p.Scan? then p else BaseScan(p.input)
  }

  /** What holds of every builder reached by `scan` and `filter` steps: the
      plan is a filter chain over a full scan of a catalog table, and the
      builder's schema is that table's schema. */
  predicate Consistent(b: PlanBuilder)
  {
    b.currentPlan.Some? ==>
      && FilterChain(b.currentPlan.value)
      && var s := BaseScan(b.currentPlan.value);
      && s.path in b.catalog
      && s.schema == b.catalog[s.path] == b.currentSchema
      && s.projection == Some(FieldNames(s.schema.fields))
  }

  datatype Step = ScanStep(table: string) | FilterStep(condition: Expression)

  function ApplyStep(b: PlanBuilder, step: Step, validate: Expression -> Outcome<string>): Result<PlanBuilder, QueryError>
  {
    match step
    case ScanStep(t) => BuilderScan(b, t)
    case FilterStep(e) => BuilderFilter(b, e, validate)
  }

  /** A fluent chain `b.step1()?.step2()?...`: the first failing step ends it. */
  function Run(b: PlanBuilder, steps: seq<Step>, validate: Expression -> Outcome<string>): Result<PlanBuilder, QueryError>
    decreases |steps|
  {
    if |steps| == 0 then Ok(b)
    else
      var next :- ApplyStep(b, steps[0], validate);
      Run(next, steps[1..], validate)
  }

  /** Number of `Filter` nodes above the base of a chain. */
  function FilterDepth(p: LogicalPlan): nat
    requires FilterChain(p)
  {
    if p.Scan? then 0 else 1 + FilterDepth(p.input)
  }

  lemma StepKeepsConsistent(b: PlanBuilder, step: Step, validate: Expression -> Outcome<string>)
    requires Consistent(b)
    ensures ApplyStep(b, step, validate).Ok? ==>
      Consistent(ApplyStep(b, step, validate).value) && ApplyStep(b, step, validate).value.catalog == b.catalog
  {
  }

  /** Any chain of `scan` and `filter` steps keeps the builder consistent and
      never changes its catalog. */
  lemma {:induction false} RunKeepsConsistent(b: PlanBuilder, steps: seq<Step>, validate: Expression -> Outcome<string>)
    requires Consistent(b)
    ensures Run(b, steps, validate).Ok? ==>
      Consistent(Run(b, steps, validate).value) && Run(b, steps, validate).value.catalog == b.catalog
    decreases |steps|
  {
    if |steps| > 0 {
      StepKeepsConsistent(b, steps[0], validate);
      var next := ApplyStep(b, steps[0], validate);
      if next.Ok? {
        RunKeepsConsistent(next.value, steps[1..], validate);
      }
    }
  }

  /** Every plan a builder chain produces from an empty builder is filters over a scan. */
  lemma ChainFromInitialIsFilterChain(catalog: Catalog, steps: seq<Step>, validate: Expression -> Outcome<string>)
    ensures var r := Run(Initial(catalog), steps, validate);
      r.Ok? && r.value.currentPlan.Some? ==> FilterChain(r.value.currentPlan.value)
  {
    RunKeepsConsistent(Initial(catalog), steps, validate);
  }

  /** Filter steps after a scan each add exactly one `Filter` node when they succeed. */
  lemma {:induction false} FiltersStack(b: PlanBuilder, predicates: seq<Expression>, validate: Expression -> Outcome<string>)
    requires Consistent(b) && b.currentPlan.Some?
    ensures var r := Run(b, seq(|predicates|, i requires 0 <= i < |predicates| => FilterStep(predicates[i])), validate);
      r.Ok? ==> (
        && r.value.currentPlan.Some? && FilterChain(r.value.currentPlan.value)
        && FilterDepth(r.value.currentPlan.value) == FilterDepth(b.currentPlan.value) + |predicates|
        && BaseScan(r.value.currentPlan.value) == BaseScan(b.currentPlan.value)
        && r.value.currentSchema == b.currentSchema)
    decreases |predicates|
  {
    var steps := seq(|predicates|, i requires 0 <= i < |predicates| => FilterStep(predicates[i]));
    if |predicates| > 0 {
      var next := BuilderFilter(b, predicates[0], validate);
      assert ApplyStep(b, steps[0], validate) == next;
      if next.Ok? {
        var p := b.currentPlan.value;
        assert next.value.currentPlan.value == Filter(p, predicates[0]);
        assert FilterDepth(Filter(p, predicates[0])) == FilterDepth(p) + 1;
        assert BaseScan(Filter(p, predicates[0])) == BaseScan(p);
        StepKeepsConsistent(b, steps[0], validate);
        FiltersStack(next.value, predicates[1..], validate);
        assert steps[1..] == seq(|predicates[1..]|, i requires 0 <= i < |predicates[1..]| => FilterStep(predicates[1..][i]));
      }
    }
  }

  /** `filter` before any `scan` fails, whatever follows. */
  lemma FilterBeforeScanFails(catalog: Catalog, e: Expression, rest: seq<Step>, validate: Expression -> Outcome<string>)
    ensures Run(Initial(catalog), [FilterStep(e)] + rest, validate) == Err(ValidationError(NoCurrentPlan))
  {
  }
}
