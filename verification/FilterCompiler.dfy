/** Compiling a filter tree to a database query, and what the database makes of the query. */
module FilterCompiler {
  import opened FilterModel
  import opened Options

  datatype Error =
    | WorkspaceInvalid | DepthExceeded | FilterInvalid | QueryInjection | GroupInvalid | ConditionLimit
    | FieldInvalid | OperatorInvalid | FieldNotAllowed | OperatorNotAllowed | ValueInvalid

  datatype Outcome<+T> = Done(value: T) | Fail(error: Error)

  /** What a query asks of one field. A pattern is matched ignoring case. */
  datatype Condition =
    | Equals(value: Scalar)
    | NotEqual(value: Scalar)
    | GreaterThan(value: Scalar)
    | LessThan(value: Scalar)
    | Range(low: Scalar, high: Scalar)
    | OneOf(values: seq<Scalar>)
    | NoneOf(values: seq<Scalar>)
    | Present(flag: bool)
    | Pattern(regex: string)

  datatype Query = OnField(name: string, condition: Condition) | All(queries: seq<Query>) | Any(queries: seq<Query>)

  /** A finished query: the workspace clause, unless the filter's own member took its place, and the filter. */
  datatype Compiled = Compiled(workspace: Option<string>, filter: Option<Query>)

  // ---- regular expressions ------------------------------------------------------------------------------------

  predicate Meta(c: char) { c in ".*+?^${}()|[]\\" }

  function Escape(s: string): string {
    if s == "" then "" else (if Meta(s[0]) then ['\\', s[0]] else [s[0]]) + Escape(s[1..])
  }

  /** The text a pattern stands for when every metacharacter in it is escaped. */
  function Literal(regex: string): Option<string> {
    if regex == "" then Some("")
    else if regex[0] == '\\' then
      if |regex| < 2 || !Meta(regex[1]) then None
      else match Literal(regex[2..]) case None => None case Some(rest) => Some([regex[1]] + rest)
    else if Meta(regex[0]) then None
    else match Literal(regex[1..]) case None => None case Some(rest) => Some([regex[0]] + rest)
  }

  /** Whether a text matches a pattern ignoring case. Only literal patterns, free or bound to the start of the
      text, are given a meaning; the compiler makes no others. */
  predicate Matches(regex: string, s: string, env: Env) {
    if "^" <= regex then
      match Literal(regex[1..]) case None => false case Some(word) => FoldCase(word, env) <= FoldCase(s, env)
    else
      match Literal(regex) case None => false case Some(word) => Occurs(FoldCase(word, env), FoldCase(s, env))
  }

  // ---- the database -----------------------------------------------------------------------------------------------

  /** The two ends of a range are matched separately, by any of the field's values each. */
  predicate Met(condition: Condition, field: FieldValue, env: Env) {
    var values := Candidates(field);
    match condition
    case Equals(v) => v in values
    case NotEqual(v) => v !in values
    case GreaterThan(v) => exists c <- values :: Less(v, c)
    case LessThan(v) => exists c <- values :: Less(c, v)
    case Range(low, high) => (exists c <- values :: AtMost(low, c)) && (exists c <- values :: AtMost(c, high))
    case OneOf(vs) => exists c <- values :: c in vs
    case NoneOf(vs) => !exists c <- values :: c in vs
    case Present(flag) => flag == !field.Missing?
    case Pattern(regex) => exists c <- values :: c.Str? && Matches(regex, c.text, env)
  }

  predicate Selects(query: Query, doc: Document, env: Env) {
    match query
    case OnField(name, condition) => Met(condition, FieldOf(doc, name), env)
    case All(queries) => forall i :: 0 <= i < |queries| ==> Selects(queries[i], doc, env)
    case Any(queries) => exists i :: 0 <= i < |queries| && Selects(queries[i], doc, env)
  }

  predicate Finds(compiled: Compiled, doc: Document, env: Env) {
    && (compiled.workspace.Some? ==> doc.workspaceId == compiled.workspace.value)
    && (compiled.filter.Some? ==> Selects(compiled.filter.value, doc, env))
  }

  // ---- the compiler as a function ---------------------------------------------------------------------------------

  /** The field names every object inherits; looking one up in the table finds something that is no type. */
  const INHERITED := [
    "constructor", "hasOwnProperty", "isPrototypeOf", "propertyIsEnumerable", "toLocaleString", "toString", "valueOf"]

  function Operands(t: FieldType, entries: seq<Json>, env: Env): (r: Option<seq<Scalar>>)
    ensures r.Some? <==> forall e <- entries :: Operand(t, e, env).Some?
    ensures r.Some? ==>
              && |r.value| == |entries|
              && forall i :: 0 <= i < |entries| ==> Some(r.value[i]) == Operand(t, entries[i], env)
  {
    if entries == [] then Some([])
    else
      match (Operand(t, entries[0], env), Operands(t, entries[1..], env))
      case (Some(v), Some(rest)) =>
        assert entries == [entries[0]] + entries[1..];
        Some([v] + rest)
      case _ => None
  }

  /** A relative date as a range; the words are compared as they stand. */
  function CompileRelative(v: Json, env: Env): Option<Condition> {
    if !RelativeValid(v) then None
    else
      var past := Get(v.members, "direction") == Text("past");
      var unit := Get(v.members, "unit");
      var reach := Get(v.members, "amount").number.Floor
                   * (if unit == Text("day") then 1 else if unit == Text("week") then 7 else 30) * DAY;
      Some(if past then Range(Date(env.now - reach), Date(env.now)) else Range(Date(env.now), Date(env.now + reach)))
  }

  function Comparison(op: Operator, parsed: Scalar): Condition
    requires op in {Eq, Neq, Gt, Lt} || (op in {Contains, StartsWith} && parsed.Str?)
  {
    if op == Eq then Equals(parsed)
    else if op == Neq then NotEqual(parsed)
    else if op == Gt then GreaterThan(parsed)
    else if op == Lt then LessThan(parsed)
    else if op == StartsWith then Pattern("^" + Escape(parsed.text))
    else Pattern(Escape(parsed.text))
  }

  function CompileOperand(op: Operator, t: FieldType, v: Json, env: Env): Option<Condition>
    requires Supports(op, t)
  {
    match op
    case Exists => if v.Bool? then Some(Present(v.flag)) else None
    case RelativeDate => CompileRelative(v, env)
    case Between =>
      if !v.Array? || |v.items| != 2 then None
      else
        (match (Operand(t, v.items[0], env), Operand(t, v.items[1], env))
         case (Some(low), Some(high)) => Some(Range(low, high))
         case _ => None)
    case In | NotIn =>
      if !v.Array? || |v.items| < 1 || |v.items| > 100 then None
      else
        (match Operands(t, v.items, env)
         case Some(values) => Some(if op == In then OneOf(values) else NoneOf(values))
         case None => None)
    case _ =>
      match Operand(t, v, env)
      case None => None
      case Some(parsed) => Some(Comparison(op, parsed))
  }

  function CompileCondition(schema: Schema, members: seq<Member>, env: Env): Outcome<Query> {
    if exists m <- members :: m.name !in ["field", "operator", "value"] then Fail(FilterInvalid)
    else
      var field, operator := Get(members, "field"), Get(members, "operator");
      if !field.Text? || !FieldName(field.text) then Fail(FieldInvalid)
      else if !operator.Text? || OperatorNamed(operator.text).None? then Fail(OperatorInvalid)
      else if field.text !in schema then
        Fail(if field.text in INHERITED then OperatorNotAllowed else FieldNotAllowed)
      else
        var op, t := OperatorNamed(operator.text).value, schema[field.text];
        var value := Get(members, "value");
        if !Supports(op, t) then Fail(OperatorNotAllowed)
        else if op == RelativeDate && value.Object? && !SafeKeys(value.members) then Fail(QueryInjection)
        else
          match CompileOperand(op, t, value, env)
          case None => Fail(ValueInvalid)
          case Some(condition) => Done(OnField(field.text, condition))
  }

  /** Compiles a node, given the conditions counted so far; yields the query and the new count. */
  function CompileNode(schema: Schema, node: Json, depth: nat, count: nat, env: Env): Outcome<(Query, nat)>
    decreases node
  {
    if depth > MAX_DEPTH then Fail(DepthExceeded)
    else if !node.Object? then Fail(FilterInvalid)
    else if !SafeKeys(node.members) then Fail(QueryInjection)
    else if IsCondition(node.members) then
      if count + 1 > MAX_CONDITIONS then Fail(ConditionLimit)
      else
        match CompileCondition(schema, node.members, env)
        case Fail(e) => Fail(e)
        case Done(query) => Done((query, count + 1))
    else if !IsGroup(node.members) then Fail(GroupInvalid)
    else
      match CompileAll(schema, node.members[0].value.items, depth + 1, count, env)
      case Fail(e) => Fail(e)
      case Done((queries, total)) => Done((if node.members[0].name == "and" then All(queries) else Any(queries), total))
  }

  function CompileAll(schema: Schema, nodes: seq<Json>, depth: nat, count: nat, env: Env): Outcome<(seq<Query>, nat)>
    decreases nodes
  {
    if nodes == [] then Done(([], count))
    else
      match CompileNode(schema, nodes[0], depth, count, env)
      case Fail(e) => Fail(e)
      case Done((query, next)) =>
        match CompileAll(schema, nodes[1..], depth, next, env)
        case Fail(e) => Fail(e)
        case Done((queries, total)) => Done(([query] + queries, total))
  }

  /** The spread writes the filter's member over a workspace clause of the same name. */
  function Spread(workspace: string, filter: Option<Query>): Compiled {
    if filter.Some? && filter.value.OnField? && filter.value.name == "workspaceId" then Compiled(None, filter)
    else Compiled(Some(workspace), filter)
  }

  function Compile(schema: Schema, node: Option<Json>, workspaceId: string, env: Env): Outcome<Compiled> {
    match env.objectId(workspaceId)
    case None => Fail(WorkspaceInvalid)
    case Some(workspace) =>
      if node.None? then Done(Spread(workspace, None))
      else
        match CompileNode(schema, node.value, 0, 0, env)
        case Fail(e) => Fail(e)
        case Done((query, _)) => Done(Spread(workspace, Some(query)))
  }

  // ---- the compiler at work ---------------------------------------------------------------------------------------

  /** Puts queries already compiled in front of those still to come. */
  function Prepend(done: seq<Query>, rest: Outcome<(seq<Query>, nat)>): Outcome<(seq<Query>, nat)> {
    match rest
    case Fail(e) => Fail(e)
    case Done((queries, total)) => Done((done + queries, total))
  }

  lemma PrependNothing(rest: Outcome<(seq<Query>, nat)>)
    ensures Prepend([], rest) == rest
  {
    if rest.Done? { assert [] + rest.value.0 == rest.value.0; }
  }

  /** One compilation; its counter is shared by all the nodes of the tree. */
  class Compilation {
    const entity: Entity
    const env: Env
    var conditions: nat

    constructor (entity: Entity, env: Env)
      ensures this.entity == entity && this.env == env && conditions == 0
    {
      this.entity, this.env, conditions := entity, env, 0;
    }

    method Node(node: Json, depth: nat) returns (r: Outcome<Query>)
      modifies this
      decreases node
      ensures match CompileNode(Fields(entity), node, depth, old(conditions), env)
              case Fail(e) => r == Fail(e)
              case Done((query, total)) => r == Done(query) && conditions == total
    {
      hide Fields, CompileCondition, SafeKeys, IsCondition, Has, Spread;
      if depth > MAX_DEPTH { return Fail(DepthExceeded); }
      if !node.Object? { return Fail(FilterInvalid); }
      if !SafeKeys(node.members) { return Fail(QueryInjection); }
      if IsCondition(node.members) {
        r := ConditionNode(node.members);
        return;
      }
      if !IsGroup(node.members) { return Fail(GroupInvalid); }
      var children := node.members[0].value.items;
      ghost var start := conditions;
      var compiled, i := [], 0;
      assert children[0..] == children;
      PrependNothing(CompileAll(Fields(entity), children, depth + 1, start, env));
      while i < |children|
        invariant 0 <= i <= |children|
        invariant CompileAll(Fields(entity), children, depth + 1, start, env)
                  == Prepend(compiled, CompileAll(Fields(entity), children[i..], depth + 1, conditions, env))
      {
        assert children[i..][0] == children[i] && children[i..][1..] == children[i + 1..];
        var child := Node(children[i], depth + 1);
        if child.Fail? { return Fail(child.error); }
        ghost var rest := CompileAll(Fields(entity), children[i + 1..], depth + 1, conditions, env);
        assert rest.Done? ==> (compiled + [child.value]) + rest.value.0 == compiled + ([child.value] + rest.value.0);
        compiled := compiled + [child.value];
        i := i + 1;
      }
      assert children[|children|..] == [] && compiled + [] == compiled;
      r := Done(if node.members[0].name == "and" then All(compiled) else Any(compiled));
    }

    method ConditionNode(members: seq<Member>) returns (r: Outcome<Query>)
      modifies this
      ensures conditions == old(conditions) + 1
      ensures r == if conditions > MAX_CONDITIONS then Fail(ConditionLimit)
                   else CompileCondition(Fields(entity), members, env)
    {
      conditions := conditions + 1;
      if conditions > MAX_CONDITIONS { return Fail(ConditionLimit); }
      r := CompileCondition(Fields(entity), members, env);
    }
  }

  method CompileFilter(entity: Entity, node: Option<Json>, workspaceId: string, env: Env) returns (r: Outcome<Compiled>)
    ensures r == Compile(Fields(entity), node, workspaceId, env)
  {
    hide Fields, CompileNode;
    var workspace := env.objectId(workspaceId);
    if workspace.None? { return Fail(WorkspaceInvalid); }
    var state := new Compilation(entity, env);
    var filter: Option<Query> := None;
    if node.Some? {
      var compiled := state.Node(node.value, 0);
      if compiled.Fail? { return Fail(compiled.error); }
      filter := Some(compiled.value);
    }
    r := Done(Spread(workspace.value, filter));
  }

  /** The count the search metrics report. */
  function ConditionCount(v: Json): nat
    decreases v
  {
    match v
    case Array(items) => CountItems(items)
    case Object(members) => if Has(members, "field") then 1 else CountMembers(members)
    case _ => 0
  }

  function CountItems(items: seq<Json>): nat
    decreases items
  {
    if items == [] then 0 else ConditionCount(items[0]) + CountItems(items[1..])
  }

  function CountMembers(members: seq<Member>): nat
    decreases members
  {
    if members == [] then 0 else ConditionCount(members[0].value) + CountMembers(members[1..])
  }

  method CountConditions(v: Json) returns (count: nat)
    ensures count == ConditionCount(v)
    decreases v
  {
    if v.Array? {
      count := 0;
      var i := 0;
      while i < |v.items|
        invariant 0 <= i <= |v.items|
        invariant count + CountItems(v.items[i..]) == ConditionCount(v)
      {
        assert v.items[i..][1..] == v.items[i + 1..];
        var inner := CountConditions(v.items[i]);
        count := count + inner;
        i := i + 1;
      }
      return;
    }
    if !v.Object? { return 0; }
    if Has(v.members, "field") { return 1; }
    count := 0;
    var i := 0;
    while i < |v.members|
      invariant 0 <= i <= |v.members|
      invariant count + CountMembers(v.members[i..]) == ConditionCount(v)
    {
      assert v.members[i..][1..] == v.members[i + 1..];
      var inner := CountConditions(v.members[i].value);
      count := count + inner;
      i := i + 1;
    }
  }
}
