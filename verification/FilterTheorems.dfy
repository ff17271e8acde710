/** What compiling a filter accepts, counts and means. */
module FilterTheorems {
  import opened FilterCompiler
  import opened FilterModel
  import opened Options

  // ---- acceptance and the counter ------------------------------------------------------------------------------

  predicate Accepted(schema: Schema, node: Json, depth: nat, count: nat, env: Env) {
    && Valid(schema, node, env)
    && depth + Height(node) <= MAX_DEPTH
    && count + Leaves(node) <= MAX_CONDITIONS
  }

  /** A condition compiles exactly when it is valid. */
  lemma ConditionCompiles(schema: Schema, members: seq<Member>, env: Env)
    ensures CompileCondition(schema, members, env).Done? <==> ConditionValid(schema, members, env)
  {
    var field, operator, value := Get(members, "field"), Get(members, "operator"), Get(members, "value");
    assert RelativeValid(value) ==> value.Object? && SafeKeys(value.members);
    assert OperandValid(RelativeDate, DateField, value, env) == RelativeValid(value);
    hide FieldName, OperatorNamed, RelativeValid, Operand, SafeKeys;
    if field.Text? && operator.Text? && field.text in schema && OperatorNamed(operator.text).Some?
       && Supports(OperatorNamed(operator.text).value, schema[field.text]) {
      OperandCompiles(OperatorNamed(operator.text).value, schema[field.text], value, env);
      hide Supports, CompileOperand, Get;
    }
  }

  lemma OperandCompiles(op: Operator, t: FieldType, v: Json, env: Env)
    requires Supports(op, t)
    ensures CompileOperand(op, t, v, env).Some? <==> OperandValid(op, t, v, env)
  {
    hide RelativeValid, Operand, Comparison;
    if op.Between? && v.Array? && |v.items| == 2 {
      assert v.items == [v.items[0], v.items[1]];
    }
  }

  /** A tree compiles exactly when all its nodes are valid, no node lies more than five groups deep, and it
      brings the count to no more than fifty; the count then grows by the number of conditions. */
  lemma {:induction false} NodeCompiles(schema: Schema, node: Json, depth: nat, count: nat, env: Env)
    requires count <= MAX_CONDITIONS
    ensures CompileNode(schema, node, depth, count, env).Done? <==> Accepted(schema, node, depth, count, env)
    ensures CompileNode(schema, node, depth, count, env).Done? ==>
              CompileNode(schema, node, depth, count, env).value.1 == count + Leaves(node)
    decreases node
  {
    hide SafeKeys, IsCondition, CompileCondition, ConditionValid;
    if node.Object? {
      ConditionCompiles(schema, node.members, env);
      if !IsCondition(node.members) && IsGroup(node.members) {
        AllCompile(schema, node.members[0].value.items, depth + 1, count, env);
        assert node.members[0].value.items[0] in node.members[0].value.items;
      }
    }
  }

  lemma {:induction false} AllCompile(schema: Schema, nodes: seq<Json>, depth: nat, count: nat, env: Env)
    requires count <= MAX_CONDITIONS
    ensures var r := CompileAll(schema, nodes, depth, count, env);
            && (r.Done? <==>
                && (forall i :: 0 <= i < |nodes| ==> Valid(schema, nodes[i], env))
                && (nodes != [] ==> depth + HeightOf(nodes) <= MAX_DEPTH)
                && count + LeavesOf(nodes) <= MAX_CONDITIONS)
            && (r.Done? ==> |r.value.0| == |nodes| && r.value.1 == count + LeavesOf(nodes))
    decreases nodes
  {
    if nodes == [] {
    } else {
      NodeCompiles(schema, nodes[0], depth, count, env);
      hide Valid, Height, Leaves;
      var first := CompileNode(schema, nodes[0], depth, count, env);
      if first.Done? {
        AllCompile(schema, nodes[1..], depth, first.value.1, env);
      }
      assert nodes == [nodes[0]] + nodes[1..];
    }
  }

  /** The count the metrics report is the number of conditions compiled. */
  lemma {:induction false} CountsAgree(schema: Schema, node: Json, env: Env)
    requires Valid(schema, node, env)
    ensures ConditionCount(node) == Leaves(node)
    decreases node
  {
    if IsCondition(node.members) {
      HasField(schema, node.members, env);
    } else {
      assert node.members == [node.members[0]];
      CountsAgreeOver(schema, node.members[0].value.items, env);
      assert CountMembers(node.members) == CountItems(node.members[0].value.items) + CountMembers([]);
    }
  }

  lemma {:induction false} CountsAgreeOver(schema: Schema, nodes: seq<Json>, env: Env)
    requires forall i :: 0 <= i < |nodes| ==> Valid(schema, nodes[i], env)
    ensures CountItems(nodes) == LeavesOf(nodes)
    decreases nodes
  {
    if nodes == [] {
    } else {
      CountsAgree(schema, nodes[0], env);
      CountsAgreeOver(schema, nodes[1..], env);
    }
  }

  lemma HasField(schema: Schema, members: seq<Member>, env: Env)
    requires ConditionValid(schema, members, env)
    ensures Has(members, "field")
  {
    GetFinds(members, "field");
  }

  lemma {:induction false} GetFinds(members: seq<Member>, key: string)
    ensures !Get(members, key).Null? ==> Has(members, key)
  {
    if members == [] {
    } else {
      GetFinds(members[1..], key);
      assert members == [members[0]] + members[1..];
    }
  }

  // ---- patterns ------------------------------------------------------------------------------------------------

  /** An escaped text is a pattern for just that text. */
  lemma {:induction false} EscapedIsLiteral(s: string)
    ensures Literal(Escape(s)) == Some(s)
    ensures !("^" <= Escape(s))
  {
    if s == "" {
    } else {
      EscapedIsLiteral(s[1..]);
      var rest := Escape(s[1..]);
      var e := Escape(s);
      assert [s[0]] + s[1..] == s;
      if Meta(s[0]) {
        assert e == ['\\', s[0]] + rest && e[2..] == rest;
      } else {
        assert e == [s[0]] + rest && e[1..] == rest;
        assert Meta('\\') && Meta('^');
      }
    }
  }

  /** A compiled pattern matches exactly the texts that contain, or start with, the operand ignoring case,
      whatever characters the operand is made of. */
  lemma PatternsAreLiteral(word: string, s: string, env: Env)
    ensures Matches(Escape(word), s, env) <==> Occurs(FoldCase(word, env), FoldCase(s, env))
    ensures Matches("^" + Escape(word), s, env) <==> FoldCase(word, env) <= FoldCase(s, env)
  {
    EscapedIsLiteral(word);
    var e := Escape(word);
    assert ("^" + e)[1..] == e;
  }

  // ---- relative dates ------------------------------------------------------------------------------------------

  /** The words of a relative date are given as text, or read as the ones any other value falls back to. */
  predicate Plain(v: Json)
    requires RelativeValid(v)
  {
    var direction, unit := Get(v.members, "direction"), Get(v.members, "unit");
    && (direction.Text? || ReadsAs(direction, "future"))
    && (unit.Text? || ReadsAs(unit, "month"))
  }

  lemma {:induction false} ReadsAsOneWord(v: Json, a: string, b: string)
    requires ReadsAs(v, a) && ReadsAs(v, b)
    ensures a == b
    decreases v
  {
    match v
    case Array(items) => ReadsAsOneWord(items[0], a, b);
    case _ =>
  }

  lemma RelativeRange(v: Json, env: Env)
    requires RelativeValid(v)
    ensures Plain(v) ==>
              CompileRelative(v, env).value == if ReadsAs(Get(v.members, "direction"), "past")
                                               then Range(Date(env.now - Reach(v)), Date(env.now))
                                               else Range(Date(env.now), Date(env.now + Reach(v)))
  {
    var direction, unit := Get(v.members, "direction"), Get(v.members, "unit");
    hide SafeKeys, Get;
    if !direction.Text? && ReadsAs(direction, "past") && ReadsAs(direction, "future") {
      ReadsAsOneWord(direction, "past", "future");
    }
    if !unit.Text? && ReadsAs(unit, "month") {
      if ReadsAs(unit, "day") { ReadsAsOneWord(unit, "month", "day"); }
      if ReadsAs(unit, "week") { ReadsAsOneWord(unit, "month", "week"); }
    }
  }

  lemma MetByInstant(low: int, high: int, at: int, env: Env)
    ensures Met(Range(Date(low), Date(high)), One(Date(at)), env) <==> low <= at <= high
  {
    assert Candidates(One(Date(at))) == [Date(at)];
    assert Date(at) in Candidates(One(Date(at)));
  }

  /** A relative date compiles to the stretch its words name, however they are written, exactly when they are
      plain: any other shape passes the checks and falls back to the future, or to months. */
  lemma RelativeDateMeansItsWordsIffPlain(v: Json, env: Env)
    requires RelativeValid(v)
    ensures (forall at: int :: Met(CompileRelative(v, env).value, One(Date(at)), env) <==> InReach(v, at, env))
            <==> Plain(v)
  {
    var compiled := CompileRelative(v, env).value;
    forall at: int
      ensures Met(compiled, One(Date(at)), env) <==> compiled.low.at <= at <= compiled.high.at
    {
      MetByInstant(compiled.low.at, compiled.high.at, at, env);
    }
    hide Met;
    if Plain(v) {
      RelativeRange(v, env);
      hide CompileRelative, RelativeValid, Reach, Plain, ReadsAs;
    } else {
      var at := Misread(v, env);
      assert !(Met(compiled, One(Date(at)), env) <==> InReach(v, at, env));
    }
  }

  /** An instant that tells the two stretches apart. */
  lemma Misread(v: Json, env: Env) returns (at: int)
    requires RelativeValid(v) && !Plain(v)
    ensures var compiled := CompileRelative(v, env).value;
            InReach(v, at, env) != (compiled.low.at <= at <= compiled.high.at)
  {
    var direction, unit := Get(v.members, "direction"), Get(v.members, "unit");
    var amount := Get(v.members, "amount").number.Floor;
    hide SafeKeys, Get;
    assert 1 <= amount;
    if !(direction.Text? || ReadsAs(direction, "future")) {
      at := env.now - 1;
      assert Reach(v) >= DAY;
    } else {
      var reach := amount * 30 * DAY;
      at := if direction == Text("past") then env.now - reach else env.now + reach;
      if !direction.Text? && ReadsAs(direction, "past") { ReadsAsOneWord(direction, "past", "future"); }
      assert Reach(v) <= amount * 7 * DAY < reach;
    }
  }

  // ---- meaning ---------------------------------------------------------------------------------------------------

  /** Every relative date in the tree is plain. */
  predicate PlainDates(schema: Schema, node: Json, env: Env)
    requires Valid(schema, node, env)
  {
    if IsCondition(node.members) then
      Get(node.members, "operator") == Text("relativeDate") ==> Plain(Get(node.members, "value"))
    else
      forall i :: 0 <= i < |node.members[0].value.items| ==> PlainDates(schema, node.members[0].value.items[i], env)
  }

  lemma OperandMeaning(op: Operator, t: FieldType, v: Json, field: FieldValue, env: Env)
    requires Supports(op, t) && OperandValid(op, t, v, env)
    requires op.RelativeDate? ==> Plain(v)
    requires t.StringArrayField? || !field.Many?
    ensures CompileOperand(op, t, v, env).Some?
    ensures Met(CompileOperand(op, t, v, env).value, field, env) <==> Says(op, t, v, field, env)
  {
    OperandCompiles(op, t, v, env);
    hide Met, Says, CompileOperand, OperandValid, Candidates;
    if op.RelativeDate? {
      RelativeMeaning(t, v, field, env);
    } else if op.Between? {
      BetweenMeaning(t, v, field, env);
    } else if op.Contains? || op.StartsWith? {
      PatternMeaning(op, t, v, field, env);
    } else if op.In? || op.NotIn? {
      MembershipMeaning(op, t, v, field, env);
    } else {
      ComparisonMeaning(op, t, v, field, env);
    }
  }

  lemma ComparisonMeaning(op: Operator, t: FieldType, v: Json, field: FieldValue, env: Env)
    requires op in {Eq, Neq, Gt, Lt, Exists} && Supports(op, t) && OperandValid(op, t, v, env)
    ensures Met(CompileOperand(op, t, v, env).value, field, env) <==> Says(op, t, v, field, env)
  {
    hide Candidates, Less, Operand, Supports;
  }

  lemma MembershipMeaning(op: Operator, t: FieldType, v: Json, field: FieldValue, env: Env)
    requires op in {In, NotIn} && Supports(op, t) && OperandValid(op, t, v, env)
    ensures Met(CompileOperand(op, t, v, env).value, field, env) <==> Says(op, t, v, field, env)
  {
    SomeMember(Candidates(field), t, v.items, env);
    hide Candidates, Operand, Supports;
  }

  lemma SomeMember(values: seq<Scalar>, t: FieldType, entries: seq<Json>, env: Env)
    requires Operands(t, entries, env).Some?
    ensures (exists c <- values :: c in Operands(t, entries, env).value)
            <==> exists c <- values, e <- entries :: Operand(t, e, env) == Some(c)
  {
    SameMembers(t, entries, env);
    hide Operand, Operands;
    if c, e :| c in values && e in entries && Operand(t, e, env) == Some(c) {
      assert c in Operands(t, entries, env).value;
    }
  }

  lemma RelativeMeaning(t: FieldType, v: Json, field: FieldValue, env: Env)
    requires RelativeValid(v) && Plain(v) && !field.Many? && t.DateField?
    ensures Met(CompileOperand(RelativeDate, t, v, env).value, field, env) <==> Says(RelativeDate, t, v, field, env)
  {
    RelativeRange(v, env);
    hide RelativeValid, CompileRelative, Plain, Reach, ReadsAs, Get;
    if field.One? {
      assert Candidates(field) == [field.value] && field.value in Candidates(field);
    }
  }

  lemma BetweenMeaning(t: FieldType, v: Json, field: FieldValue, env: Env)
    requires OperandValid(Between, t, v, env) && Supports(Between, t) && !field.Many?
    ensures Met(CompileOperand(Between, t, v, env).value, field, env) <==> Says(Between, t, v, field, env)
  {
    hide RelativeValid, AtMost;
    assert v.items[0] in v.items && v.items[1] in v.items;
    if field.One? {
      assert Candidates(field) == [field.value] && field.value in Candidates(field);
    }
  }

  lemma PatternMeaning(op: Operator, t: FieldType, v: Json, field: FieldValue, env: Env)
    requires op.Contains? || op.StartsWith?
    requires Supports(op, t) && OperandValid(op, t, v, env)
    ensures Met(CompileOperand(op, t, v, env).value, field, env) <==> Says(op, t, v, field, env)
  {
    forall s
      ensures Matches(Escape(v.text), s, env) <==> Occurs(FoldCase(v.text, env), FoldCase(s, env))
      ensures Matches("^" + Escape(v.text), s, env) <==> FoldCase(v.text, env) <= FoldCase(s, env)
    {
      PatternsAreLiteral(v.text, s, env);
    }
    hide Matches, Occurs, FoldCase, Escape, Candidates;
  }

  lemma SameMembers(t: FieldType, entries: seq<Json>, env: Env)
    requires Operands(t, entries, env).Some?
    ensures forall c :: c in Operands(t, entries, env).value <==> exists e <- entries :: Operand(t, e, env) == Some(c)
  {
    var values := Operands(t, entries, env).value;
    forall c ensures c in values <==> exists e <- entries :: Operand(t, e, env) == Some(c) {
      if c in values {
        var i :| 0 <= i < |values| && values[i] == c;
        assert entries[i] in entries && Operand(t, entries[i], env) == Some(c);
      }
      if e :| e in entries && Operand(t, e, env) == Some(c) {
        var i :| 0 <= i < |entries| && entries[i] == e;
        assert values[i] == c;
      }
    }
  }

  lemma ConditionMeaning(schema: Schema, members: seq<Member>, doc: Document, env: Env)
    requires ConditionValid(schema, members, env) && Fits(schema, doc)
    requires Get(members, "operator") == Text("relativeDate") ==> Plain(Get(members, "value"))
    ensures CompileCondition(schema, members, env).Done?
    ensures Selects(CompileCondition(schema, members, env).value, doc, env) <==> ConditionHolds(schema, members, doc, env)
  {
    ConditionCompiles(schema, members, env);
    var field := Get(members, "field").text;
    var op := OperatorNamed(Get(members, "operator").text).value;
    assert op.RelativeDate? ==> Get(members, "operator").text == "relativeDate";
    OperandMeaning(op, schema[field], Get(members, "value"), FieldOf(doc, field), env);
    hide Get, OperatorNamed, Supports, OperandValid, Says, Met, CompileOperand;
  }

  lemma {:induction false} NodeMeaning(schema: Schema, node: Json, depth: nat, count: nat, doc: Document, env: Env)
    requires CompileNode(schema, node, depth, count, env).Done? && Fits(schema, doc)
    requires Valid(schema, node, env) && PlainDates(schema, node, env)
    ensures Selects(CompileNode(schema, node, depth, count, env).value.0, doc, env) <==> Holds(schema, node, doc, env)
    decreases node
  {
    hide SafeKeys, IsCondition, CompileCondition, ConditionValid, Fits, Get, Plain, ConditionHolds;
    if IsCondition(node.members) {
      ConditionMeaning(schema, node.members, doc, env);
    } else {
      AllMeaning(schema, node.members[0].value.items, depth + 1, count, doc, env);
    }
  }

  lemma {:induction false} AllMeaning(schema: Schema, nodes: seq<Json>, depth: nat, count: nat, doc: Document, env: Env)
    requires CompileAll(schema, nodes, depth, count, env).Done? && Fits(schema, doc)
    requires forall i :: 0 <= i < |nodes| ==> Valid(schema, nodes[i], env) && PlainDates(schema, nodes[i], env)
    ensures var queries := CompileAll(schema, nodes, depth, count, env).value.0;
            && |queries| == |nodes|
            && forall i :: 0 <= i < |nodes| ==> (Selects(queries[i], doc, env) <==> Holds(schema, nodes[i], doc, env))
    decreases nodes
  {
    if nodes == [] {
    } else {
      NodeMeaning(schema, nodes[0], depth, count, doc, env);
      hide Valid, PlainDates, Holds, Selects, Fits;
      var first := CompileNode(schema, nodes[0], depth, count, env);
      AllMeaning(schema, nodes[1..], depth, first.value.1, doc, env);
      var rest := CompileAll(schema, nodes[1..], depth, first.value.1, env).value.0;
      var queries := [first.value.0] + rest;
      forall i | 0 <= i < |nodes| ensures Selects(queries[i], doc, env) <==> Holds(schema, nodes[i], doc, env) {
        if i > 0 { assert queries[i] == rest[i - 1] && nodes[i] == nodes[1..][i - 1]; }
      }
    }
  }

  // ---- whole filters ----------------------------------------------------------------------------------------------

  /** No entity lets a filter name the workspace. */
  lemma WorkspaceIsNoField(entity: Entity)
    ensures "workspaceId" !in Fields(entity)
  {
    if entity in {Contacts, Companies, Leads, Deals} {
      assert "workspaceId" !in Fields(entity);
    } else {
      WorkspaceIsNoOtherField(entity);
    }
  }

  lemma WorkspaceIsNoOtherField(entity: Entity)
    requires entity !in {Contacts, Companies, Leads, Deals}
    ensures "workspaceId" !in Fields(entity)
  {}

  lemma CompiledField(schema: Schema, node: Json, depth: nat, count: nat, env: Env)
    requires CompileNode(schema, node, depth, count, env).Done?
    ensures var query := CompileNode(schema, node, depth, count, env).value.0;
            query.OnField? ==> query.name in schema
  {
    hide SafeKeys, IsCondition, IsGroup, CompileOperand, FieldName, OperatorNamed, Supports, Get, CompileAll;
  }

  /** A filter compiles exactly when the workspace id is one and the tree is valid, at most five groups deep and
      of at most fifty conditions. */
  lemma FilterCompilesIff(entity: Entity, node: Option<Json>, workspaceId: string, env: Env)
    ensures Compile(Fields(entity), node, workspaceId, env).Done? <==>
            && env.objectId(workspaceId).Some?
            && (node.Some? ==>
                && Valid(Fields(entity), node.value, env)
                && Height(node.value) <= 5 && Leaves(node.value) <= 50)
  {
    hide Fields, CompileNode, Valid, Height, Leaves;
    if node.Some? { NodeCompiles(Fields(entity), node.value, 0, 0, env); }
  }

  /** A compiled filter finds exactly the documents of the caller's workspace that the filter holds of. */
  lemma CompiledFilterMeans(entity: Entity, node: Option<Json>, workspaceId: string, doc: Document, env: Env)
    requires Compile(Fields(entity), node, workspaceId, env).Done? && Fits(Fields(entity), doc)
    requires node.Some? ==> Valid(Fields(entity), node.value, env) && PlainDates(Fields(entity), node.value, env)
    ensures Finds(Compile(Fields(entity), node, workspaceId, env).value, doc, env) <==>
            && doc.workspaceId == env.objectId(workspaceId).value
            && (node.Some? ==> Holds(Fields(entity), node.value, doc, env))
  {
    WorkspaceIsNoField(entity);
    hide Fields, CompileNode, Fits, PlainDates, Holds, Selects;
    if node.Some? {
      CompiledField(Fields(entity), node.value, 0, 0, env);
      NodeMeaning(Fields(entity), node.value, 0, 0, doc, env);
    }
  }
}
