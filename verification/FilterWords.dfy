/** What each word of the filter language says of a document, in terms of the request's own JSON. */
module FilterWords {
  import opened FilterCompiler
  import opened FilterModel
  import opened FilterTheorems
  import opened Options

  /** The request for one condition. */
  function Asks(field: string, word: string, value: Json): Json {
    Object([Member("field", Text(field)), Member("operator", Text(word)), Member("value", value)])
  }

  /** The filter compiles, and what it compiles to finds the document. */
  predicate Found(schema: Schema, tree: Json, workspaceId: string, doc: Document, env: Env) {
    var compiled := Compile(schema, Some(tree), workspaceId, env);
    compiled.Done? && Finds(compiled.value, doc, env)
  }

  // ---- the reference --------------------------------------------------------------------------------------------

  /** The document has the value in the field, by itself or in an array. */
  predicate Stores(doc: Document, field: string, c: Scalar) {
    && field in doc.fields
    && match doc.fields[field]
       case One(value) => value == c
       case Many(values) => c in values
       case _ => false
  }

  /** The JSON stands for the value in a field of the type. */
  predicate Denotes(t: FieldType, v: Json, c: Scalar, env: Env) {
    match c
    case Num(number) => t == NumberField && v == Number(number)
    case Flag(flag) => t == BooleanField && v == Bool(flag)
    case Date(at) => t == DateField && v.Text? && env.parseDate(v.text) == Some(at)
    case Id(id) => t == ObjectIdField && v.Text? && env.objectId(v.text) == Some(id)
    case Str(text) => (t == StringField || t == StringArrayField) && v == Text(text) && |text| <= 1000
  }

  ghost predicate Denoting(t: FieldType, v: Json, env: Env) { exists c :: Denotes(t, v, c, env) }

  predicate Above(a: Scalar, b: Scalar) {
    (a.Num? && b.Num? && a.number > b.number) || (a.Date? && b.Date? && a.at > b.at)
  }

  /** The value lies between those that the two entries stand for, or is one of them. */
  ghost predicate Within(t: FieldType, v: Json, c: Scalar, env: Env) {
    && v.Array? && |v.items| == 2
    && exists low, high ::
         && Denotes(t, v.items[0], low, env) && Denotes(t, v.items[1], high, env)
         && (c == low || Above(c, low)) && (c == high || Above(high, c))
  }

  /** A list of one to a hundred values of the type. */
  ghost predicate Lists(t: FieldType, v: Json, env: Env) {
    v.Array? && 1 <= |v.items| <= 100 && forall e <- v.items :: Denoting(t, e, env)
  }

  ghost predicate Listed(t: FieldType, v: Json, c: Scalar, env: Env) {
    v.Array? && exists e <- v.items :: Denotes(t, e, c, env)
  }

  predicate Appears(word: string, s: string) {
    exists i :: 0 <= i <= |s| && word <= s[i..]
  }

  /** A relative date as the language writes it. */
  function Relative(direction: string, amount: real, unit: string): Json {
    Object([Member("direction", Text(direction)), Member("amount", Number(amount)), Member("unit", Text(unit))])
  }

  /** The request is well addressed: a field the schema lists, by its name, in a workspace. */
  predicate Addressed(schema: Schema, field: string, workspaceId: string, env: Env) {
    field in schema && FieldName(field) && field != "workspaceId" && env.objectId(workspaceId).Some?
  }

  predicate Mine(doc: Document, workspaceId: string, env: Env) { env.objectId(workspaceId) == Some(doc.workspaceId) }

  // ---- from the words to the compiler -----------------------------------------------------------------------------

  lemma DenotesOperand(t: FieldType, v: Json, env: Env)
    ensures forall c :: Denotes(t, v, c, env) <==> Operand(t, v, env) == Some(c)
    ensures Denoting(t, v, env) <==> Operand(t, v, env).Some?
  {
    if Operand(t, v, env).Some? { assert Denotes(t, v, Operand(t, v, env).value, env); }
  }

  lemma StoresCandidate(doc: Document, field: string)
    ensures forall c :: Stores(doc, field, c) <==> c in Candidates(FieldOf(doc, field))
  {}

  lemma {:induction false} AppearsOccurs(word: string, s: string)
    ensures Appears(word, s) <==> Occurs(word, s)
  {
    assert s[0..] == s;
    if !(word <= s) && s != "" {
      AppearsOccurs(word, s[1..]);
      if Appears(word, s) {
        var i :| 0 <= i <= |s| && word <= s[i..];
        assert i > 0 && s[1..][i - 1..] == s[i..];
      }
      if Appears(word, s[1..]) {
        var i :| 0 <= i <= |s[1..]| && word <= s[1..][i..];
        assert s[1..][i..] == s[i + 1..];
      }
    }
  }

  /** A name of small letters is a safe key, unless it is as long as a forbidden one. */
  lemma SafeName(name: string)
    requires name != "" && forall i | 0 <= i < |name| :: 'a' <= name[i] <= 'z'
    requires |name| != 11 && (|name| == 9 ==> name[0] == 'd')
    ensures !("$" <= name) && '\0' !in name
    ensures name != "__proto__" && name != "prototype" && name != "constructor"
  {}

  lemma AskedMembers(field: string, word: string, v: Json)
    ensures var members := Asks(field, word, v).members;
            && Get(members, "field") == Text(field) && Get(members, "operator") == Text(word) && Get(members, "value") == v
            && SafeKeys(members) && IsCondition(members)
            && forall m <- members :: m.name in ["field", "operator", "value"]
  {
    var members := Asks(field, word, v).members;
    SafeName("field");
    SafeName("operator");
    SafeName("value");
    assert members[0] in members;
    assert members[1..] == [Member("operator", Text(word)), Member("value", v)];
    assert members[1..][1..] == [Member("value", v)];
    assert Get(members[1..][1..], "value") == v;
  }

  /** What compiling one condition comes to. */
  lemma CompileAsked(schema: Schema, field: string, word: string, v: Json, workspaceId: string, env: Env)
    requires Addressed(schema, field, workspaceId, env)
    ensures var outcome := Compile(schema, Some(Asks(field, word, v)), workspaceId, env);
            var op := OperatorNamed(word);
            if op.None? || !Supports(op.value, schema[field]) then outcome.Fail?
            else if op == Some(RelativeDate) && v.Object? && !SafeKeys(v.members) then outcome.Fail?
            else
              match CompileOperand(op.value, schema[field], v, env)
              case None => outcome.Fail?
              case Some(condition) =>
                outcome == Done(Compiled(Some(env.objectId(workspaceId).value), Some(OnField(field, condition))))
  {
    var members := Asks(field, word, v).members;
    assert members[0].name == "field" && members[0] in members;
    AskedMembers(field, word, v);
    hide OperatorNamed, Supports, CompileOperand, Get, FieldName, SafeKeys;
  }

  /** The operator takes the operand, and the field meets what it compiles to. */
  predicate Answers(op: Operator, t: FieldType, v: Json, field: FieldValue, env: Env) {
    && Supports(op, t) && CompileOperand(op, t, v, env).Some?
    && Met(CompileOperand(op, t, v, env).value, field, env)
  }

  lemma AskedIsMet(schema: Schema, field: string, word: string, op: Operator, v: Json, workspaceId: string,
                   doc: Document, env: Env)
    requires Addressed(schema, field, workspaceId, env)
    requires OperatorNamed(word) == Some(op) && (op == RelativeDate && v.Object? ==> SafeKeys(v.members))
    ensures Found(schema, Asks(field, word, v), workspaceId, doc, env) <==>
            Mine(doc, workspaceId, env) && Answers(op, schema[field], v, FieldOf(doc, field), env)
  {
    CompileAsked(schema, field, word, v, workspaceId, env);
    hide OperatorNamed, Supports, CompileOperand, Compile, Met, FieldName;
  }

  lemma ListedDenotes(t: FieldType, items: seq<Json>, env: Env)
    ensures Operands(t, items, env).Some? <==> forall e <- items :: Denoting(t, e, env)
    ensures Operands(t, items, env).Some? ==>
              forall c :: c in Operands(t, items, env).value <==> exists e <- items :: Denotes(t, e, c, env)
  {
    forall e <- items ensures forall c :: Denotes(t, e, c, env) <==> Operand(t, e, env) == Some(c)
                      ensures Denoting(t, e, env) <==> Operand(t, e, env).Some?
    {
      DenotesOperand(t, e, env);
    }
    hide Denotes, Denoting, Operand;
    if Operands(t, items, env).Some? {
      SameMembers(t, items, env);
      hide Operands;
    }
  }

  lemma EqualAnswers(t: FieldType, v: Json, field: FieldValue, env: Env)
    ensures Answers(Eq, t, v, field, env) <==> exists c :: Denotes(t, v, c, env) && c in Candidates(field)
  {
    DenotesOperand(t, v, env);
    hide Denotes, Denoting, Candidates, Operand;
  }

  lemma UnequalAnswers(t: FieldType, v: Json, field: FieldValue, env: Env)
    ensures Answers(Neq, t, v, field, env) <==>
              Denoting(t, v, env) && forall c :: Denotes(t, v, c, env) ==> c !in Candidates(field)
  {
    DenotesOperand(t, v, env);
    hide Denotes, Denoting, Candidates, Operand;
  }

  lemma LessIsAbove(a: Scalar, b: Scalar)
    requires a.Num? || a.Date?
    ensures Less(a, b) <==> Above(b, a)
    ensures Less(b, a) <==> Above(a, b)
    ensures AtMost(a, b) <==> b == a || Above(b, a)
    ensures AtMost(b, a) <==> b == a || Above(a, b)
  {}

  lemma OperandType(t: FieldType, v: Json, env: Env)
    requires Operand(t, v, env).Some?
    ensures var c := Operand(t, v, env).value; c.Num? || c.Date? <==> t in {NumberField, DateField}
  {}

  /** A bound's place in the order of the database. */
  lemma BoundOrders(t: FieldType, v: Json, env: Env)
    requires t in {NumberField, DateField} && Operand(t, v, env).Some?
    ensures var bound := Operand(t, v, env).value;
            forall c :: && (Less(bound, c) <==> Above(c, bound)) && (Less(c, bound) <==> Above(bound, c))
                        && (AtMost(bound, c) <==> c == bound || Above(c, bound))
                        && (AtMost(c, bound) <==> c == bound || Above(bound, c))
  {
    var bound := Operand(t, v, env).value;
    OperandType(t, v, env);
    hide Operand;
    forall c
      ensures (Less(bound, c) <==> Above(c, bound)) && (Less(c, bound) <==> Above(bound, c))
      ensures AtMost(bound, c) <==> c == bound || Above(c, bound)
      ensures AtMost(c, bound) <==> c == bound || Above(bound, c)
    {
      LessIsAbove(bound, c);
    }
  }

  lemma OthersAreNotAbove(t: FieldType, v: Json, env: Env)
    requires t !in {NumberField, DateField}
    ensures forall c, bound :: Denotes(t, v, bound, env) ==> !Above(c, bound) && !Above(bound, c)
  {}

  lemma GreaterAnswers(t: FieldType, v: Json, field: FieldValue, env: Env)
    ensures Answers(Gt, t, v, field, env) <==>
            exists c, bound :: Denotes(t, v, bound, env) && c in Candidates(field) && Above(c, bound)
  {
    DenotesOperand(t, v, env);
    if t !in {NumberField, DateField} {
      OthersAreNotAbove(t, v, env);
    } else if Operand(t, v, env).Some? {
      BoundOrders(t, v, env);
    }
    hide Denotes, Denoting, Candidates, Operand, Less, Above;
  }

  lemma LessAnswers(t: FieldType, v: Json, field: FieldValue, env: Env)
    ensures Answers(Lt, t, v, field, env) <==>
            exists c, bound :: Denotes(t, v, bound, env) && c in Candidates(field) && Above(bound, c)
  {
    DenotesOperand(t, v, env);
    if t !in {NumberField, DateField} {
      OthersAreNotAbove(t, v, env);
    } else if Operand(t, v, env).Some? {
      BoundOrders(t, v, env);
    }
    hide Denotes, Denoting, Candidates, Operand, Less, Above;
  }

  lemma BetweenAnswers(t: FieldType, v: Json, field: FieldValue, env: Env)
    requires !field.Many?
    ensures Answers(Between, t, v, field, env) <==>
              t in {NumberField, DateField} && exists c :: c in Candidates(field) && Within(t, v, c, env)
  {
    if v.Array? && |v.items| == 2 {
      PairAnswers(t, v, field, env);
    } else {
      hide Met;
    }
  }

  lemma PairAnswers(t: FieldType, v: Json, field: FieldValue, env: Env)
    requires !field.Many? && v.Array? && |v.items| == 2
    ensures Answers(Between, t, v, field, env) <==>
              t in {NumberField, DateField} && exists c :: c in Candidates(field) && Within(t, v, c, env)
  {
    var low, high := v.items[0], v.items[1];
    DenotesOperand(t, low, env);
    DenotesOperand(t, high, env);
    if t in {NumberField, DateField} && Operand(t, low, env).Some? && Operand(t, high, env).Some? {
      var a, b := Operand(t, low, env).value, Operand(t, high, env).value;
      BoundOrders(t, low, env);
      BoundOrders(t, high, env);
      assert Met(Range(a, b), field, env) <==> exists c :: c in Candidates(field) && AtMost(a, c) && AtMost(c, b) by {
        hide AtMost;
      }
      hide Met;
      hide AtMost, Above;
    }
    hide Denotes, Denoting, Candidates, Operand;
  }

  /** The two list operators compile to one list, of what the entries stand for. */
  lemma ListCompiles(t: FieldType, v: Json, env: Env) returns (values: seq<Scalar>)
    requires t != BooleanField
    ensures CompileOperand(In, t, v, env) == if Lists(t, v, env) then Some(OneOf(values)) else None
    ensures CompileOperand(NotIn, t, v, env) == if Lists(t, v, env) then Some(NoneOf(values)) else None
    ensures Lists(t, v, env) ==> forall c :: c in values <==> Listed(t, v, c, env)
  {
    values := [];
    if v.Array? {
      ListedDenotes(t, v.items, env);
      if Operands(t, v.items, env).Some? { values := Operands(t, v.items, env).value; }
    }
    hide Denotes, Denoting, Operand, Operands;
  }

  lemma InAnswers(t: FieldType, v: Json, field: FieldValue, env: Env)
    ensures Answers(In, t, v, field, env) <==>
              t != BooleanField && Lists(t, v, env) && exists c :: Listed(t, v, c, env) && c in Candidates(field)
  {
    if t != BooleanField {
      var values := ListCompiles(t, v, env);
      hide CompileOperand, Lists, Listed, Candidates;
    } else {
      hide Met, CompileOperand;
    }
  }

  lemma NotInAnswers(t: FieldType, v: Json, field: FieldValue, env: Env)
    ensures Answers(NotIn, t, v, field, env) <==>
              t != BooleanField && Lists(t, v, env) && forall c :: Listed(t, v, c, env) ==> c !in Candidates(field)
  {
    if t != BooleanField {
      var values := ListCompiles(t, v, env);
      hide CompileOperand, Lists, Listed, Candidates;
    } else {
      hide Met, CompileOperand;
    }
  }

  lemma ContainsAnswers(t: FieldType, word: string, field: FieldValue, env: Env)
    ensures Answers(Contains, t, Text(word), field, env) <==>
              && t in {StringField, StringArrayField} && |word| <= 1000
              && exists s :: Str(s) in Candidates(field) && Appears(FoldCase(word, env), FoldCase(s, env))
  {
    forall s ensures Appears(FoldCase(word, env), FoldCase(s, env)) <==> Matches(Escape(word), s, env) {
      PatternsAreLiteral(word, s, env);
      AppearsOccurs(FoldCase(word, env), FoldCase(s, env));
    }
    hide Matches, Appears, FoldCase, Escape;
    PatternIsMet(Escape(word), field, env);
    hide Candidates, Met;
  }

  lemma StartsWithAnswers(t: FieldType, word: string, field: FieldValue, env: Env)
    ensures Answers(StartsWith, t, Text(word), field, env) <==>
              && t == StringField && |word| <= 1000
              && exists s :: Str(s) in Candidates(field) && FoldCase(word, env) <= FoldCase(s, env)
  {
    forall s ensures FoldCase(word, env) <= FoldCase(s, env) <==> Matches("^" + Escape(word), s, env) {
      PatternsAreLiteral(word, s, env);
    }
    hide Matches, FoldCase, Escape;
    PatternIsMet("^" + Escape(word), field, env);
    hide Candidates, Met;
  }

  lemma PatternIsMet(regex: string, field: FieldValue, env: Env)
    ensures Met(Pattern(regex), field, env) <==> exists s :: Str(s) in Candidates(field) && Matches(regex, s, env)
  {
    hide Matches, Candidates;
    if Met(Pattern(regex), field, env) {
      var c :| c in Candidates(field) && c.Str? && Matches(regex, c.text, env);
      assert Str(c.text) in Candidates(field);
    }
  }

  lemma RelativeMembers(direction: string, amount: real, unit: string)
    ensures var members := Relative(direction, amount, unit).members;
            && Get(members, "direction") == Text(direction) && Get(members, "amount") == Number(amount)
            && Get(members, "unit") == Text(unit) && SafeKeys(members)
  {
    var members := Relative(direction, amount, unit).members;
    SafeName("direction");
    SafeName("amount");
    SafeName("unit");
    assert members[1..] == [Member("amount", Number(amount)), Member("unit", Text(unit))];
    assert members[1..][1..] == [Member("unit", Text(unit))];
    assert Get(members[1..][1..], "unit") == Text(unit);
    assert Get(members[1..], "unit") == Text(unit) && Get(members[1..], "amount") == Number(amount);
  }

  /** The instant lies in the stretch: days of 86,400 seconds, weeks of seven, months of thirty. */
  predicate InStretch(direction: string, amount: real, unit: string, at: int, now: int) {
    var reach := amount.Floor * (if unit == "day" then 1 else if unit == "week" then 7 else 30) * 86_400_000;
    if direction == "past" then now - reach <= at <= now else now <= at <= now + reach
  }

  predicate RelativeWords(direction: string, amount: real, unit: string) {
    && direction in ["past", "future"] && unit in ["day", "week", "month"]
    && amount == amount.Floor as real && 1.0 <= amount <= 365.0
  }

  lemma RelativeCompiles(direction: string, amount: real, unit: string, env: Env)
    ensures var v := Relative(direction, amount, unit);
            && (CompileRelative(v, env).Some? <==> RelativeWords(direction, amount, unit))
            && (RelativeWords(direction, amount, unit) ==>
                  exists low, high ::
                    && CompileRelative(v, env) == Some(Range(Date(low), Date(high)))
                    && forall at :: low <= at <= high <==> InStretch(direction, amount, unit, at, env.now))
  {
    RelativeMembers(direction, amount, unit);
    var v := Relative(direction, amount, unit);
    hide Get, SafeKeys;
    if RelativeWords(direction, amount, unit) {
      var range := CompileRelative(v, env).value;
      assert CompileRelative(v, env) == Some(Range(Date(range.low.at), Date(range.high.at)));
    }
  }

  lemma StretchIsMet(low: int, high: int, field: FieldValue, env: Env)
    requires !field.Many?
    ensures Met(Range(Date(low), Date(high)), field, env) <==>
            exists at :: Date(at) in Candidates(field) && low <= at <= high
  {
    if Met(Range(Date(low), Date(high)), field, env) {
      var c :| c in Candidates(field) && AtMost(Date(low), c);
      assert Date(c.at) in Candidates(field);
    }
  }

  lemma RelativeAnswers(t: FieldType, direction: string, amount: real, unit: string, field: FieldValue, env: Env)
    requires !field.Many?
    ensures Answers(RelativeDate, t, Relative(direction, amount, unit), field, env) <==>
              && t == DateField && RelativeWords(direction, amount, unit)
              && exists at :: Date(at) in Candidates(field) && InStretch(direction, amount, unit, at, env.now)
  {
    RelativeCompiles(direction, amount, unit, env);
    hide CompileRelative, Relative, RelativeWords, InStretch;
    if RelativeWords(direction, amount, unit) {
      var range := CompileRelative(Relative(direction, amount, unit), env).value;
      StretchIsMet(range.low.at, range.high.at, field, env);
    }
    hide Met, Candidates;
  }

  // ---- the words --------------------------------------------------------------------------------------------------

  /** `eq` and `neq`, on every type. */
  lemma EqualityFinds(schema: Schema, field: string, v: Json, workspaceId: string, doc: Document, env: Env)
    requires Addressed(schema, field, workspaceId, env)
    ensures var t := schema[field];
            && (Found(schema, Asks(field, "eq", v), workspaceId, doc, env) <==>
                  Mine(doc, workspaceId, env) && exists c :: Denotes(t, v, c, env) && Stores(doc, field, c))
            && (Found(schema, Asks(field, "neq", v), workspaceId, doc, env) <==>
                  && Mine(doc, workspaceId, env) && Denoting(t, v, env)
                  && forall c :: Denotes(t, v, c, env) ==> !Stores(doc, field, c))
  {
    AskedIsMet(schema, field, "eq", Eq, v, workspaceId, doc, env);
    AskedIsMet(schema, field, "neq", Neq, v, workspaceId, doc, env);
    EqualAnswers(schema[field], v, FieldOf(doc, field), env);
    UnequalAnswers(schema[field], v, FieldOf(doc, field), env);
    StoresCandidate(doc, field);
    hide *;
  }

  /** `gt` and `lt`, on numbers and dates. */
  lemma ComparisonFinds(schema: Schema, field: string, v: Json, workspaceId: string, doc: Document, env: Env)
    requires Addressed(schema, field, workspaceId, env)
    ensures var t := schema[field];
            && (Found(schema, Asks(field, "gt", v), workspaceId, doc, env) <==>
                  && Mine(doc, workspaceId, env)
                  && exists c, bound :: Denotes(t, v, bound, env) && Stores(doc, field, c) && Above(c, bound))
            && (Found(schema, Asks(field, "lt", v), workspaceId, doc, env) <==>
                  && Mine(doc, workspaceId, env)
                  && exists c, bound :: Denotes(t, v, bound, env) && Stores(doc, field, c) && Above(bound, c))
  {
    AskedIsMet(schema, field, "gt", Gt, v, workspaceId, doc, env);
    AskedIsMet(schema, field, "lt", Lt, v, workspaceId, doc, env);
    GreaterAnswers(schema[field], v, FieldOf(doc, field), env);
    LessAnswers(schema[field], v, FieldOf(doc, field), env);
    StoresCandidate(doc, field);
    hide *;
  }

  /** `between`, both ends included, on numbers and dates. */
  lemma BetweenFinds(schema: Schema, field: string, v: Json, workspaceId: string, doc: Document, env: Env)
    requires Addressed(schema, field, workspaceId, env)
    requires field in doc.fields ==> !doc.fields[field].Many?
    ensures var t := schema[field];
            Found(schema, Asks(field, "between", v), workspaceId, doc, env) <==>
              && Mine(doc, workspaceId, env)
              && t in {NumberField, DateField} && exists c :: Stores(doc, field, c) && Within(t, v, c, env)
  {
    AskedIsMet(schema, field, "between", Between, v, workspaceId, doc, env);
    StoresCandidate(doc, field);
    BetweenAnswers(schema[field], v, FieldOf(doc, field), env);
    hide *;
  }

  /** `in` and `notIn`, on every type but booleans. */
  lemma ListFinds(schema: Schema, field: string, v: Json, workspaceId: string, doc: Document, env: Env)
    requires Addressed(schema, field, workspaceId, env)
    ensures var t := schema[field];
            && (Found(schema, Asks(field, "in", v), workspaceId, doc, env) <==>
                  && Mine(doc, workspaceId, env) && t != BooleanField && Lists(t, v, env)
                  && exists c :: Listed(t, v, c, env) && Stores(doc, field, c))
            && (Found(schema, Asks(field, "notIn", v), workspaceId, doc, env) <==>
                  && Mine(doc, workspaceId, env) && t != BooleanField && Lists(t, v, env)
                  && forall c :: Listed(t, v, c, env) ==> !Stores(doc, field, c))
  {
    assert OperatorNamed("in") == Some(In) && OperatorNamed("notIn") == Some(NotIn);
    hide OperatorNamed, Denotes, Denoting, Met, CompileOperand;
    AskedIsMet(schema, field, "in", In, v, workspaceId, doc, env);
    AskedIsMet(schema, field, "notIn", NotIn, v, workspaceId, doc, env);
    StoresCandidate(doc, field);
    InAnswers(schema[field], v, FieldOf(doc, field), env);
    NotInAnswers(schema[field], v, FieldOf(doc, field), env);
    hide *;
  }

  /** `contains` and `startsWith`, ignoring case, on texts and, the first, on lists of texts. */
  lemma PatternFinds(schema: Schema, field: string, word: string, workspaceId: string, doc: Document, env: Env)
    requires Addressed(schema, field, workspaceId, env)
    ensures var t, sought := schema[field], FoldCase(word, env);
            && (Found(schema, Asks(field, "contains", Text(word)), workspaceId, doc, env) <==>
                  && Mine(doc, workspaceId, env) && t in {StringField, StringArrayField} && |word| <= 1000
                  && exists s :: Stores(doc, field, Str(s)) && Appears(sought, FoldCase(s, env)))
            && (Found(schema, Asks(field, "startsWith", Text(word)), workspaceId, doc, env) <==>
                  && Mine(doc, workspaceId, env) && t == StringField && |word| <= 1000
                  && exists s :: Stores(doc, field, Str(s)) && sought <= FoldCase(s, env))
  {
    AskedIsMet(schema, field, "contains", Contains, Text(word), workspaceId, doc, env);
    AskedIsMet(schema, field, "startsWith", StartsWith, Text(word), workspaceId, doc, env);
    ContainsAnswers(schema[field], word, FieldOf(doc, field), env);
    StartsWithAnswers(schema[field], word, FieldOf(doc, field), env);
    StoresCandidate(doc, field);
    hide *;
  }

  /** `exists`, on every type. */
  lemma ExistenceFinds(schema: Schema, field: string, v: Json, workspaceId: string, doc: Document, env: Env)
    requires Addressed(schema, field, workspaceId, env)
    ensures Found(schema, Asks(field, "exists", v), workspaceId, doc, env) <==>
              && Mine(doc, workspaceId, env) && v.Bool?
              && (v.flag <==> field in doc.fields && !doc.fields[field].Missing?)
  {
    AskedIsMet(schema, field, "exists", Exists, v, workspaceId, doc, env);
    assert Answers(Exists, schema[field], v, FieldOf(doc, field), env) <==>
           v.Bool? && (v.flag <==> field in doc.fields && !doc.fields[field].Missing?) by { hide Found, Addressed, Mine; }
    hide *;
  }

  /** `relativeDate`, on dates: both ends of the stretch included. */
  lemma RelativeDateFinds(schema: Schema, field: string, direction: string, amount: real, unit: string,
                          workspaceId: string, doc: Document, env: Env)
    requires Addressed(schema, field, workspaceId, env)
    requires field in doc.fields ==> !doc.fields[field].Many?
    ensures Found(schema, Asks(field, "relativeDate", Relative(direction, amount, unit)), workspaceId, doc, env) <==>
              && Mine(doc, workspaceId, env) && schema[field] == DateField && RelativeWords(direction, amount, unit)
              && exists at :: Stores(doc, field, Date(at)) && InStretch(direction, amount, unit, at, env.now)
  {
    var v := Relative(direction, amount, unit);
    RelativeMembers(direction, amount, unit);
    AskedIsMet(schema, field, "relativeDate", RelativeDate, v, workspaceId, doc, env);
    RelativeAnswers(schema[field], direction, amount, unit, FieldOf(doc, field), env);
    StoresCandidate(doc, field);
    hide *;
  }

  const Words := [
    "eq", "neq", "contains", "startsWith", "gt", "lt", "between", "in", "notIn", "exists", "relativeDate"]

  /** There are no other words. */
  lemma OtherWordsAreRefused(schema: Schema, field: string, word: string, v: Json, workspaceId: string, env: Env)
    requires Addressed(schema, field, workspaceId, env)
    requires word !in Words
    ensures Compile(schema, Some(Asks(field, word, v)), workspaceId, env).Fail?
  {
    NoOperator(word);
    CompileAsked(schema, field, word, v, workspaceId, env);
    hide *;
  }

  lemma NoOperator(word: string)
    requires word !in Words
    ensures OperatorNamed(word) == None
  {}

  /** So on a number field `gt` finds the caller's documents with a greater number, and `lt` those with a lesser one. */
  lemma NumbersCompare(schema: Schema, field: string, n: real, workspaceId: string, doc: Document, env: Env)
    requires Addressed(schema, field, workspaceId, env) && schema[field] == NumberField
    ensures Found(schema, Asks(field, "gt", Number(n)), workspaceId, doc, env) <==>
            Mine(doc, workspaceId, env) && exists x :: Stores(doc, field, Num(x)) && x > n
    ensures Found(schema, Asks(field, "lt", Number(n)), workspaceId, doc, env) <==>
            Mine(doc, workspaceId, env) && exists x :: Stores(doc, field, Num(x)) && x < n
  {
    ComparisonFinds(schema, field, Number(n), workspaceId, doc, env);
    hide Found, Addressed, Mine, Stores, Asks;
    NumberBound(n, env);
    hide Denotes;
    forall c ensures Above(c, Num(n)) <==> c.Num? && c.number > n ensures Above(Num(n), c) <==> c.Num? && c.number < n {}
    hide Above;
  }

  lemma NumberBound(n: real, env: Env)
    ensures forall bound :: Denotes(NumberField, Number(n), bound, env) <==> bound == Num(n)
  {}

  // ---- what a node may be -----------------------------------------------------------------------------------------

  /** A name that begins with a dollar sign, holds a zero character or names a prototype. */
  predicate Unsafe(name: string) {
    || (name != "" && name[0] == '$') || '\0' in name
    || name == "__proto__" || name == "prototype" || name == "constructor"
  }

  /** A key of such a name is refused as an injection, in a node and in the operand of a relative date. */
  lemma UnsafeKeysAreRefused(schema: Schema, members: seq<Member>, m: Member, depth: nat, count: nat, env: Env)
    requires m in members && Unsafe(m.name)
    ensures depth <= 5 ==> CompileNode(schema, Object(members), depth, count, env) == Fail(QueryInjection)
    ensures !RelativeValid(Object(members))
  {
    assert !SafeKeys(members);
  }

  /** A node that compiles is a condition of at most the three known members, or one of the two groups, with children. */
  lemma CompiledNodeShape(schema: Schema, node: Json, depth: nat, count: nat, env: Env)
    requires CompileNode(schema, node, depth, count, env).Done?
    ensures node.Object? && depth <= 5
    ensures if exists m <- node.members :: m.name in ["field", "operator"] then
              count < 50 && forall m <- node.members :: m.name in ["field", "operator", "value"]
            else
              && |node.members| == 1 && node.members[0].name in ["and", "or"]
              && node.members[0].value.Array? && node.members[0].value.items != []
  {
    hide CompileAll, OperatorNamed, CompileOperand, Supports, FieldName, Get;
  }
}
