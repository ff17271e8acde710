/** The filter language of search: its trees, its fields and operators, and what a filter says of a document. */
module FilterModel {
  import opened Options

  /** A value of the request body. The members of an object have distinct names. */
  datatype Json =
    | Null
    | Bool(flag: bool)
    | Number(number: real)
    | NonFinite
    | Text(text: string)
    | Array(items: seq<Json>)
    | Object(members: seq<Member>)

  datatype Member = Member(name: string, value: Json)

  datatype FieldType = StringField | NumberField | BooleanField | DateField | ObjectIdField | StringArrayField

  datatype Operator = Eq | Neq | Contains | StartsWith | Gt | Lt | Between | In | NotIn | Exists | RelativeDate

  type Schema = map<string, FieldType>

  /** What the compiler asks of its surroundings: the clock, the date and id parsers, and case folding. */
  datatype Env = Env(now: int, parseDate: string -> Option<int>, objectId: string -> Option<string>, fold: char -> char)

  const DAY := 86_400_000
  const MAX_DEPTH := 5
  const MAX_CONDITIONS := 50

  // ---- tables ---------------------------------------------------------------------------------------------

  function OperatorNamed(name: string): Option<Operator> {
    match name
    case "eq" => Some(Eq)
    case "neq" => Some(Neq)
    case "contains" => Some(Contains)
    case "startsWith" => Some(StartsWith)
    case "gt" => Some(Gt)
    case "lt" => Some(Lt)
    case "between" => Some(Between)
    case "in" => Some(In)
    case "notIn" => Some(NotIn)
    case "exists" => Some(Exists)
    case "relativeDate" => Some(RelativeDate)
    case _ => None
  }

  predicate Supports(op: Operator, t: FieldType) {
    match op
    case Eq | Neq | Exists => true
    case Contains => t.StringField? || t.StringArrayField?
    case StartsWith => t.StringField?
    case Gt | Lt | Between => t.NumberField? || t.DateField?
    case In | NotIn => !t.BooleanField?
    case RelativeDate => t.DateField?
  }

  datatype Entity =
    Contacts | Companies | Leads | Deals | Tasks | Conversations | Campaigns | Workflows | Appointments | Files

  const COMMON: Schema := map[
    "createdAt" := DateField, "updatedAt" := DateField, "createdBy" := ObjectIdField, "updatedBy" := ObjectIdField]

  function Fields(entity: Entity): Schema {
    match entity
    case Contacts => COMMON + map[
      "displayName" := StringField, "lifecycleStatus" := StringField, "source" := StringField,
      "ownerId" := ObjectIdField, "tags" := StringArrayField, "dataQualityScore" := NumberField,
      "deletedAt" := DateField]
    case Companies => COMMON + map[
      "name" := StringField, "domain" := StringField, "industry" := StringField, "size" := StringField,
      "ownerId" := ObjectIdField, "tags" := StringArrayField, "deletedAt" := DateField]
    case Leads => COMMON + map[
      "name" := StringField, "normalizedEmail" := StringField, "normalizedPhone" := StringField,
      "source" := StringField, "score" := NumberField, "qualification" := StringField, "status" := StringField,
      "ownerId" := ObjectIdField, "followUpAt" := DateField, "tags" := StringArrayField, "deletedAt" := DateField]
    case Deals => COMMON + map[
      "title" := StringField, "value" := NumberField, "currency" := StringField, "pipelineId" := ObjectIdField,
      "stageId" := ObjectIdField, "probability" := NumberField, "status" := StringField,
      "ownerId" := ObjectIdField, "expectedCloseDate" := DateField, "deletedAt" := DateField]
    case Tasks => COMMON + map[
      "title" := StringField, "status" := StringField, "priority" := StringField, "dueAt" := DateField,
      "ownerId" := ObjectIdField, "contactId" := ObjectIdField, "companyId" := ObjectIdField,
      "dealId" := ObjectIdField, "deletedAt" := DateField]
    case Conversations => COMMON + map[
      "status" := StringField, "channel" := StringField, "unreadCount" := NumberField,
      "lastMessageAt" := DateField, "assigneeIds" := StringArrayField, "labelIds" := StringArrayField,
      "snoozedUntil" := DateField, "deletedAt" := DateField]
    case Campaigns => COMMON + map[
      "name" := StringField, "channel" := StringField, "status" := StringField,
      "approvalStatus" := StringField, "scheduledAt" := DateField]
    case Workflows => COMMON + map[
      "name" := StringField, "status" := StringField, "latestVersion" := NumberField]
    case Appointments => COMMON + map[
      "customerId" := ObjectIdField, "staffId" := ObjectIdField, "serviceId" := ObjectIdField,
      "startAt" := DateField, "endAt" := DateField, "status" := StringField, "timezone" := StringField,
      "deletedAt" := DateField]
    case Files => COMMON + map[
      "originalName" := StringField, "mimeType" := StringField, "extension" := StringField, "size" := NumberField,
      "status" := StringField, "scanStatus" := StringField, "processingStatus" := StringField,
      "folder" := StringField, "tags" := StringArrayField, "deletedAt" := DateField]
  }

  // ---- reading a tree ----------------------------------------------------------------------------------------

  predicate Has(members: seq<Member>, key: string) {
    exists m <- members :: m.name == key
  }

  /** A missing member reads as null, which no check below tells apart from it. */
  function Get(members: seq<Member>, key: string): Json {
    if members == [] then Null
    else if members[0].name == key then members[0].value
    else Get(members[1..], key)
  }

  predicate SafeKeys(members: seq<Member>) {
    forall m <- members ::
      && !("$" <= m.name) && '\0' !in m.name
      && m.name != "__proto__" && m.name != "prototype" && m.name != "constructor"
  }

  predicate IsCondition(members: seq<Member>) {
    Has(members, "field") || Has(members, "operator")
  }

  predicate IsGroup(members: seq<Member>) {
    && |members| == 1 && (members[0].name == "and" || members[0].name == "or")
    && members[0].value.Array? && members[0].value.items != []
  }

  predicate IsLetter(c: char) { 'a' <= c <= 'z' || 'A' <= c <= 'Z' }

  predicate FieldName(s: string) {
    s != "" && IsLetter(s[0]) && forall c <- s :: IsLetter(c) || '0' <= c <= '9' || c == '.'
  }

  /** Whether converting a value to text gives this word: an array of one such value also does. */
  predicate ReadsAs(v: Json, word: string) {
    match v
    case Text(t) => t == word
    case Array(items) => |items| == 1 && ReadsAs(items[0], word)
    case _ => false
  }

  // ---- values of documents -------------------------------------------------------------------------------------

  datatype Scalar = Num(number: real) | Flag(flag: bool) | Date(at: int) | Id(id: string) | Str(text: string)

  /** `Nil` is a stored null. */
  datatype FieldValue = Missing | Nil | One(value: Scalar) | Many(values: seq<Scalar>)

  datatype Document = Document(workspaceId: string, fields: map<string, FieldValue>)

  function FieldOf(doc: Document, name: string): FieldValue {
    if name in doc.fields then doc.fields[name] else Missing
  }

  /** The values a condition on a field is put to: an array offers each of its elements. */
  function Candidates(v: FieldValue): seq<Scalar> {
    match v
    case Missing => []
    case Nil => []
    case One(value) => [value]
    case Many(values) => values
  }

  /** Only array fields hold arrays. */
  predicate Fits(schema: Schema, doc: Document) {
    forall name <- schema :: schema[name].StringArrayField? || !FieldOf(doc, name).Many?
  }

  /** Range comparisons hold between values of one type only. */
  predicate Less(a: Scalar, b: Scalar) {
    match (a, b)
    case (Num(x), Num(y)) => x < y
    case (Date(x), Date(y)) => x < y
    case (Flag(x), Flag(y)) => !x && y
    case _ => false
  }

  predicate AtMost(a: Scalar, b: Scalar) {
    a == b || Less(a, b)
  }

  function FoldCase(s: string, env: Env): string {
    seq(|s|, i requires 0 <= i < |s| => env.fold(s[i]))
  }

  predicate Occurs(word: string, s: string) {
    word <= s || (s != "" && Occurs(word, s[1..]))
  }

  /** The value an operand stands for in a field of this type. */
  function Operand(t: FieldType, v: Json, env: Env): Option<Scalar> {
    match t
    case NumberField => if v.Number? then Some(Num(v.number)) else None
    case BooleanField => if v.Bool? then Some(Flag(v.flag)) else None
    case DateField =>
      if v.Text? && env.parseDate(v.text).Some? then Some(Date(env.parseDate(v.text).value)) else None
    case ObjectIdField =>
      if v.Text? && env.objectId(v.text).Some? then Some(Id(env.objectId(v.text).value)) else None
    case StringField | StringArrayField => if v.Text? && |v.text| <= 1000 then Some(Str(v.text)) else None
  }

  // ---- relative dates ------------------------------------------------------------------------------------------

  predicate RelativeValid(v: Json) {
    && v.Object? && SafeKeys(v.members)
    && (ReadsAs(Get(v.members, "direction"), "past") || ReadsAs(Get(v.members, "direction"), "future"))
    && var unit := Get(v.members, "unit");
    && (ReadsAs(unit, "day") || ReadsAs(unit, "week") || ReadsAs(unit, "month"))
    && var amount := Get(v.members, "amount");
    && amount.Number? && amount.number.Floor as real == amount.number && 1.0 <= amount.number <= 365.0
  }

  /** How far a relative date reaches, by the words it names. */
  function Reach(v: Json): int
    requires RelativeValid(v)
  {
    var unit := Get(v.members, "unit");
    Get(v.members, "amount").number.Floor
      * (if ReadsAs(unit, "day") then 1 else if ReadsAs(unit, "week") then 7 else 30) * DAY
  }

  /** Whether an instant lies in the past or future stretch a relative date names. */
  predicate InReach(v: Json, at: int, env: Env)
    requires RelativeValid(v)
  {
    if ReadsAs(Get(v.members, "direction"), "past") then env.now - Reach(v) <= at <= env.now
    else env.now <= at <= env.now + Reach(v)
  }

  // ---- valid conditions and what they say -------------------------------------------------------------------------

  predicate OperandValid(op: Operator, t: FieldType, v: Json, env: Env) {
    match op
    case Exists => v.Bool?
    case RelativeDate => RelativeValid(v)
    case Between => v.Array? && |v.items| == 2 && forall e <- v.items :: Operand(t, e, env).Some?
    case In | NotIn => v.Array? && 1 <= |v.items| <= 100 && forall e <- v.items :: Operand(t, e, env).Some?
    case _ => Operand(t, v, env).Some?
  }

  predicate ConditionValid(schema: Schema, members: seq<Member>, env: Env) {
    && (forall m <- members :: m.name in ["field", "operator", "value"])
    && var field := Get(members, "field");
    && field.Text? && FieldName(field.text) && field.text in schema
    && var operator := Get(members, "operator");
    && operator.Text? && OperatorNamed(operator.text).Some?
    && var op := OperatorNamed(operator.text).value;
    && Supports(op, schema[field.text])
    && OperandValid(op, schema[field.text], Get(members, "value"), env)
  }

  /** What an operator says of a field, in terms of the values the field holds. */
  predicate Says(op: Operator, t: FieldType, v: Json, field: FieldValue, env: Env)
    requires OperandValid(op, t, v, env) && Supports(op, t)
  {
    var values := Candidates(field);
    match op
    case Eq => exists c <- values :: Operand(t, v, env) == Some(c)
    case Neq => !exists c <- values :: Operand(t, v, env) == Some(c)
    case Contains => exists c <- values :: c.Str? && Occurs(FoldCase(v.text, env), FoldCase(c.text, env))
    case StartsWith => exists c <- values :: c.Str? && FoldCase(v.text, env) <= FoldCase(c.text, env)
    case Gt => exists c <- values :: Less(Operand(t, v, env).value, c)
    case Lt => exists c <- values :: Less(c, Operand(t, v, env).value)
    case Between =>
      exists c <- values ::
        AtMost(Operand(t, v.items[0], env).value, c) && AtMost(c, Operand(t, v.items[1], env).value)
    case In => exists c <- values, e <- v.items :: Operand(t, e, env) == Some(c)
    case NotIn => !exists c <- values, e <- v.items :: Operand(t, e, env) == Some(c)
    case Exists => v.flag == !field.Missing?
    case RelativeDate => exists c <- values :: c.Date? && InReach(v, c.at, env)
  }

  predicate ConditionHolds(schema: Schema, members: seq<Member>, doc: Document, env: Env)
    requires ConditionValid(schema, members, env)
  {
    var field := Get(members, "field").text;
    Says(OperatorNamed(Get(members, "operator").text).value, schema[field], Get(members, "value"), FieldOf(doc, field), env)
  }

  // ---- trees ------------------------------------------------------------------------------------------------------

  /** Every node of the tree is a condition or a group the language admits. */
  predicate Valid(schema: Schema, node: Json, env: Env) {
    && node.Object? && SafeKeys(node.members)
    && if IsCondition(node.members) then ConditionValid(schema, node.members, env)
       else
         && IsGroup(node.members)
         && forall i :: 0 <= i < |node.members[0].value.items| ==> Valid(schema, node.members[0].value.items[i], env)
  }

  /** What a filter tree says of a document. */
  predicate Holds(schema: Schema, node: Json, doc: Document, env: Env)
    requires Valid(schema, node, env)
  {
    if IsCondition(node.members) then ConditionHolds(schema, node.members, doc, env)
    else
      var children := node.members[0].value.items;
      if node.members[0].name == "and" then forall i :: 0 <= i < |children| ==> Holds(schema, children[i], doc, env)
      else exists i :: 0 <= i < |children| && Holds(schema, children[i], doc, env)
  }

  function Leaves(node: Json): nat {
    if !node.Object? then 0
    else if IsCondition(node.members) then 1
    else if IsGroup(node.members) then LeavesOf(node.members[0].value.items)
    else 0
  }

  function LeavesOf(nodes: seq<Json>): nat {
    if nodes == [] then 0 else Leaves(nodes[0]) + LeavesOf(nodes[1..])
  }

  /** Levels of groups above the deepest node. */
  function Height(node: Json): nat {
    if !node.Object? || IsCondition(node.members) || !IsGroup(node.members) then 0
    else 1 + HeightOf(node.members[0].value.items)
  }

  function HeightOf(nodes: seq<Json>): nat {
    if nodes == [] then 0
    else
      var first, rest := Height(nodes[0]), HeightOf(nodes[1..]);
      if first > rest then first else rest
  }
}
