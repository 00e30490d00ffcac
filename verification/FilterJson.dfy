/** The list-filter language as JSON values (internal/filter/filter.go). A JSON object is the sequence of
    its members in the order one run of the program happens to iterate over the decoded map. */
module FilterJson {
  import opened Wrappers

  datatype Member = Member(key: string, value: Json)

  /** A number carries the text scalarString renders it to. */
  datatype Json =
    | Null
    | Bool(b: bool)
    | Number(text: string)
    | Text(s: string)
    | Array(items: seq<Json>)
    | Object(members: seq<Member>)

  datatype Error =
    // Tokenize: the JSON does not have the shape of a filter.
    | BadJson | NotAnObject | NotAnArray
    // Walk: the token list is not one Tokenize builds.
    | ExpectedField | ExpectedValue | ExpectedOperator | NeedsArray | NeedsObject | NeedsScalar
    // Walk: an operator object without operators.
    | NoOperators
    // The leaf mappers.
    | UnknownField | OpNotAllowed | BadScalar | UnsupportedOp
    // The virtual subject field of access rules.
    | BadSubject

  /** Errors that blame the token list rather than the filter. */
  predicate Structural(e: Error) {
    e in {ExpectedField, ExpectedValue, ExpectedOperator, NeedsArray, NeedsObject, NeedsScalar}
  }

  const OP_EQ := "$eq"
  const OP_IEQ := "$ieq"
  const OP_CONTAINS := "$contains"
  const OP_ICONTAINS := "$icontains"
  const OP_STARTSWITH := "$startswith"
  const OP_ENDSWITH := "$endswith"
  const OP_AND := "$and"
  const OP_OR := "$or"
  const OP_NOR := "$nor"
  const OP_NOT := "$not"

  datatype OpKind = Leaf | And | Or | Nor | Not

  /** The raw filter parameter: absent or empty, not JSON at all, or a JSON value. */
  datatype RawFilter = NoFilter | Malformed | Parsed(root: Json)

  /** scalarString: the text a scalar is compared as. */
  function ScalarString(j: Json): Result<string, Error> {
    match j
    case Text(s) => Ok(s)
    case Number(t) => Ok(t)
    case Bool(b) => Ok(if b then "true" else "false")
    case _ => Err(BadScalar)
  }

  /** A filterable field: its column and the operators permitted on it (none listed: all). */
  datatype FieldSpec = FieldSpec(column: string, allowedOps: set<string>)

  type FieldSpecMap = map<string, FieldSpec>

  /** The checks both leaf mappers make before looking at the value. */
  function Admit(fm: FieldSpecMap, field: string, op: string): Result<string, Error> {
    if Lower(field) !in fm then Err(UnknownField)
    else
      var spec := fm[Lower(field)];
      if |spec.allowedOps| > 0 && Lower(op) !in spec.allowedOps then Err(OpNotAllowed)
      else Ok(spec.column)
  }

  /** How an operator key is dispatched; keys are matched without regard to case. */
  function Kind(op: string): OpKind {
    var l := Lower(op);
    if l == OP_OR then Or
    else if l == OP_AND then And
    else if l == OP_NOR then Nor
    else if l == OP_NOT then Not
    else Leaf
  }

  // Termination measures for recursion over JSON values.

  function Size(j: Json): nat {
    match j
    case Object(ms) => 1 + MembersSize(ms)
    case Array(items) => 1 + ItemsSize(items)
    case _ => 1
  }

  function MembersSize(ms: seq<Member>): nat {
    if ms == [] then 0 else assert ms[0].value < ms[0]; 1 + Size(ms[0].value) + MembersSize(ms[1..])
  }

  function ItemsSize(items: seq<Json>): nat {
    if items == [] then 0 else 1 + Size(items[0]) + ItemsSize(items[1..])
  }

  /** Decoding into a map: JSON null leaves the map nil, which is an object without members. */
  function AsObject(j: Json): (r: Result<seq<Member>, Error>)
    ensures r.Ok? ==> MembersSize(r.value) < Size(j)
  {
    match j
    case Null => Ok([])
    case Object(ms) => Ok(ms)
    case _ => Err(NotAnObject)
  }

  /** Decoding into a slice: JSON null is the empty slice. */
  function AsArray(j: Json): (r: Result<seq<Json>, Error>)
    ensures r.Ok? ==> ItemsSize(r.value) < Size(j)
  {
    match j
    case Null => Ok([])
    case Array(items) => Ok(items)
    case _ => Err(NotAnArray)
  }

  /** `a` and `b` are the same JSON value up to the order in which objects are iterated. */
  ghost predicate Same(a: Json, b: Json)
    decreases a
  {
    match (a, b)
    case (Object(xs), Object(ys)) => SameMembers(xs, ys)
    case (Array(xs), Array(ys)) =>
      |xs| == |ys| && forall i | 0 <= i < |xs| :: Same(xs[i], ys[i])
    case _ => a == b
  }

  /** Each member of one is a member of the other. */
  ghost predicate SameMembers(xs: seq<Member>, ys: seq<Member>)
    decreases xs, 1
  {
    && (forall x {:trigger Partner(x, ys)} | x in xs :: Partner(x, ys))
    && (forall y {:trigger PartnerOf(xs, y)} | y in ys :: PartnerOf(xs, y))
  }

  ghost predicate Partner(x: Member, ys: seq<Member>)
    decreases x, 1
  {
    exists y :: y in ys && SameMember(x, y)
  }

  ghost predicate PartnerOf(xs: seq<Member>, y: Member)
    decreases xs, 0
  {
    exists x :: x in xs && SameMember(x, y)
  }

  ghost predicate SameMember(x: Member, y: Member)
    decreases x, 0
  {
    x.key == y.key && Same(x.value, y.value)
  }
}
