/** The SQL back end (internal/filter/sql.go): a WHERE fragment is a sequence of lexemes, whose
    leaves are the column comparisons, together with the positional arguments. */
module FilterSql {
  import opened Wrappers
  import opened FilterJson
  import opened FilterTokens
  import opened FilterTokenList
  import opened FilterWalk

  /** The text of a leaf; each shape contains exactly one placeholder. */
  datatype Shape = Equals | LowerEquals | Like | LowerLike
  datatype Template = Template(column: string, shape: Shape)

  datatype Lex = LParen | RParen | KwAnd | KwOr | KwNot | LeafLex(leaf: Template)

  datatype Condition = Condition(sql: seq<Lex>, args: seq<string>)

  const EMPTY := Condition([], [])

  // ----- The combiner -----

  function JoinSql(qs: seq<Condition>, sep: Lex): seq<Lex> {
    if qs == [] then []
    else if |qs| == 1 then qs[0].sql
    else qs[0].sql + ([sep] + JoinSql(qs[1..], sep))
  }

  function JoinArgs(qs: seq<Condition>): seq<string> {
    if qs == [] then [] else qs[0].args + JoinArgs(qs[1..])
  }

  function JoinGroup(qs: seq<Condition>, sep: Lex): Condition {
    Condition([LParen] + (JoinSql(qs, sep) + [RParen]), JoinArgs(qs))
  }

  /** strings.Join on lexemes. */
  function Join(parts: seq<seq<Lex>>, sep: Lex): seq<Lex> {
    if parts == [] then []
    else if |parts| == 1 then parts[0]
    else parts[0] + ([sep] + Join(parts[1..], sep))
  }

  lemma {:induction false} JoinParts(parts: seq<seq<Lex>>, qs: seq<Condition>, sep: Lex)
    requires |parts| == |qs| && forall i | 0 <= i < |qs| :: parts[i] == qs[i].sql
    ensures Join(parts, sep) == JoinSql(qs, sep)
    decreases |qs|
  {
    if qs != [] {
      JoinParts(parts[1..], qs[1..], sep);
    }
  }

  /** joinGroup: one pass that collects the parts and concatenates their arguments. */
  method JoinGroupLoop(qs: seq<Condition>, sep: Lex) returns (c: Condition)
    ensures c == JoinGroup(qs, sep)
  {
    var parts: seq<seq<Lex>> := [];
    var args: seq<string> := [];
    assert qs[0..] == qs;
    for i := 0 to |qs|
      invariant |parts| == i && forall k | 0 <= k < i :: parts[k] == qs[k].sql
      invariant JoinArgs(qs) == args + JoinArgs(qs[i..])
    {
      assert qs[i..][0] == qs[i] && qs[i..][1..] == qs[i + 1..];
      parts := parts + [qs[i].sql];
      args := args + qs[i].args;
    }
    JoinParts(parts, qs, sep);
    return Condition([LParen] + (Join(parts, sep) + [RParen]), args);
  }

  function NotPrefix(c: Condition): Condition {
    Condition([KwNot] + c.sql, c.args)
  }

  function SqlNot(c: Condition): Condition {
    NotPrefix(Condition([LParen] + (c.sql + [RParen]), c.args))
  }

  const SQL_COMBINER: Combiner<Condition> := Combiner(
    qs => JoinGroup(qs, KwAnd),
    qs => JoinGroup(qs, KwOr),
    qs => NotPrefix(JoinGroup(qs, KwOr)),
    c => SqlNot(c))

  // ----- The leaves -----

  function LikeEscape(s: string): string {
    if s == "" then ""
    else (if s[0] in {'\\', '%', '_'} then ['\\', s[0]] else [s[0]]) + LikeEscape(s[1..])
  }

  const COMPARISONS := {OP_EQ, OP_IEQ, OP_CONTAINS, OP_ICONTAINS, OP_STARTSWITH, OP_ENDSWITH}

  /** The text of a comparison, by its lower-case operator. */
  function LeafShape(op: string): Shape
    requires op in COMPARISONS
  {
    if op == OP_EQ then Equals
    else if op == OP_IEQ then LowerEquals
    else if op == OP_CONTAINS then Like
    else LowerLike
  }

  /** The bound argument of a comparison. */
  function LeafArg(op: string, s: string): string
    requires op in COMPARISONS
  {
    if op == OP_EQ || op == OP_IEQ then s
    else if op == OP_STARTSWITH then LikeEscape(s) + "%"
    else if op == OP_ENDSWITH then "%" + LikeEscape(s)
    else "%" + LikeEscape(s) + "%"
  }

  function OperatorToCondition(col: string, op: string, value: Json): Result<Condition, Error> {
    var s :- ScalarString(value);
    if Lower(op) !in COMPARISONS then Err(UnsupportedOp)
    else Ok(Condition([LeafLex(Template(col, LeafShape(Lower(op))))], [LeafArg(Lower(op), s)]))
  }

  function SqlMap(fm: FieldSpecMap, field: string, op: string, value: Json): Result<Condition, Error> {
    var col :- Admit(fm, field, op);
    OperatorToCondition(col, op, value)
  }

  function SqlBackend(fm: FieldSpecMap): Backend<Condition> {
    Backend((field, op, value) => SqlMap(fm, field, op, value), SQL_COMBINER)
  }

  // ----- BuildWhere -----

  function WhereOf(raw: RawFilter, fm: FieldSpecMap): Result<Condition, Error> {
    match raw
    case NoFilter => Ok(EMPTY)
    case Malformed => Err(BadJson)
    case Parsed(root) =>
      var toks :- Flatten(root);
      if toks == [] then Ok(EMPTY)
      else
        var conds :- WalkAll(toks, SqlBackend(fm));
        if conds == [] then Ok(EMPTY) else Ok(JoinGroup(conds, KwAnd))
  }

  method BuildWhere(raw: RawFilter, fm: FieldSpecMap) returns (r: Result<Condition, Error>)
    ensures r == WhereOf(raw, fm)
  {
    if raw.NoFilter? {
      return Ok(EMPTY);
    }
    if raw.Malformed? {
      return Err(BadJson);
    }
    var tl := Tokenize(raw.root);
    if tl.Err? {
      return Err(tl.error);
    }
    if tl.value.head == null {
      return Ok(EMPTY);
    }
    var conds := Walk(tl.value, SqlBackend(fm));
    if conds.Err? {
      return Err(conds.error);
    }
    if |conds.value| == 0 {
      return Ok(EMPTY);
    }
    var combined := JoinGroupLoop(conds.value, KwAnd);
    return Ok(combined);
  }
}
