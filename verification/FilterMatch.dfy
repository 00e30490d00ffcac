/** The in-memory back end (internal/filter/match.go). The comparison of two scalar texts is a
    parameter: it is what the database's leaf predicate is compared with. */
module FilterMatch {
  import opened Wrappers
  import opened FilterJson
  import opened FilterTokens
  import opened FilterTokenList
  import opened FilterWalk
  import opened FilterSql

  /** A row as its JSON object form. */
  type Row = map<string, Json>

  /** Lower-case operator, text in the row, text asked for. */
  type Compare = (string, string, string) -> bool

  predicate AndAll(qs: seq<bool>) {
    forall i | 0 <= i < |qs| :: qs[i]
  }

  predicate OrAny(qs: seq<bool>) {
    exists i | 0 <= i < |qs| :: qs[i]
  }

  const BOOL_COMBINER: Combiner<bool> := Combiner(
    qs => AndAll(qs), qs => OrAny(qs), qs => !OrAny(qs), q => !q)

  /** evalOp: an operator that is not a comparison matches nothing. */
  predicate EvalOp(cmp: Compare, op: string, got: string, want: string) {
    Lower(op) in COMPARISONS && cmp(Lower(op), got, want)
  }

  function MatchMap(row: Row, fm: FieldSpecMap, cmp: Compare, field: string, op: string, value: Json)
    : Result<bool, Error>
  {
    var col :- Admit(fm, field, op);
    var key := if col == "" then field else col;
    if key !in row || ScalarString(row[key]).Err? then Ok(false)
    else
      var want :- ScalarString(value);
      Ok(EvalOp(cmp, op, ScalarString(row[key]).value, want))
  }

  function RowBackend(row: Row, fm: FieldSpecMap, cmp: Compare): Backend<bool> {
    Backend((field, op, value) => MatchMap(row, fm, cmp, field, op, value), BOOL_COMBINER)
  }

  /** The verdict on one row under a filter that has conditions. */
  function Verdict(toks: seq<Tok>, row: Row, fm: FieldSpecMap, cmp: Compare): Result<bool, Error> {
    var conds :- WalkAll(toks, RowBackend(row, fm, cmp));
    Ok(AndAll(conds))
  }

  /** The rows the filter keeps, in their order; the first row that cannot be judged fails the call. */
  function Select<T>(rows: seq<T>, render: T -> Row, toks: seq<Tok>, fm: FieldSpecMap, cmp: Compare)
    : Result<seq<T>, Error>
  {
    if rows == [] then Ok([])
    else
      var v :- Verdict(toks, render(rows[0]), fm, cmp);
      Prepend(if v then [rows[0]] else [], Select(rows[1..], render, toks, fm, cmp))
  }

  function MatchOf<T>(raw: RawFilter, rows: seq<T>, render: T -> Row, fm: FieldSpecMap, cmp: Compare)
    : Result<seq<T>, Error>
  {
    match raw
    case NoFilter => Ok(rows)
    case Malformed => Err(BadJson)
    case Parsed(root) =>
      var toks :- Flatten(root);
      if toks == [] then Ok(rows) else Select(rows, render, toks, fm, cmp)
  }

  method Match<T>(raw: RawFilter, rows: seq<T>, render: T -> Row, fm: FieldSpecMap, cmp: Compare)
    returns (r: Result<seq<T>, Error>)
    ensures r == MatchOf(raw, rows, render, fm, cmp)
  {
    if raw.NoFilter? {
      return Ok(rows);
    }
    if raw.Malformed? {
      return Err(BadJson);
    }
    var tl := Tokenize(raw.root);
    if tl.Err? {
      return Err(tl.error);
    }
    if tl.value.head == null {
      return Ok(rows);
    }
    var out: seq<T> := [];
    ghost var toks := tl.value.toks;
    assert rows[0..] == rows;
    for i := 0 to |rows|
      invariant tl.value.Valid() && tl.value.toks == toks
      invariant Select(rows, render, toks, fm, cmp) == Prepend(out, Select(rows[i..], render, toks, fm, cmp))
    {
      assert rows[i..][0] == rows[i] && rows[i..][1..] == rows[i + 1..];
      var conds := Walk(tl.value, RowBackend(render(rows[i]), fm, cmp));
      if conds.Err? {
        return Err(conds.error);
      }
      ghost var kept := if AndAll(conds.value) then [rows[i]] else [];
      PrependPrepend(out, kept, Select(rows[i + 1..], render, toks, fm, cmp));
      out := if AndAll(conds.value) then out + [rows[i]] else out;
      assert out + [] == out;
    }
    assert out + [] == out;
    return Ok(out);
  }
}
