/** The flat token list of a filter: what Tokenize produces (internal/filter/filter.go). */
module FilterTokens {
  import opened Wrappers
  import opened FilterJson

  /** The value of one list node; nested lists are the values of their nodes. */
  datatype Tok =
    | FieldTok(key: string)
    | OperatorTok(key: string)
    | ValueTok(scalar: Json)
    | ArrayTok(lists: seq<Sub>)
    | ObjectTok(list: seq<Tok>)

  /** One element of a logical array. */
  datatype Sub = Sub(toks: seq<Tok>)

  // Termination measures for recursion over token lists.

  function TokSize(t: Tok): nat {
    match t
    case ArrayTok(lists) => 1 + ListsSize(lists)
    case ObjectTok(list) => 1 + ToksSize(list)
    case _ => 1
  }

  function ToksSize(toks: seq<Tok>): nat {
    if toks == [] then 0 else 1 + TokSize(toks[0]) + ToksSize(toks[1..])
  }

  function ListsSize(lists: seq<Sub>): nat {
    if lists == [] then 0 else 1 + SubSize(lists[0]) + ListsSize(lists[1..])
  }

  function SubSize(sub: Sub): nat {
    ToksSize(sub.toks)
  }

  lemma SuffixSize(toks: seq<Tok>, i: nat)
    requires i < |toks|
    ensures ToksSize(toks[i..]) == 1 + TokSize(toks[i]) + ToksSize(toks[i + 1..])
  {
    assert toks[i..][1..] == toks[i + 1..];
  }

  // ----- What Tokenize computes -----

  function Prepend<T>(xs: seq<T>, r: Result<seq<T>, Error>): (p: Result<seq<T>, Error>)
    ensures xs == [] ==> p == r
  {
    if r.Ok? then assert xs == [] ==> xs + r.value == r.value; Ok(xs + r.value) else r
  }

  lemma PrependPrepend<T>(xs: seq<T>, ys: seq<T>, r: Result<seq<T>, Error>)
    ensures Prepend(xs, Prepend(ys, r)) == Prepend(xs + ys, r)
  {
    if r.Ok? {
      assert xs + (ys + r.value) == xs + ys + r.value;
    }
  }

  function Flatten(root: Json): Result<seq<Tok>, Error> {
    var fields :- AsObject(root);
    FlattenFields(fields)
  }

  function FlattenFields(fields: seq<Member>): Result<seq<Tok>, Error> {
    if fields == [] then Ok([])
    else
      var ops :- AsObject(fields[0].value);
      var head :- FlattenOps(ops);
      Prepend([FieldTok(fields[0].key)] + head, FlattenFields(fields[1..]))
  }

  function FlattenOps(ops: seq<Member>): Result<seq<Tok>, Error>
    decreases MembersSize(ops)
  {
    if ops == [] then Ok([])
    else
      var v :- FlattenValue(ops[0].key, ops[0].value);
      Prepend([OperatorTok(ops[0].key), v], FlattenOps(ops[1..]))
  }

  function FlattenValue(op: string, j: Json): Result<Tok, Error>
    decreases Size(j), 1
  {
    match Kind(op)
    case Leaf => Ok(ValueTok(j))
    case Not =>
      var l :- FlattenObject(j);
      Ok(ObjectTok(l))
    case _ =>
      var items :- AsArray(j);
      var ls :- FlattenItems(items);
      Ok(ArrayTok(ls))
  }

  function FlattenItems(items: seq<Json>): Result<seq<Sub>, Error>
    decreases ItemsSize(items)
  {
    if items == [] then Ok([])
    else
      var l :- FlattenObject(items[0]);
      Prepend([Sub(l)], FlattenItems(items[1..]))
  }

  function FlattenObject(j: Json): Result<seq<Tok>, Error>
    decreases Size(j), 0
  {
    var ops :- AsObject(j);
    FlattenOps(ops)
  }

  // One turn of each loop: what is done so far grows by what the next element flattens to.

  lemma OpsStep(ops: seq<Member>, i: nat, done: seq<Tok>)
    requires i < |ops| && FlattenOps(ops) == Prepend(done, FlattenOps(ops[i..]))
    ensures var v := FlattenValue(ops[i].key, ops[i].value);
            FlattenOps(ops) == if v.Err? then Err(v.error)
                               else Prepend(done + [OperatorTok(ops[i].key), v.value], FlattenOps(ops[i + 1..]))
    ensures Size(ops[i].value) < MembersSize(ops[i..]) && MembersSize(ops[i + 1..]) <= MembersSize(ops[i..])
  {
    assert ops[i..][0] == ops[i] && ops[i..][1..] == ops[i + 1..];
    var v := FlattenValue(ops[i].key, ops[i].value);
    if v.Ok? {
      PrependPrepend(done, [OperatorTok(ops[i].key), v.value], FlattenOps(ops[i + 1..]));
    }
  }

  lemma ItemsStep(items: seq<Json>, i: nat, done: seq<Sub>)
    requires i < |items| && FlattenItems(items) == Prepend(done, FlattenItems(items[i..]))
    ensures var l := FlattenObject(items[i]);
            FlattenItems(items) == if l.Err? then Err(l.error)
                                   else Prepend(done + [Sub(l.value)], FlattenItems(items[i + 1..]))
    ensures Size(items[i]) < ItemsSize(items[i..]) && ItemsSize(items[i + 1..]) <= ItemsSize(items[i..])
  {
    assert items[i..][0] == items[i] && items[i..][1..] == items[i + 1..];
    var l := FlattenObject(items[i]);
    if l.Ok? {
      PrependPrepend(done, [Sub(l.value)], FlattenItems(items[i + 1..]));
    }
  }

  lemma FieldsStep(fields: seq<Member>, i: nat, done: seq<Tok>)
    requires i < |fields| && FlattenFields(fields) == Prepend(done, FlattenFields(fields[i..]))
    ensures var ops := AsObject(fields[i].value);
            ops.Err? ==> FlattenFields(fields) == Err(ops.error)
    ensures var ops := AsObject(fields[i].value);
            ops.Ok? ==>
              var l := FlattenOps(ops.value);
              FlattenFields(fields) ==
              if l.Err? then Err(l.error)
              else Prepend(done + ([FieldTok(fields[i].key)] + l.value), FlattenFields(fields[i + 1..]))
  {
    assert fields[i..][0] == fields[i] && fields[i..][1..] == fields[i + 1..];
    var ops := AsObject(fields[i].value);
    if ops.Ok? {
      var l := FlattenOps(ops.value);
      if l.Ok? {
        PrependPrepend(done, [FieldTok(fields[i].key)] + l.value, FlattenFields(fields[i + 1..]));
      }
    }
  }
}
