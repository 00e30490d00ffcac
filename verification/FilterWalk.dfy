/** The generic traversal of the token list (Walk, internal/filter/filter.go), and the direct
    recursion over the JSON tree that it is proved equal to. */
module FilterWalk {
  import opened Wrappers
  import opened FilterJson
  import opened FilterTokens
  import opened FilterTokenList

  /** Turns one (field, operator, scalar) leaf into a query. */
  type Mapper<!Q> = (string, string, Json) -> Result<Q, Error>

  /** The logical combination of queries, as each back end implements it. */
  datatype Combiner<!Q> = Combiner(
    and: seq<Q> -> Q, or: seq<Q> -> Q, nor: seq<Q> -> Q, not: Q -> Q)

  /** A back end: what Walk is instantiated with. */
  datatype Backend<!Q> = Backend(mapper: Mapper<Q>, combiner: Combiner<Q>)

  /** One condition stands for itself; several on the same field are ANDed. */
  function Group<Q>(qs: seq<Q>, b: Backend<Q>): Result<Q, Error> {
    if |qs| == 0 then Err(NoOperators)
    else if |qs| == 1 then Ok(qs[0])
    else Ok(b.combiner.and(qs))
  }

  function Combine<Q>(op: OpKind, qs: seq<Q>, b: Backend<Q>): Q
    requires op in {And, Or, Nor}
  {
    match op
    case And => b.combiner.and(qs)
    case Or => b.combiner.or(qs)
    case Nor => b.combiner.nor(qs)
  }

  // ----- Walking a token list -----

  function WalkQuery<Q>(field: string, op: string, val: Tok, b: Backend<Q>): Result<Q, Error>
    decreases TokSize(val)
  {
    match Kind(op)
    case Leaf => if val.ValueTok? then b.mapper(field, op, val.scalar) else Err(NeedsScalar)
    case Not =>
      if !val.ObjectTok? then Err(NeedsObject) else
      var q :- WalkSubList(field, val.list, b);
      Ok(b.combiner.not(q))
    case k =>
      if !val.ArrayTok? then Err(NeedsArray) else
      var qs :- WalkLists(field, val.lists, b);
      Ok(Combine(k, qs, b))
  }

  function WalkLists<Q>(field: string, lists: seq<Sub>, b: Backend<Q>): Result<seq<Q>, Error>
    decreases ListsSize(lists)
  {
    if lists == [] then Ok([])
    else
      assert SubSize(lists[0]) == ToksSize(lists[0].toks);
      var q :- WalkSubList(field, lists[0].toks, b);
      Prepend([q], WalkLists(field, lists[1..], b))
  }

  function WalkSubList<Q>(field: string, toks: seq<Tok>, b: Backend<Q>): Result<Q, Error>
    decreases ToksSize(toks), 1
  {
    var qs :- WalkSubOps(field, toks, b);
    Group(qs, b)
  }

  function WalkSubOps<Q>(field: string, toks: seq<Tok>, b: Backend<Q>): Result<seq<Q>, Error>
    decreases ToksSize(toks), 0
  {
    if toks == [] then Ok([])
    else if !toks[0].OperatorTok? then Err(ExpectedOperator)
    else if |toks| == 1 then Err(ExpectedValue)
    else
      assert toks[2..] == toks[1..][1..] && ToksSize(toks[1..]) == 1 + TokSize(toks[1]) + ToksSize(toks[1..][1..]);
      var q :- WalkQuery(field, toks[0].key, toks[1], b);
      Prepend([q], WalkSubOps(field, toks[2..], b))
  }

  datatype OpsRead<Q> = OpsRead(queries: seq<Q>, rest: seq<Tok>)

  /** The operators at the front of `toks`, and what follows them. */
  function WalkFieldOps<Q>(field: string, toks: seq<Tok>, b: Backend<Q>): (r: Result<OpsRead<Q>, Error>)
    decreases |toks|
    ensures r.Ok? ==> |r.value.rest| <= |toks|
  {
    if toks == [] || !toks[0].OperatorTok? then Ok(OpsRead([], toks))
    else if |toks| == 1 then Err(ExpectedValue)
    else
      var q :- WalkQuery(field, toks[0].key, toks[1], b);
      var OpsRead(qs, rest) :- WalkFieldOps(field, toks[2..], b);
      Ok(OpsRead([q] + qs, rest))
  }

  function WalkAll<Q>(toks: seq<Tok>, b: Backend<Q>): Result<seq<Q>, Error>
    decreases |toks|
  {
    if toks == [] then Ok([])
    else if !toks[0].FieldTok? then Err(ExpectedField)
    else
      var OpsRead(qs, rest) :- WalkFieldOps(toks[0].key, toks[1..], b);
      var q :- Group(qs, b);
      Prepend([q], WalkAll(rest, b))
  }

  // ----- The meaning of the JSON tree itself -----

  /** The conditions of a whole filter, one a field; they are implicitly ANDed. */
  function Denote<Q>(fields: seq<Member>, b: Backend<Q>): Result<seq<Q>, Error> {
    if fields == [] then Ok([])
    else
      var q :- DenoteObject(fields[0].key, fields[0].value, b);
      Prepend([q], Denote(fields[1..], b))
  }

  /** An operator object on `field`. */
  function DenoteObject<Q>(field: string, j: Json, b: Backend<Q>): Result<Q, Error>
    decreases Size(j), 0
  {
    var ops :- AsObject(j);
    var qs :- DenoteOps(field, ops, b);
    Group(qs, b)
  }

  function DenoteOps<Q>(field: string, ops: seq<Member>, b: Backend<Q>): Result<seq<Q>, Error>
    decreases MembersSize(ops)
  {
    if ops == [] then Ok([])
    else
      var q :- DenoteOp(field, ops[0].key, ops[0].value, b);
      Prepend([q], DenoteOps(field, ops[1..], b))
  }

  function DenoteOp<Q>(field: string, op: string, j: Json, b: Backend<Q>): Result<Q, Error>
    decreases Size(j), 1
  {
    match Kind(op)
    case Leaf => b.mapper(field, op, j)
    case Not =>
      var q :- DenoteObject(field, j, b);
      Ok(b.combiner.not(q))
    case k =>
      var items :- AsArray(j);
      var qs :- DenoteItems(field, items, b);
      Ok(Combine(k, qs, b))
  }

  function DenoteItems<Q>(field: string, items: seq<Json>, b: Backend<Q>): Result<seq<Q>, Error>
    decreases ItemsSize(items)
  {
    if items == [] then Ok([])
    else
      var q :- DenoteObject(field, items[0], b);
      Prepend([q], DenoteItems(field, items[1..], b))
  }

  // ----- Flatten, then walk, is the direct recursion -----

  lemma {:induction false} WalkOfFlattenOps<Q>(field: string, ops: seq<Member>, b: Backend<Q>)
    requires FlattenOps(ops).Ok?
    ensures WalkSubOps(field, FlattenOps(ops).value, b) == DenoteOps(field, ops, b)
    decreases MembersSize(ops), 0
  {
    if ops != [] {
      var v := FlattenValue(ops[0].key, ops[0].value).value;
      var rest := FlattenOps(ops[1..]).value;
      var toks := [OperatorTok(ops[0].key), v] + rest;
      assert toks[0] == OperatorTok(ops[0].key) && toks[1] == v && toks[2..] == rest;
      WalkOfFlattenValue(field, ops[0].key, ops[0].value, b);
      WalkOfFlattenOps(field, ops[1..], b);
    }
  }

  lemma {:induction false} WalkOfFlattenValue<Q>(field: string, op: string, j: Json, b: Backend<Q>)
    requires FlattenValue(op, j).Ok?
    ensures WalkQuery(field, op, FlattenValue(op, j).value, b) == DenoteOp(field, op, j, b)
    decreases Size(j), 0
  {
    match Kind(op)
    case Leaf =>
    case Not => WalkOfFlattenOps(field, AsObject(j).value, b);
    case _ => WalkOfFlattenItems(field, AsArray(j).value, b);
  }

  lemma {:induction false} WalkOfFlattenItems<Q>(field: string, items: seq<Json>, b: Backend<Q>)
    requires FlattenItems(items).Ok?
    ensures WalkLists(field, FlattenItems(items).value, b) == DenoteItems(field, items, b)
    decreases ItemsSize(items), 0
  {
    if items != [] {
      var ls := FlattenItems(items).value;
      assert ls[0] == Sub(FlattenObject(items[0]).value) && ls[1..] == FlattenItems(items[1..]).value;
      WalkOfFlattenOps(field, AsObject(items[0]).value, b);
      WalkOfFlattenItems(field, items[1..], b);
    }
  }

  /** The operators of one field end where the next field token begins. */
  lemma {:induction false} WalkFieldOpsSplit<Q>(field: string, ops: seq<Member>, rest: seq<Tok>, b: Backend<Q>)
    requires FlattenOps(ops).Ok? && (rest == [] || rest[0].FieldTok?)
    ensures WalkFieldOps(field, FlattenOps(ops).value + rest, b) ==
            match DenoteOps(field, ops, b) case Ok(qs) => Ok(OpsRead(qs, rest)) case Err(e) => Err(e)
    decreases |ops|
  {
    if ops == [] {
      assert FlattenOps(ops).value + rest == rest;
    } else {
      var v := FlattenValue(ops[0].key, ops[0].value).value;
      var tail := FlattenOps(ops[1..]).value;
      var toks := [OperatorTok(ops[0].key), v] + tail + rest;
      assert toks[0] == OperatorTok(ops[0].key) && toks[1] == v && toks[2..] == tail + rest;
      WalkOfFlattenValue(field, ops[0].key, ops[0].value, b);
      WalkFieldOpsSplit(field, ops[1..], rest, b);
    }
  }

  /** On a list Tokenize produced, Walk computes the recursive meaning of the tree, in any back end. */
  lemma {:induction false} WalkOfFlatten<Q>(fields: seq<Member>, b: Backend<Q>)
    requires FlattenFields(fields).Ok?
    ensures WalkAll(FlattenFields(fields).value, b) == Denote(fields, b)
    decreases |fields|
  {
    if fields != [] {
      var ops := AsObject(fields[0].value).value;
      var head := FlattenOps(ops).value;
      var tail := FlattenFields(fields[1..]).value;
      var toks := [FieldTok(fields[0].key)] + head + tail;
      assert toks[0] == FieldTok(fields[0].key) && toks[1..] == head + tail;
      WalkFieldOpsSplit(fields[0].key, ops, tail, b);
      WalkOfFlatten(fields[1..], b);
    }
  }

  // ----- Structural errors -----

  /** Some operator object the filter reaches has no operators. */
  ghost predicate HasEmptyObject(j: Json)
    decreases Size(j), 0
  {
    match AsObject(j)
    case Ok(ops) => ops == [] || OpsHaveEmpty(ops)
    case Err(_) => false
  }

  ghost predicate OpsHaveEmpty(ops: seq<Member>)
    decreases MembersSize(ops)
  {
    ops != [] && (OpHasEmpty(ops[0].key, ops[0].value) || OpsHaveEmpty(ops[1..]))
  }

  ghost predicate OpHasEmpty(op: string, j: Json)
    decreases Size(j), 1
  {
    match Kind(op)
    case Leaf => false
    case Not => HasEmptyObject(j)
    case _ => AsArray(j).Ok? && ItemsHaveEmpty(AsArray(j).value)
  }

  ghost predicate ItemsHaveEmpty(items: seq<Json>)
    decreases ItemsSize(items)
  {
    items != [] && (HasEmptyObject(items[0]) || ItemsHaveEmpty(items[1..]))
  }

  ghost predicate FieldsHaveEmpty(fields: seq<Member>) {
    fields != [] && (HasEmptyObject(fields[0].value) || FieldsHaveEmpty(fields[1..]))
  }

  /** The mapper accepts every leaf. */
  ghost predicate Total<Q(!new)>(b: Backend<Q>) {
    forall f, o, v :: b.mapper(f, o, v).Ok?
  }

  /** The mapper blames leaves only. */
  ghost predicate LeafErrors<Q(!new)>(b: Backend<Q>) {
    forall f, o, v :: b.mapper(f, o, v).Err? ==>
      !Structural(b.mapper(f, o, v).error) && b.mapper(f, o, v).error != NoOperators
  }

  /** What a walk over a well-shaped tree may report. */
  ghost predicate Reports<T>(r: Result<T, Error>, total: bool, empty: bool) {
    && (r.Err? ==> !Structural(r.error))
    && (r.Err? && r.error == NoOperators ==> empty)
    && (total ==> (r.Err? <==> empty))
  }

  lemma {:induction false} OpsReport<Q(!new)>(field: string, ops: seq<Member>, b: Backend<Q>)
    requires FlattenOps(ops).Ok? && LeafErrors(b)
    ensures Reports(DenoteOps(field, ops, b), Total(b), OpsHaveEmpty(ops))
    decreases MembersSize(ops), 0
  {
    if ops != [] {
      OpReports(field, ops[0].key, ops[0].value, b);
      OpsReport(field, ops[1..], b);
    }
  }

  lemma {:induction false} ObjectReports<Q(!new)>(field: string, j: Json, b: Backend<Q>)
    requires FlattenObject(j).Ok? && LeafErrors(b)
    ensures Reports(DenoteObject(field, j, b), Total(b), HasEmptyObject(j))
    decreases Size(j), 0
  {
    var ops := AsObject(j).value;
    OpsReport(field, ops, b);
    DenoteOpsLength(field, ops, b);
  }

  /** An object with one operator is that operator. */
  lemma OneOp<Q>(field: string, m: Member, b: Backend<Q>)
    ensures DenoteObject(field, Object([m]), b) == DenoteOp(field, m.key, m.value, b)
  {
    assert [m][1..] == [];
    var q := DenoteOp(field, m.key, m.value, b);
    if q.Ok? {
      assert DenoteOps(field, [m], b) == Prepend([q.value], DenoteOps(field, [], b));
      assert [q.value] + [] == [q.value];
    }
  }

  lemma {:induction false} DenoteOpsLength<Q>(field: string, ops: seq<Member>, b: Backend<Q>)
    ensures DenoteOps(field, ops, b).Ok? ==> |DenoteOps(field, ops, b).value| == |ops|
  {
    if ops != [] {
      DenoteOpsLength(field, ops[1..], b);
    }
  }

  lemma {:induction false} OpReports<Q(!new)>(field: string, op: string, j: Json, b: Backend<Q>)
    requires FlattenValue(op, j).Ok? && LeafErrors(b)
    ensures Reports(DenoteOp(field, op, j, b), Total(b), OpHasEmpty(op, j))
    decreases Size(j), 1
  {
    match Kind(op)
    case Leaf =>
    case Not => ObjectReports(field, j, b);
    case _ => ItemsReport(field, AsArray(j).value, b);
  }

  lemma {:induction false} ItemsReport<Q(!new)>(field: string, items: seq<Json>, b: Backend<Q>)
    requires FlattenItems(items).Ok? && LeafErrors(b)
    ensures Reports(DenoteItems(field, items, b), Total(b), ItemsHaveEmpty(items))
    decreases ItemsSize(items), 0
  {
    if items != [] {
      ObjectReports(field, items[0], b);
      ItemsReport(field, items[1..], b);
    }
  }

  /** Walk never blames the list Tokenize built: it fails on an operator object without operators
      or on a leaf its mapper rejects, and with a mapper that rejects none, on the former exactly. */
  lemma {:induction false} WalkReports<Q(!new)>(fields: seq<Member>, b: Backend<Q>)
    requires FlattenFields(fields).Ok? && LeafErrors(b)
    ensures Reports(WalkAll(FlattenFields(fields).value, b), Total(b), FieldsHaveEmpty(fields))
  {
    WalkOfFlatten(fields, b);
    DenoteReports(fields, b);
  }

  lemma {:induction false} DenoteReports<Q(!new)>(fields: seq<Member>, b: Backend<Q>)
    requires FlattenFields(fields).Ok? && LeafErrors(b)
    ensures Reports(Denote(fields, b), Total(b), FieldsHaveEmpty(fields))
    decreases |fields|
  {
    if fields != [] {
      ObjectReports(fields[0].key, fields[0].value, b);
      DenoteReports(fields[1..], b);
    }
  }

  // ----- The traversal of the linked list, with its moving cursor -----

  /** Where a cursor stands after `i` steps. */
  ghost function NodeOrNull(nodes: seq<Token>, i: nat): Token? {
    if i < |nodes| then nodes[i] else null
  }

  predicate OperatorAt(toks: seq<Tok>, i: nat) {
    i < |toks| && toks[i].OperatorTok?
  }

  method Walk<Q>(tl: TokenList, b: Backend<Q>) returns (r: Result<seq<Q>, Error>)
    requires tl.Valid()
    ensures r == WalkAll(tl.toks, b)
  {
    var queries: seq<Q> := [];
    var cur := tl.head;
    ghost var toks, i := tl.toks, 0;
    assert toks[0..] == toks;
    while cur != null
      invariant i <= |tl.nodes| && cur == NodeOrNull(tl.nodes, i)
      invariant WalkAll(toks, b) == Prepend(queries, WalkAll(toks[i..], b))
      decreases |tl.nodes| - i
    {
      tl.NodeAt(i);
      if cur.kind != TokenField {
        return Err(ExpectedField);
      }
      var field := cur.key;
      assert toks[i..][0] == FieldTok(field) && toks[i..][1..] == toks[i + 1..];
      ghost var ops := WalkFieldOps(field, toks[i + 1..], b);
      var walked;
      walked, cur, i := WalkOperators(tl, field, cur.next, i + 1, b);
      if walked.Err? {
        return Err(walked.error);
      }
      var fieldQueries := walked.value;
      if |fieldQueries| == 0 {
        return Err(NoOperators);
      }
      PrependPrepend(queries, [Group(fieldQueries, b).value], WalkAll(toks[i..], b));
      if |fieldQueries| == 1 {
        queries := queries + [fieldQueries[0]];
      } else {
        queries := queries + [b.combiner.and(fieldQueries)];
      }
    }
    assert queries + [] == queries;
    return Ok(queries);
  }

  /** The operator token under the cursor with the value token after it, and where the cursor goes next. */
  method WalkPair<Q>(tl: TokenList, field: string, opTok: Token, ghost i: nat, b: Backend<Q>)
    returns (r: Result<Q, Error>, next: Token?)
    requires tl.Valid() && i < |tl.nodes| && opTok == tl.nodes[i] && tl.toks[i].OperatorTok?
    ensures i + 1 == |tl.nodes| ==> r == Err(ExpectedValue)
    ensures i + 1 < |tl.nodes| ==>
              && r == WalkQuery(field, tl.toks[i].key, tl.toks[i + 1], b)
              && next == NodeOrNull(tl.nodes, i + 2)
    decreases ToksSize(tl.toks[i..]), 0
  {
    tl.NodeAt(i);
    var valTok := opTok.next;
    if valTok == null {
      return Err(ExpectedValue), null;
    }
    tl.NodeAt(i + 1);
    SuffixSize(tl.toks, i);
    SuffixSize(tl.toks, i + 1);
    r := WalkQueryNode(field, opTok.key, valTok, tl.toks[i + 1], tl.inner, b);
    next := valTok.next;
  }

  /** The inner loop of Walk: the operators of one field, from the cursor on. */
  method WalkOperators<Q>(tl: TokenList, field: string, from: Token?, ghost start: nat, b: Backend<Q>)
    returns (r: Result<seq<Q>, Error>, cur: Token?, ghost i: nat)
    requires tl.Valid() && start <= |tl.nodes| && from == NodeOrNull(tl.nodes, start)
    ensures r.Err? ==> WalkFieldOps(field, tl.toks[start..], b) == Err(r.error)
    ensures r.Ok? ==>
              && start <= i <= |tl.nodes| == |tl.toks|
              && WalkFieldOps(field, tl.toks[start..], b) == Ok(OpsRead(r.value, tl.toks[i..]))
              && cur == NodeOrNull(tl.nodes, i)
  {
    ghost var toks, nodes, all := tl.toks, tl.nodes, WalkFieldOps(field, tl.toks[start..], b);
    var queries: seq<Q> := [];
    cur, i := from, start;
    var more := AtOperator(tl, cur, i);
    while more
      invariant start <= i <= |toks| && cur == NodeOrNull(nodes, i)
      invariant OpsLeft(all, field, toks, i, queries, b)
      invariant more == OperatorAt(toks, i)
      decreases |toks| - i
    {
      r, cur, more := WalkOperator(tl, field, cur, i, queries, b, all);
      if r.Err? {
        return;
      }
      queries, i := r.value, i + 2;
    }
    r := Ok(queries);
    FieldOpsEnd(field, toks, i, queries, b);
  }

  /** The operators before `i` gave `done`, and those from `i` on give the rest of `all`. */
  ghost predicate OpsLeft<Q>(all: Result<OpsRead<Q>, Error>, field: string, toks: seq<Tok>, i: nat, done: seq<Q>, b: Backend<Q>)
    requires i <= |toks|
  {
    all == After(done, WalkFieldOps(field, toks[i..], b))
  }

  /** One turn of that loop: the query of the operator under the cursor joins those already built. */
  method WalkOperator<Q>(tl: TokenList, field: string, cur: Token?, ghost i: nat, done: seq<Q>, b: Backend<Q>,
                         ghost all: Result<OpsRead<Q>, Error>)
    returns (r: Result<seq<Q>, Error>, next: Token?, more: bool)
    requires tl.Valid() && i < |tl.nodes| == |tl.toks| && cur == tl.nodes[i] && tl.toks[i].OperatorTok?
    requires OpsLeft(all, field, tl.toks, i, done, b)
    ensures r.Err? ==> all == Err(r.error)
    ensures r.Ok? ==>
              && i + 2 <= |tl.toks| && next == NodeOrNull(tl.nodes, i + 2)
              && OpsLeft(all, field, tl.toks, i + 2, r.value, b)
              && more == OperatorAt(tl.toks, i + 2)
    decreases ToksSize(tl.toks[i..]), 1
  {
    var q;
    q, next := WalkPair(tl, field, cur, i, b);
    if i + 1 < |tl.toks| {
      FieldOpsStep(field, tl.toks, i, done, b);
    } else {
      assert |tl.toks[i..]| == 1;
    }
    if q.Err? {
      return Err(q.error), next, false;
    }
    r := Ok(done + [q.value]);
    more := AtOperator(tl, next, i + 2);
  }

  method AtOperator(tl: TokenList, cur: Token?, ghost i: nat) returns (yes: bool)
    requires tl.Valid() && i <= |tl.nodes| && cur == NodeOrNull(tl.nodes, i)
    ensures |tl.toks| == |tl.nodes| && yes == OperatorAt(tl.toks, i)
  {
    if cur != null {
      tl.NodeAt(i);
    }
    yes := cur != null && cur.kind == TokenOperator;
  }

  /** The operators already done, before those of `r`. */
  function After<Q>(done: seq<Q>, r: Result<OpsRead<Q>, Error>): (a: Result<OpsRead<Q>, Error>)
    ensures done == [] ==> a == r
  {
    match r
    case Err(e) => Err(e)
    case Ok(OpsRead(qs, rest)) => assert [] + qs == qs; Ok(OpsRead(done + qs, rest))
  }

  /** One turn of the loop of walkSubList. */
  lemma SubOpsStep<Q>(field: string, toks: seq<Tok>, i: nat, done: seq<Q>, b: Backend<Q>)
    requires i < |toks| && toks[i].OperatorTok?
    ensures i + 1 == |toks| ==> WalkSubOps(field, toks[i..], b) == Err(ExpectedValue)
    ensures i + 1 < |toks| ==>
              && ToksSize(toks[i + 2..]) <= ToksSize(toks[i..])
              && var q := WalkQuery(field, toks[i].key, toks[i + 1], b);
                 Prepend(done, WalkSubOps(field, toks[i..], b)) ==
                 if q.Err? then Err(q.error) else Prepend(done + [q.value], WalkSubOps(field, toks[i + 2..], b))
  {
    if i + 1 < |toks| {
      SuffixSize(toks, i);
      SuffixSize(toks, i + 1);
      assert toks[i..][2..] == toks[i + 2..];
      var q := WalkQuery(field, toks[i].key, toks[i + 1], b);
      if q.Ok? {
        PrependPrepend(done, [q.value], WalkSubOps(field, toks[i + 2..], b));
      }
    }
  }

  /** The inner loop of Walk stops at the first token that is no operator. */
  lemma FieldOpsEnd<Q>(field: string, toks: seq<Tok>, i: nat, done: seq<Q>, b: Backend<Q>)
    requires i <= |toks| && (i < |toks| ==> !toks[i].OperatorTok?)
    ensures After(done, WalkFieldOps(field, toks[i..], b)) == Ok(OpsRead(done, toks[i..]))
  {
    assert done + [] == done;
  }

  lemma FieldOpsStep<Q>(field: string, toks: seq<Tok>, i: nat, done: seq<Q>, b: Backend<Q>)
    requires i + 1 < |toks| && toks[i].OperatorTok?
    ensures var q := WalkQuery(field, toks[i].key, toks[i + 1], b);
            After(done, WalkFieldOps(field, toks[i..], b)) ==
            if q.Err? then Err(q.error) else After(done + [q.value], WalkFieldOps(field, toks[i + 2..], b))
  {
    assert toks[i..][0] == toks[i] && toks[i..][1] == toks[i + 1] && toks[i..][2..] == toks[i + 2..];
    var q := WalkQuery(field, toks[i].key, toks[i + 1], b);
    var rest := WalkFieldOps(field, toks[i + 2..], b);
    if q.Ok? && rest.Ok? {
      assert done + ([q.value] + rest.value.queries) == done + [q.value] + rest.value.queries;
    }
  }

  method WalkQueryNode<Q>(field: string, op: string, valTok: Token, ghost val: Tok, ghost parts: set<object>,
                          b: Backend<Q>) returns (r: Result<Q, Error>)
    requires Part(valTok, val, parts)
    ensures r == WalkQuery(field, op, val, b)
    decreases TokSize(val), 1
  {
    match Kind(op)
    case Leaf =>
      if valTok.kind != TokenValueKind {
        return Err(NeedsScalar);
      }
      return b.mapper(field, op, valTok.value.scalar);
    case Not =>
      if valTok.kind != TokenObject {
        return Err(NeedsObject);
      }
      var q := WalkSubListNode(field, valTok.value.list, b);
      return match q case Ok(inner) => Ok(b.combiner.not(inner)) case Err(e) => Err(e);
    case kind =>
      r := WalkLogical(field, kind, valTok, val, parts, b);
  }

  method WalkLogical<Q>(field: string, kind: OpKind, valTok: Token, ghost val: Tok, ghost parts: set<object>,
                        b: Backend<Q>) returns (r: Result<Q, Error>)
    requires Part(valTok, val, parts) && kind in {And, Or, Nor}
    ensures r == if !val.ArrayTok? then Err(NeedsArray)
                 else match WalkLists(field, val.lists, b)
                      case Ok(qs) => Ok(Combine(kind, qs, b))
                      case Err(e) => Err(e)
    decreases TokSize(val), 0
  {
    if valTok.kind != TokenArray {
      return Err(NeedsArray);
    }
    var subLists := valTok.value.lists;
    var inner: seq<Q> := [];
    assert val.lists[0..] == val.lists;
    for i := 0 to |subLists|
      invariant WalkLists(field, val.lists, b) == Prepend(inner, WalkLists(field, val.lists[i..], b))
      invariant ListsSize(val.lists[i..]) <= ListsSize(val.lists)
    {
      assert val.lists[i..][0] == val.lists[i] && val.lists[i..][1..] == val.lists[i + 1..];
      assert Below(subLists[i], val.lists[i].toks, parts);
      var subQ := WalkSubListNode(field, subLists[i], b);
      if subQ.Err? {
        return Err(subQ.error);
      }
      PrependPrepend(inner, [subQ.value], WalkLists(field, val.lists[i + 1..], b));
      inner := inner + [subQ.value];
    }
    assert inner + [] == inner;
    return Ok(Combine(kind, inner, b));
  }

  method WalkSubListNode<Q>(field: string, subList: TokenList, b: Backend<Q>) returns (r: Result<Q, Error>)
    requires subList.Valid()
    ensures r == WalkSubList(field, subList.toks, b)
    decreases ToksSize(subList.toks), 2
  {
    var subQueries: seq<Q> := [];
    var cur := subList.head;
    ghost var i := 0;
    ghost var toks := subList.toks;
    assert toks[0..] == toks;
    while cur != null
      invariant i <= |subList.nodes| && cur == NodeOrNull(subList.nodes, i)
      invariant WalkSubOps(field, toks, b) == Prepend(subQueries, WalkSubOps(field, toks[i..], b))
      invariant ToksSize(toks[i..]) <= ToksSize(toks)
      decreases |subList.nodes| - i
    {
      subList.NodeAt(i);
      if cur.kind != TokenOperator {
        return Err(ExpectedOperator);
      }
      var sq, next := WalkPair(subList, field, cur, i, b);
      SubOpsStep(field, toks, i, subQueries, b);
      if sq.Err? {
        return Err(sq.error);
      }
      subQueries := subQueries + [sq.value];
      cur, i := next, i + 2;
    }
    assert subQueries + [] == subQueries;
    if |subQueries| == 0 {
      return Err(NoOperators);
    }
    if |subQueries| == 1 {
      return Ok(subQueries[0]);
    }
    return Ok(b.combiner.and(subQueries));
  }
}
