/** The singly-linked token list and the loops of Tokenize that build it (internal/filter/filter.go). */
module FilterTokenList {
  import opened Wrappers
  import opened FilterJson
  import opened FilterTokens

  datatype TokenValue =
    | NoValue
    | ScalarValue(scalar: Json)
    | ListsValue(lists: seq<TokenList>)
    | ListValue(list: TokenList)

  datatype TokenKind = TokenField | TokenOperator | TokenValueKind | TokenArray | TokenObject

  class Token {
    const kind: TokenKind
    const key: string
    const value: TokenValue
    var next: Token?

    constructor (kind: TokenKind, key: string, value: TokenValue)
      ensures this.kind == kind && this.key == key && this.value == value && next == null
    {
      this.kind, this.key, this.value, next := kind, key, value, null;
    }
  }

  /** `toks` is what the nodes hold, and `inner` the objects of the sub-lists. No node of this
      list is one of them, so appending never reaches into a sub-list. */
  class TokenList {
    var head: Token?
    var tail: Token?
    ghost var nodes: seq<Token>
    ghost var toks: seq<Tok>
    ghost var inner: set<object>
    ghost var Repr: set<object>

    ghost predicate Valid()
      reads this, Repr
      decreases Repr, -1
      ensures Valid() ==> this in Repr && |nodes| == |toks|
    {
      && this in Repr && inner <= Repr && this !in inner
      && Chained()
      && |nodes| == |toks|
      && forall i | 0 <= i < |nodes| :: Part(nodes[i], toks[i], inner)
    }

    /** Head, tail and the next pointers agree with `nodes`. */
    ghost predicate Chained()
      reads this, Repr
    {
      && (forall i | 0 <= i < |nodes| :: nodes[i] in Repr && nodes[i] !in inner)
      && (forall i, j | 0 <= i < j < |nodes| :: nodes[i] != nodes[j])
      && head == (if nodes == [] then null else nodes[0])
      && tail == (if nodes == [] then null else nodes[|nodes| - 1])
      && forall i | 0 <= i < |nodes| ::
           nodes[i].next == if i + 1 < |nodes| then nodes[i + 1] else null
    }

    /** What a cursor standing on node `i` sees. */
    lemma NodeAt(i: nat)
      requires Valid() && i < |nodes|
      ensures Part(nodes[i], toks[i], inner)
      ensures nodes[i].next == if i + 1 < |nodes| then nodes[i + 1] else null
    {
    }

    constructor ()
      ensures Valid() && fresh(Repr) && toks == []
    {
      head, tail := null, null;
      nodes, toks, inner, Repr := [], [], {}, {this};
    }

    /** Hangs a node behind the last one. */
    method Link(t: Token)
      requires Valid() && t !in Repr && t.next == null
      modifies `head, `tail, `nodes, `Repr, nodes
      ensures nodes == old(nodes) + [t] && Repr == old(Repr) + {t} && Chained()
    {
      if head == null {
        head := t;
        tail := t;
      } else {
        tail.next := t;
        tail := t;
      }
      nodes := nodes + [t];
      Repr := Repr + {t};
    }

    method Append(t: Token, ghost tok: Tok, ghost parts: set<object>)
      requires Valid()
      requires t !in Repr && t !in parts && parts !! Repr && t.next == null
      requires Part(t, tok, parts)
      modifies Repr
      ensures Valid() && toks == old(toks) + [tok] && Repr == old(Repr) + {t} + parts
    {
      Link(t);
      toks := toks + [tok];
      PartsGrow(old(nodes), old(toks), inner, t, tok, parts);
      inner := inner + parts;
      Repr := Repr + parts;
    }
  }

  /** The node `n` holds `t`, and `parts` contains the objects of its sub-lists. */
  ghost predicate Part(n: Token, t: Tok, parts: set<object>)
    reads parts
    decreases parts, 1
  {
    match t
    case FieldTok(key) => n.kind == TokenField && n.key == key
    case OperatorTok(key) => n.kind == TokenOperator && n.key == key
    case ValueTok(j) => n.kind == TokenValueKind && n.value == ScalarValue(j)
    case ArrayTok(lists) =>
      && n.kind == TokenArray && n.value.ListsValue? && |n.value.lists| == |lists|
      && forall k | 0 <= k < |lists| :: Below(n.value.lists[k], lists[k].toks, parts)
    case ObjectTok(list) =>
      n.kind == TokenObject && n.value.ListValue? && Below(n.value.list, list, parts)
  }

  lemma PartGrows(n: Token, t: Tok, small: set<object>, big: set<object>)
    requires small <= big && Part(n, t, small)
    ensures Part(n, t, big)
  {
    match t
    case ArrayTok(lists) =>
      assert forall k | 0 <= k < |lists| :: Below(n.value.lists[k], lists[k].toks, small);
    case _ =>
  }

  lemma PartsGrow(nodes: seq<Token>, toks: seq<Tok>, inner: set<object>, t: Token, tok: Tok, parts: set<object>)
    requires |nodes| == |toks| && (forall i | 0 <= i < |nodes| :: Part(nodes[i], toks[i], inner))
    requires Part(t, tok, parts)
    ensures forall i | 0 <= i <= |nodes| :: Part((nodes + [t])[i], (toks + [tok])[i], inner + parts)
  {
    PartGrows(t, tok, parts, inner + parts);
    forall i | 0 <= i < |nodes|
      ensures Part(nodes[i], toks[i], inner + parts)
    {
      PartGrows(nodes[i], toks[i], inner, inner + parts);
    }
  }

  /** `l` is a well-formed list of `toks` built from the objects of `parts`. */
  ghost predicate Below(l: TokenList, toks: seq<Tok>, parts: set<object>)
    reads parts
    decreases parts, 0
  {
    l in parts && l.Repr <= parts && l.Valid() && l.toks == toks
  }

  /** The loop over an operator object, which Tokenize, the array and the $not case share. */
  method AppendOps(list: TokenList, ops: seq<Member>) returns (r: Result<(), Error>)
    requires list.Valid()
    modifies list.Repr
    ensures list.Valid() && fresh(list.Repr - old(list.Repr))
    ensures FlattenOps(ops).Ok? ==> r.Ok? && list.toks == old(list.toks) + FlattenOps(ops).value
    ensures FlattenOps(ops).Err? ==> r == Err(FlattenOps(ops).error)
    decreases MembersSize(ops), 3
  {
    assert ops[0..] == ops;
    ghost var done: seq<Tok> := [];
    for i := 0 to |ops|
      invariant list.Valid() && fresh(list.Repr - old(list.Repr))
      invariant list.toks == old(list.toks) + done
      invariant FlattenOps(ops) == Prepend(done, FlattenOps(ops[i..]))
      invariant MembersSize(ops[i..]) <= MembersSize(ops)
    {
      OpsStep(ops, i, done);
      var appended := AppendOp(list, ops[i]);
      if appended.Err? {
        return appended;
      }
      done := done + [OperatorTok(ops[i].key), FlattenValue(ops[i].key, ops[i].value).value];
    }
    return Ok(());
  }

  /** An operator token and the token of its value. */
  method AppendOp(list: TokenList, op: Member) returns (r: Result<(), Error>)
    requires list.Valid()
    modifies list.Repr
    ensures list.Valid() && fresh(list.Repr - old(list.Repr))
    ensures match FlattenValue(op.key, op.value)
            case Ok(tok) => r.Ok? && list.toks == old(list.toks) + [OperatorTok(op.key), tok]
            case Err(e) => r == Err(e)
    decreases Size(op.value), 3
  {
    var opTok := new Token(TokenOperator, op.key, NoValue);
    list.Append(opTok, OperatorTok(op.key), {});
    var v, parts := TokenizeValue(op.key, op.value);
    if v.Err? {
      return Err(v.error);
    }
    list.Append(v.value, FlattenValue(op.key, op.value).value, parts);
    return Ok(());
  }

  method TokenizeValue(op: string, j: Json) returns (r: Result<Token, Error>, ghost parts: set<object>)
    ensures TokenOf(r, FlattenValue(op, j), parts) && fresh(parts)
    ensures r.Ok? ==> fresh(r.value) && r.value !in parts
    decreases Size(j), 2
  {
    match Kind(op)
    case Leaf =>
      var t := new Token(TokenValueKind, "", ScalarValue(j));
      return Ok(t), {};
    case Not =>
      r, parts := TokenizeNotObject(op, j);
    case _ =>
      r, parts := TokenizeLogicalArray(op, j);
  }

  /** `r` is the node Flatten describes by `spec`, or its error. */
  ghost predicate TokenOf(r: Result<Token, Error>, spec: Result<Tok, Error>, parts: set<object>)
    reads parts, if r.Ok? then {r.value} else {}
  {
    match spec
    case Ok(t) => r.Ok? && r.value.next == null && Part(r.value, t, parts)
    case Err(e) => r == Err(e)
  }

  /** An operator object as a list of its own: an array element, or the operand of $not. */
  method TokenizeSubList(j: Json) returns (r: Result<TokenList, Error>)
    ensures match FlattenObject(j)
            case Ok(l) => r.Ok? && fresh(r.value.Repr) && Below(r.value, l, r.value.Repr)
            case Err(e) => r == Err(e)
    decreases Size(j), 0
  {
    var ops := AsObject(j);
    if ops.Err? {
      return Err(ops.error);
    }
    var subList := new TokenList();
    var done := AppendOps(subList, ops.value);
    return if done.Err? then Err(done.error) else Ok(subList);
  }

  method TokenizeNotObject(op: string, j: Json) returns (r: Result<Token, Error>, ghost parts: set<object>)
    requires Kind(op).Not?
    ensures TokenOf(r, FlattenValue(op, j), parts) && fresh(parts)
    ensures r.Ok? ==> fresh(r.value) && r.value !in parts
    decreases Size(j), 1
  {
    var subList := TokenizeSubList(j);
    if subList.Err? {
      return Err(subList.error), {};
    }
    var t := new Token(TokenObject, OP_NOT, ListValue(subList.value));
    return Ok(t), subList.value.Repr;
  }

  method TokenizeLogicalArray(op: string, j: Json) returns (r: Result<Token, Error>, ghost parts: set<object>)
    requires Kind(op) in {And, Or, Nor}
    ensures TokenOf(r, FlattenValue(op, j), parts) && fresh(parts)
    ensures r.Ok? ==> fresh(r.value) && r.value !in parts
    decreases Size(j), 1
  {
    parts := {};
    var items := AsArray(j);
    if items.Err? {
      return Err(items.error), {};
    }
    var subLists;
    subLists, parts := TokenizeItems(items.value);
    if subLists.Err? {
      return Err(subLists.error), {};
    }
    var t := new Token(TokenArray, op, ListsValue(subLists.value));
    return Ok(t), parts;
  }

  /** The loop of the array case: one sub-list an element, in order. */
  method TokenizeItems(items: seq<Json>) returns (r: Result<seq<TokenList>, Error>, ghost parts: set<object>)
    ensures fresh(parts)
    ensures match FlattenItems(items)
            case Ok(ls) =>
              && r.Ok? && |r.value| == |ls|
              && forall k | 0 <= k < |ls| :: Below(r.value[k], ls[k].toks, parts)
            case Err(e) => r == Err(e)
    decreases ItemsSize(items), 1
  {
    parts := {};
    var subLists: seq<TokenList> := [];
    ghost var lists: seq<Sub> := [];
    assert items[0..] == items;
    for i := 0 to |items|
      invariant |subLists| == |lists| == i && fresh(parts)
      invariant forall k | 0 <= k < i :: Below(subLists[k], lists[k].toks, parts)
      invariant FlattenItems(items) == Prepend(lists, FlattenItems(items[i..]))
      invariant ItemsSize(items[i..]) <= ItemsSize(items)
    {
      ItemsStep(items, i, lists);
      var subList := TokenizeSubList(items[i]);
      if subList.Err? {
        return Err(subList.error), {};
      }
      subLists := subLists + [subList.value];
      lists := lists + [Sub(FlattenObject(items[i]).value)];
      parts := parts + subList.value.Repr;
    }
    return Ok(subLists), parts;
  }

  /** One turn of the loop of Tokenize: a field and its operator object. */
  method AppendField(tl: TokenList, field: Member) returns (r: Result<(), Error>)
    requires tl.Valid()
    modifies tl.Repr
    ensures tl.Valid() && fresh(tl.Repr - old(tl.Repr))
    ensures var ops := AsObject(field.value);
            match ops
            case Err(e) => r == Err(e)
            case Ok(ms) =>
              var l := FlattenOps(ms);
              if l.Err? then r == Err(l.error)
              else r.Ok? && tl.toks == old(tl.toks) + ([FieldTok(field.key)] + l.value)
  {
    var fieldTok := new Token(TokenField, field.key, NoValue);
    tl.Append(fieldTok, FieldTok(field.key), {});
    var ops := AsObject(field.value);
    if ops.Err? {
      return Err(ops.error);
    }
    r := AppendOps(tl, ops.value);
  }

  method Tokenize(root: Json) returns (r: Result<TokenList, Error>)
    ensures Flatten(root).Ok? ==>
              r.Ok? && fresh(r.value) && fresh(r.value.Repr) && r.value.Valid()
              && r.value.toks == Flatten(root).value
    ensures Flatten(root).Err? ==> r == Err(Flatten(root).error)
  {
    var obj := AsObject(root);
    if obj.Err? {
      return Err(obj.error);
    }
    var fields := obj.value;
    var tl := new TokenList();
    assert fields[0..] == fields;
    for i := 0 to |fields|
      invariant fresh(tl) && fresh(tl.Repr) && tl.Valid()
      invariant FlattenFields(fields) == Prepend(tl.toks, FlattenFields(fields[i..]))
    {
      FieldsStep(fields, i, tl.toks);
      var done := AppendField(tl, fields[i]);
      if done.Err? {
        return Err(done.error);
      }
    }
    return Ok(tl);
  }
}
