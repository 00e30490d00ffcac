/** The iteration order of decoded objects does not matter. */
module FilterOrder {
  import opened Wrappers
  import opened FilterJson
  import opened FilterTokens
  import opened FilterWalk
  import opened FilterSql
  import opened SqlSemantics
  import opened FilterMatch
  import opened FilterMeaning

  /** Both fail, or both give the same truth value. */
  ghost predicate Agree(a: Result<bool, Error>, b: Result<bool, Error>) {
    a.Ok? == b.Ok? && (a.Ok? ==> a.value == b.value)
  }

  /** The leaves do not depend on the order of objects inside a value. */
  ghost predicate Respects(b: Backend<bool>) {
    && b.combiner == BOOL_COMBINER
    && forall f, o, v, w :: Same(v, w) ==> Agree(b.mapper(f, o, v), b.mapper(f, o, w))
  }

  /** What one member of an object contributes. */
  type Part = Member -> Result<bool, Error>

  ghost predicate AllOk(ms: seq<Member>, d: Part) {
    forall i | 0 <= i < |ms| :: d(ms[i]).Ok?
  }

  ghost predicate AllTrue(ms: seq<Member>, d: Part) {
    forall i | 0 <= i < |ms| :: d(ms[i]) == Ok(true)
  }

  function OpPart(field: string, b: Backend<bool>): Part {
    (m: Member) => DenoteOp(field, m.key, m.value, b)
  }

  function FieldPart(b: Backend<bool>): Part {
    (m: Member) => DenoteObject(m.key, m.value, b)
  }

  lemma AllCons(ms: seq<Member>, d: Part)
    requires ms != []
    ensures AllOk(ms, d) <==> d(ms[0]).Ok? && AllOk(ms[1..], d)
    ensures AllTrue(ms, d) <==> d(ms[0]) == Ok(true) && AllTrue(ms[1..], d)
  {
    assert forall i | 0 < i < |ms| :: ms[i] == ms[1..][i - 1];
    assert forall i | 0 <= i < |ms[1..]| :: ms[1..][i] == ms[i + 1];
  }

  lemma AndAllCons(q: bool, qs: seq<bool>)
    ensures AndAll([q] + qs) <==> q && AndAll(qs)
  {
    assert ([q] + qs)[0] == q && forall i | 0 <= i < |qs| :: ([q] + qs)[i + 1] == qs[i];
  }

  /** A conjunction is decided member by member. */
  lemma {:induction false} OpsMemberwise(field: string, ops: seq<Member>, b: Backend<bool>)
    ensures var r := DenoteOps(field, ops, b);
            && (r.Ok? <==> AllOk(ops, OpPart(field, b)))
            && (r.Ok? ==> |r.value| == |ops| && (AndAll(r.value) <==> AllTrue(ops, OpPart(field, b))))
    decreases |ops|
  {
    if ops != [] {
      OpsMemberwise(field, ops[1..], b);
      AllCons(ops, OpPart(field, b));
      var q, qs := DenoteOp(field, ops[0].key, ops[0].value, b), DenoteOps(field, ops[1..], b);
      if q.Ok? && qs.Ok? {
        AndAllCons(q.value, qs.value);
      }
    }
  }

  lemma ObjectMemberwise(field: string, j: Json, b: Backend<bool>)
    requires AsObject(j).Ok? && b.combiner == BOOL_COMBINER
    ensures var r, ops := DenoteObject(field, j, b), AsObject(j).value;
            && (r.Ok? <==> ops != [] && AllOk(ops, OpPart(field, b)))
            && (r.Ok? ==> (r.value <==> AllTrue(ops, OpPart(field, b))))
  {
    var ops := AsObject(j).value;
    OpsMemberwise(field, ops, b);
    var qs := DenoteOps(field, ops, b);
    if qs.Ok? && |ops| == 1 {
      assert qs.value == [qs.value[0]] + [];
      AndAllCons(qs.value[0], []);
    }
  }

  lemma {:induction false} FieldsMemberwise(fields: seq<Member>, b: Backend<bool>)
    ensures var r := TreeMeaning(Object(fields), b);
            && (r.Ok? <==> AllOk(fields, FieldPart(b)))
            && (r.Ok? ==> (r.value <==> AllTrue(fields, FieldPart(b))))
    decreases |fields|
  {
    if fields != [] {
      FieldsMemberwise(fields[1..], b);
      AllCons(fields, FieldPart(b));
      var q, qs := DenoteObject(fields[0].key, fields[0].value, b), Denote(fields[1..], b);
      if q.Ok? && qs.Ok? {
        AndAllCons(q.value, qs.value);
      }
    }
  }

  /** Objects with the same members agree on whether all succeed and all hold. */
  lemma Transfer(xs: seq<Member>, ys: seq<Member>, d: Part)
    requires SameMembers(xs, ys)
    requires forall x, y | x in xs && y in ys && SameMember(x, y) :: Agree(d(x), d(y))
    ensures xs == [] <==> ys == []
    ensures AllOk(xs, d) <==> AllOk(ys, d)
    ensures AllTrue(xs, d) <==> AllTrue(ys, d)
  {
    forall i | 0 <= i < |xs|
      ensures ys != [] && (AllOk(ys, d) ==> d(xs[i]).Ok?) && (AllTrue(ys, d) ==> d(xs[i]) == Ok(true))
    {
      assert Partner(xs[i], ys);
      var y :| y in ys && SameMember(xs[i], y);
    }
    forall j | 0 <= j < |ys|
      ensures xs != [] && (AllOk(xs, d) ==> d(ys[j]).Ok?) && (AllTrue(xs, d) ==> d(ys[j]) == Ok(true))
    {
      assert PartnerOf(xs, ys[j]);
      var x :| x in xs && SameMember(x, ys[j]);
    }
    assert xs != [] ==> xs[0] in xs && ys != [];
    assert ys != [] ==> ys[0] in ys && xs != [];
  }

  lemma MemberSize(ms: seq<Member>, i: nat)
    requires i < |ms|
    ensures Size(ms[i].value) < MembersSize(ms)
  {
    if i > 0 {
      MemberSize(ms[1..], i - 1);
    }
  }

  lemma {:induction false} ObjectOrder(field: string, x: Json, y: Json, b: Backend<bool>)
    requires Same(x, y) && Respects(b)
    ensures Agree(DenoteObject(field, x, b), DenoteObject(field, y, b))
    decreases Size(x), 0
  {
    if x.Object? && y.Object? {
      var xs, ys := x.members, y.members;
      ObjectMemberwise(field, x, b);
      ObjectMemberwise(field, y, b);
      forall x, y | x in xs && y in ys && SameMember(x, y)
        ensures Agree(OpPart(field, b)(x), OpPart(field, b)(y))
      {
        var i :| 0 <= i < |xs| && xs[i] == x;
        MemberSize(xs, i);
        OpOrder(field, x.key, x.value, y.value, b);
      }
      Transfer(xs, ys, OpPart(field, b));
    }
  }

  lemma {:induction false} OpOrder(field: string, op: string, v: Json, w: Json, b: Backend<bool>)
    requires Same(v, w) && Respects(b)
    ensures Agree(DenoteOp(field, op, v, b), DenoteOp(field, op, w, b))
    decreases Size(v), 1
  {
    match Kind(op)
    case Leaf =>
    case Not => ObjectOrder(field, v, w, b);
    case _ =>
      if v.Array? && w.Array? {
        ItemsOrder(field, v.items, w.items, b);
      }
  }

  lemma {:induction false} ItemsOrder(field: string, xs: seq<Json>, ys: seq<Json>, b: Backend<bool>)
    requires |xs| == |ys| && (forall i | 0 <= i < |xs| :: Same(xs[i], ys[i])) && Respects(b)
    ensures var r, s := DenoteItems(field, xs, b), DenoteItems(field, ys, b);
            r.Ok? == s.Ok? && (r.Ok? ==> r.value == s.value)
    decreases ItemsSize(xs), 0
  {
    if xs != [] {
      assert Same(xs[0], ys[0]);
      ObjectOrder(field, xs[0], ys[0], b);
      ItemsOrder(field, xs[1..], ys[1..], b);
    }
  }

  /** The whole filter means the same, or fails alike, in whichever order its objects are iterated. */
  lemma TreeOrder(x: Json, y: Json, b: Backend<bool>)
    requires Same(x, y) && Respects(b)
    ensures Agree(TreeMeaning(x, b), TreeMeaning(y, b))
  {
    if x.Object? && y.Object? {
      var xs, ys := x.members, y.members;
      FieldsMemberwise(xs, b);
      FieldsMemberwise(ys, b);
      forall x, y | x in xs && y in ys && SameMember(x, y)
        ensures Agree(FieldPart(b)(x), FieldPart(b)(y))
      {
        ObjectOrder(x.key, x.value, y.value, b);
      }
      Transfer(xs, ys, FieldPart(b));
    }
  }

  // ----- What both back ends make of it -----

  lemma LeafRespects(fm: FieldSpecMap, I: Interp)
    ensures Respects(LeafBackend(fm, I))
  {
    forall f, o, v, w | Same(v, w)
      ensures Agree(LeafBackend(fm, I).mapper(f, o, v), LeafBackend(fm, I).mapper(f, o, w))
    {
      ScalarOrder(v, w);
    }
  }

  lemma RowRespects(row: Row, fm: FieldSpecMap, cmp: Compare)
    ensures Respects(RowBackend(row, fm, cmp))
  {
    forall f, o, v, w | Same(v, w)
      ensures Agree(RowBackend(row, fm, cmp).mapper(f, o, v), RowBackend(row, fm, cmp).mapper(f, o, w))
    {
      ScalarOrder(v, w);
    }
  }

  lemma ScalarOrder(v: Json, w: Json)
    requires Same(v, w)
    ensures ScalarString(v) == ScalarString(w)
  {
  }

  /** A filter Tokenize rejects has no meaning in any back end. */
  lemma {:induction false} FlattenFails<Q>(fields: seq<Member>, b: Backend<Q>)
    ensures FlattenFields(fields).Err? ==> Denote(fields, b).Err?
    decreases |fields|
  {
    if fields != [] {
      ObjectFails(fields[0].key, fields[0].value, b);
      FlattenFails(fields[1..], b);
    }
  }

  lemma {:induction false} ObjectFails<Q>(field: string, j: Json, b: Backend<Q>)
    ensures FlattenObject(j).Err? ==> DenoteObject(field, j, b).Err?
    decreases Size(j), 0
  {
    if AsObject(j).Ok? {
      OpsFail(field, AsObject(j).value, b);
    }
  }

  lemma {:induction false} OpsFail<Q>(field: string, ops: seq<Member>, b: Backend<Q>)
    ensures FlattenOps(ops).Err? ==> DenoteOps(field, ops, b).Err?
    decreases MembersSize(ops), 0
  {
    if ops != [] {
      OpFails(field, ops[0].key, ops[0].value, b);
      OpsFail(field, ops[1..], b);
    }
  }

  lemma {:induction false} OpFails<Q>(field: string, op: string, j: Json, b: Backend<Q>)
    ensures FlattenValue(op, j).Err? ==> DenoteOp(field, op, j, b).Err?
    decreases Size(j), 1
  {
    match Kind(op)
    case Leaf =>
    case Not => ObjectFails(field, j, b);
    case _ =>
      if AsArray(j).Ok? {
        ItemsFail(field, AsArray(j).value, b);
      }
  }

  lemma {:induction false} ItemsFail<Q>(field: string, items: seq<Json>, b: Backend<Q>)
    ensures FlattenItems(items).Err? ==> DenoteItems(field, items, b).Err?
    decreases ItemsSize(items), 0
  {
    if items != [] {
      ObjectFails(field, items[0], b);
      ItemsFail(field, items[1..], b);
    }
  }

  // Empty logical arrays are found in whichever order the members are looked at.

  lemma {:induction false} NoEmptyMemberwise(ops: seq<Member>)
    ensures OpsNoEmptyArrays(ops) <==> AllTrue(ops, NoEmptyPart())
    decreases |ops|
  {
    if ops != [] {
      NoEmptyMemberwise(ops[1..]);
      AllCons(ops, NoEmptyPart());
    }
  }

  function NoEmptyPart(): Part {
    (m: Member) => Ok(OpNoEmptyArrays(m.key, m.value))
  }

  function NoEmptyFieldPart(): Part {
    (m: Member) => Ok(NoEmptyArrays(m.value))
  }

  lemma {:induction false} NoEmptyObjectOrder(x: Json, y: Json)
    requires Same(x, y)
    ensures NoEmptyArrays(x) == NoEmptyArrays(y)
    decreases Size(x), 0
  {
    if x.Object? && y.Object? {
      var xs, ys := x.members, y.members;
      NoEmptyMemberwise(xs);
      NoEmptyMemberwise(ys);
      forall x, y | x in xs && y in ys && SameMember(x, y)
        ensures NoEmptyPart()(x) == NoEmptyPart()(y)
      {
        var i :| 0 <= i < |xs| && xs[i] == x;
        MemberSize(xs, i);
        NoEmptyOpOrder(x.key, x.value, y.value);
      }
      Transfer(xs, ys, NoEmptyPart());
    }
  }

  lemma {:induction false} NoEmptyOpOrder(op: string, v: Json, w: Json)
    requires Same(v, w)
    ensures OpNoEmptyArrays(op, v) == OpNoEmptyArrays(op, w)
    decreases Size(v), 1
  {
    match Kind(op)
    case Leaf =>
    case Not => NoEmptyObjectOrder(v, w);
    case _ =>
      if v.Array? && w.Array? {
        NoEmptyItemsOrder(v.items, w.items);
      }
  }

  lemma {:induction false} NoEmptyItemsOrder(xs: seq<Json>, ys: seq<Json>)
    requires |xs| == |ys| && forall i | 0 <= i < |xs| :: Same(xs[i], ys[i])
    ensures ItemsNoEmptyArrays(xs) == ItemsNoEmptyArrays(ys)
    decreases ItemsSize(xs), 0
  {
    if xs != [] {
      assert Same(xs[0], ys[0]);
      NoEmptyObjectOrder(xs[0], ys[0]);
      NoEmptyItemsOrder(xs[1..], ys[1..]);
    }
  }

  lemma {:induction false} NoEmptyFieldsMemberwise(fields: seq<Member>)
    ensures FieldsNoEmptyArrays(fields) <==> AllTrue(fields, NoEmptyFieldPart())
    decreases |fields|
  {
    if fields != [] {
      NoEmptyFieldsMemberwise(fields[1..]);
      AllCons(fields, NoEmptyFieldPart());
    }
  }

  lemma NoEmptyFieldsOrder(xs: seq<Member>, ys: seq<Member>)
    requires SameMembers(xs, ys)
    ensures FieldsNoEmptyArrays(xs) == FieldsNoEmptyArrays(ys)
  {
    NoEmptyFieldsMemberwise(xs);
    NoEmptyFieldsMemberwise(ys);
    forall x, y | x in xs && y in ys && SameMember(x, y)
      ensures NoEmptyFieldPart()(x) == NoEmptyFieldPart()(y)
    {
      NoEmptyObjectOrder(x.value, y.value);
    }
    Transfer(xs, ys, NoEmptyFieldPart());
  }

  // Whether Tokenize accepts a filter is found member by member, too.

  function FlattenPart(): Part {
    (m: Member) => Ok(FlattenValue(m.key, m.value).Ok?)
  }

  function FlattenFieldPart(): Part {
    (m: Member) => Ok(FlattenObject(m.value).Ok?)
  }

  lemma {:induction false} FlattenMemberwise(ops: seq<Member>)
    ensures FlattenOps(ops).Ok? <==> AllTrue(ops, FlattenPart())
    decreases |ops|
  {
    if ops != [] {
      FlattenMemberwise(ops[1..]);
      AllCons(ops, FlattenPart());
    }
  }

  lemma {:induction false} FlattenFieldsMemberwise(fields: seq<Member>)
    ensures FlattenFields(fields).Ok? <==> AllTrue(fields, FlattenFieldPart())
    ensures FlattenFields(fields).Ok? ==> (FlattenFields(fields).value == [] <==> fields == [])
    decreases |fields|
  {
    if fields != [] {
      FlattenFieldsMemberwise(fields[1..]);
      AllCons(fields, FlattenFieldPart());
    }
  }

  lemma {:induction false} FlattenObjectOrder(x: Json, y: Json)
    requires Same(x, y)
    ensures FlattenObject(x).Ok? == FlattenObject(y).Ok?
    decreases Size(x), 0
  {
    if x.Object? && y.Object? {
      var xs, ys := x.members, y.members;
      FlattenMemberwise(xs);
      FlattenMemberwise(ys);
      forall x, y | x in xs && y in ys && SameMember(x, y)
        ensures FlattenPart()(x) == FlattenPart()(y)
      {
        var i :| 0 <= i < |xs| && xs[i] == x;
        MemberSize(xs, i);
        FlattenValueOrder(x.key, x.value, y.value);
      }
      Transfer(xs, ys, FlattenPart());
    }
  }

  lemma {:induction false} FlattenValueOrder(op: string, v: Json, w: Json)
    requires Same(v, w)
    ensures FlattenValue(op, v).Ok? == FlattenValue(op, w).Ok?
    decreases Size(v), 1
  {
    match Kind(op)
    case Leaf =>
    case Not => FlattenObjectOrder(v, w);
    case _ =>
      if v.Array? && w.Array? {
        FlattenItemsOrder(v.items, w.items);
      }
  }

  lemma {:induction false} FlattenItemsOrder(xs: seq<Json>, ys: seq<Json>)
    requires |xs| == |ys| && forall i | 0 <= i < |xs| :: Same(xs[i], ys[i])
    ensures FlattenItems(xs).Ok? == FlattenItems(ys).Ok?
    decreases ItemsSize(xs), 0
  {
    if xs != [] {
      assert Same(xs[0], ys[0]);
      FlattenObjectOrder(xs[0], ys[0]);
      FlattenItemsOrder(xs[1..], ys[1..]);
    }
  }

  /** Tokenize accepts both or neither, and leaves both without conditions or neither. */
  lemma FlattenOrder(x: Json, y: Json)
    requires Same(x, y)
    ensures Flatten(x).Ok? == Flatten(y).Ok?
    ensures Flatten(x).Ok? ==> (Flatten(x).value == [] <==> Flatten(y).value == [])
  {
    if x.Object? && y.Object? {
      var xs, ys := x.members, y.members;
      FlattenFieldsMemberwise(xs);
      FlattenFieldsMemberwise(ys);
      forall x, y | x in xs && y in ys && SameMember(x, y)
        ensures FlattenFieldPart()(x) == FlattenFieldPart()(y)
      {
        FlattenObjectOrder(x.value, y.value);
      }
      Transfer(xs, ys, FlattenFieldPart());
    }
  }

  /** BuildWhere accepts a filter exactly when its tree has a meaning. */
  lemma WhereAccepts(root: Json, fm: FieldSpecMap, I: Interp)
    ensures WhereOf(Parsed(root), fm).Ok? <==> TreeMeaning(root, LeafBackend(fm, I)).Ok?
  {
    if Flatten(root).Ok? {
      WhereMeansTree(root, fm, I);
    } else if AsObject(root).Ok? {
      FlattenFails(AsObject(root).value, LeafBackend(fm, I));
    }
  }

  lemma WhereOrder(x: Json, y: Json, fm: FieldSpecMap, I: Interp)
    requires Same(x, y)
    ensures var p, q := WhereOf(Parsed(x), fm), WhereOf(Parsed(y), fm);
            p.Ok? == q.Ok? && (p.Ok? ==> Execute(p.value, I) == Execute(q.value, I))
  {
    LeafRespects(fm, I);
    TreeOrder(x, y, LeafBackend(fm, I));
    WhereAccepts(x, fm, I);
    WhereAccepts(y, fm, I);
    if WhereOf(Parsed(x), fm).Ok? {
      WhereMeansTree(x, fm, I);
      WhereMeansTree(y, fm, I);
      if x.Object? && y.Object? {
        NoEmptyFieldsOrder(x.members, y.members);
      }
    }
  }

  lemma VerdictOrder(x: Json, y: Json, fm: FieldSpecMap, row: Row, cmp: Compare)
    requires Same(x, y) && Flatten(x).Ok? && Flatten(y).Ok?
    ensures Agree(Verdict(Flatten(x).value, row, fm, cmp), Verdict(Flatten(y).value, row, fm, cmp))
  {
    RowRespects(row, fm, cmp);
    TreeOrder(x, y, RowBackend(row, fm, cmp));
    WalkOfFlatten(AsObject(x).value, RowBackend(row, fm, cmp));
    WalkOfFlatten(AsObject(y).value, RowBackend(row, fm, cmp));
  }

  /** Both fail, or both give the same rows. */
  predicate SameRows<T(==)>(a: Result<seq<T>, Error>, b: Result<seq<T>, Error>) {
    a.Ok? == b.Ok? && (a.Ok? ==> a.value == b.value)
  }

  lemma {:induction false} SelectOrder<T>(x: Json, y: Json, fm: FieldSpecMap, rows: seq<T>, render: T -> Row, cmp: Compare)
    requires Same(x, y) && Flatten(x).Ok? && Flatten(y).Ok?
    ensures SameRows(Select(rows, render, Flatten(x).value, fm, cmp), Select(rows, render, Flatten(y).value, fm, cmp))
    decreases |rows|
  {
    if rows != [] {
      VerdictOrder(x, y, fm, render(rows[0]), cmp);
      SelectOrder(x, y, fm, rows[1..], render, cmp);
    }
  }

  /** The order in which the decoded maps are iterated, at any depth, decides neither whether BuildWhere
      accepts the filter nor which rows its query selects, nor whether Match accepts it on a list of
      rows, empty or not, nor which of them it keeps. */
  lemma IterationOrderIsImmaterial<T>(x: Json, y: Json, fm: FieldSpecMap, I: Interp, rows: seq<T>, render: T -> Row,
                                      cmp: Compare)
    requires Same(x, y)
    ensures var p, q := WhereOf(Parsed(x), fm), WhereOf(Parsed(y), fm);
            p.Ok? == q.Ok? && (p.Ok? ==> Execute(p.value, I) == Execute(q.value, I))
    ensures SameRows(MatchOf(Parsed(x), rows, render, fm, cmp), MatchOf(Parsed(y), rows, render, fm, cmp))
  {
    WhereOrder(x, y, fm, I);
    FlattenOrder(x, y);
    if Flatten(x).Ok? {
      SelectOrder(x, y, fm, rows, render, cmp);
    }
  }
}
