/** The virtual "subject" field of access-rule filters (internal/db/sql_repository.go): a "type:id"
    value compiled onto two columns and ANDed to the rest of the filter. */
module AccessFilter {
  import opened Wrappers
  import opened FilterJson
  import opened FilterTokens
  import opened FilterSql
  import opened SqlSemantics
  import opened FilterMatch
  import opened FilterMeaning

  const SUBJECT := "subject"
  const TYPE_COLUMN := Template("type", Equals)
  const SUBJECT_ID_COLUMN := Template("subject_id", Equals)

  // ----- Splitting the subject entry out -----

  function Lookup(ms: seq<Member>, key: string): Option<Json> {
    if ms == [] then None
    else if ms[0].key == key then Some(ms[0].value)
    else Lookup(ms[1..], key)
  }

  function Delete(ms: seq<Member>, key: string): seq<Member> {
    if ms == [] then []
    else if ms[0].key == key then Delete(ms[1..], key)
    else [ms[0]] + Delete(ms[1..], key)
  }

  /** The filter without its subject entry, and that entry. What is not an object passes through. */
  function SplitSubject(raw: RawFilter): (RawFilter, Option<Json>) {
    if !raw.Parsed? || AsObject(raw.root).Err? then (raw, None)
    else
      var obj := AsObject(raw.root).value;
      var subject := Lookup(obj, SUBJECT);
      if subject.None? then (raw, None)
      else
        var rest := Delete(obj, SUBJECT);
        (if rest == [] then NoFilter else Parsed(Object(rest)), subject)
  }

  // ----- Compiling the subject expression -----

  function Colon(s: string): (i: nat)
    ensures i <= |s| && (i < |s| ==> s[i] == ':') && (forall k | 0 <= k < i :: s[k] != ':')
  {
    if s == "" || s[0] == ':' then 0 else 1 + Colon(s[1..])
  }

  /** The type and the id of a "type:id" string, both non-empty. */
  function TypeAndId(val: Json): Result<(string, string), Error> {
    if !val.Text? then Err(BadSubject)
    else
      var sep := Colon(val.s);
      if sep == 0 || sep + 1 >= |val.s| then Err(BadSubject)
      else Ok((val.s[..sep], val.s[sep + 1..]))
  }

  function EqTerm(t: string, id: string): Condition {
    JoinGroup([Condition([LeafLex(TYPE_COLUMN)], [t]), Condition([LeafLex(SUBJECT_ID_COLUMN)], [id])], KwAnd)
  }

  /** The one operator of a subject expression. */
  function OnlyOperator(expr: Json): (r: Result<Member, Error>)
    ensures r.Ok? ==> Size(r.value.value) < Size(expr)
  {
    if AsObject(expr).Err? || |AsObject(expr).value| != 1 then Err(BadSubject)
    else
      MemberOfObject(expr);
      Ok(AsObject(expr).value[0])
  }

  lemma MemberOfObject(j: Json)
    requires AsObject(j).Ok? && AsObject(j).value != []
    ensures Size(AsObject(j).value[0].value) < Size(j)
  {
  }

  function NonEmptyArray(val: Json): (r: Result<seq<Json>, Error>)
    ensures r.Ok? ==> ItemsSize(r.value) < Size(val) && r.value != []
  {
    if AsArray(val).Err? || AsArray(val).value == [] then Err(BadSubject) else AsArray(val)
  }

  function SubjectSql(expr: Json): Result<Condition, Error>
    decreases Size(expr)
  {
    var m :- OnlyOperator(expr);
    if Lower(m.key) == OP_EQ then
      var p :- TypeAndId(m.value);
      Ok(EqTerm(p.0, p.1))
    else match Kind(m.key)
      case Leaf => Err(BadSubject)
      case Not =>
        var inner :- SubjectSql(m.value);
        Ok(NotPrefix(inner))
      case k =>
        var items :- NonEmptyArray(m.value);
        var parts :- SubjectParts(items);
        var joined := JoinGroup(parts, if k == And then KwAnd else KwOr);
        Ok(if k == Nor then NotPrefix(joined) else joined)
  }

  function SubjectParts(items: seq<Json>): Result<seq<Condition>, Error>
    decreases ItemsSize(items)
  {
    if items == [] then Ok([])
    else
      var part :- SubjectSql(items[0]);
      Prepend([part], SubjectParts(items[1..]))
  }

  /** buildSubjectWhere and subjectLogical, the latter with its loop over the array. */
  method BuildSubjectWhere(expr: Json) returns (r: Result<Condition, Error>)
    ensures r == SubjectSql(expr)
    decreases Size(expr), 0
  {
    var m := OnlyOperator(expr);
    if m.Err? {
      return Err(m.error);
    }
    if Lower(m.value.key) == OP_EQ {
      var p := TypeAndId(m.value.value);
      return if p.Err? then Err(p.error) else Ok(EqTerm(p.value.0, p.value.1));
    }
    match Kind(m.value.key)
    case Leaf =>
      return Err(BadSubject);
    case Not =>
      var inner := BuildSubjectWhere(m.value.value);
      return if inner.Err? then inner else Ok(NotPrefix(inner.value));
    case k =>
      var items := NonEmptyArray(m.value.value);
      if items.Err? {
        return Err(items.error);
      }
      r := SubjectLogical(k, items.value);
  }

  method SubjectLogical(k: OpKind, items: seq<Json>) returns (r: Result<Condition, Error>)
    requires k in {And, Or, Nor}
    ensures match SubjectParts(items)
            case Err(e) => r == Err(e)
            case Ok(parts) =>
              var joined := JoinGroup(parts, if k == And then KwAnd else KwOr);
              r == Ok(if k == Nor then NotPrefix(joined) else joined)
    decreases ItemsSize(items), 1
  {
    var parts: seq<Condition> := [];
    assert items[0..] == items;
    for i := 0 to |items|
      invariant SubjectParts(items) == Prepend(parts, SubjectParts(items[i..]))
      invariant ItemsSize(items[i..]) <= ItemsSize(items)
    {
      assert items[i..][0] == items[i] && items[i..][1..] == items[i + 1..];
      var part := BuildSubjectWhere(items[i]);
      if part.Err? {
        return Err(part.error);
      }
      PrependPrepend(parts, [part.value], SubjectParts(items[i + 1..]));
      parts := parts + [part.value];
    }
    assert parts + [] == parts;
    var joined := JoinGroupLoop(parts, if k == And then KwAnd else KwOr);
    return Ok(if k == Nor then NotPrefix(joined) else joined);
  }

  // ----- The tree the text parses back to, and its meaning -----

  function SubjectTree(expr: Json): Result<Expr, Error>
    decreases Size(expr)
  {
    var m :- OnlyOperator(expr);
    if Lower(m.key) == OP_EQ then
      var p :- TypeAndId(m.value);
      Ok(All([Atom(TYPE_COLUMN, p.0), Atom(SUBJECT_ID_COLUMN, p.1)]))
    else match Kind(m.key)
      case Leaf => Err(BadSubject)
      case Not =>
        var inner :- SubjectTree(m.value);
        Ok(Neg(inner))
      case k =>
        var items :- NonEmptyArray(m.value);
        var es :- SubjectTrees(items);
        if es == [] then Err(BadSubject)
        else Ok(if k == Nor then Neg(Single(es, KwOr)) else Single(es, if k == And then KwAnd else KwOr))
  }

  function SubjectTrees(items: seq<Json>): (r: Result<seq<Expr>, Error>)
    decreases ItemsSize(items)
  {
    if items == [] then Ok([])
    else
      var e :- SubjectTree(items[0]);
      Prepend([e], SubjectTrees(items[1..]))
  }

  /** A subject expression is a boolean combination of "is this subject" tests. */
  function SubjectMeaning(expr: Json, subjectIs: (string, string) -> bool): Result<bool, Error>
    decreases Size(expr)
  {
    var m :- OnlyOperator(expr);
    if Lower(m.key) == OP_EQ then
      var p :- TypeAndId(m.value);
      Ok(subjectIs(p.0, p.1))
    else match Kind(m.key)
      case Leaf => Err(BadSubject)
      case Not =>
        var inner :- SubjectMeaning(m.value, subjectIs);
        Ok(!inner)
      case k =>
        var items :- NonEmptyArray(m.value);
        var vs :- SubjectMeanings(items, subjectIs);
        Ok(if k == And then AndAll(vs) else if k == Or then OrAny(vs) else !OrAny(vs))
  }

  function SubjectMeanings(items: seq<Json>, subjectIs: (string, string) -> bool): Result<seq<bool>, Error>
    decreases ItemsSize(items)
  {
    if items == [] then Ok([])
    else
      var v :- SubjectMeaning(items[0], subjectIs);
      Prepend([v], SubjectMeanings(items[1..], subjectIs))
  }

  /** The text of a subject expression, chains of NOT included, parses back to its tree. */
  lemma {:induction false} SubjectParses(expr: Json)
    ensures match SubjectSql(expr)
            case Ok(c) => SubjectTree(expr).Ok? && Operand(c, SubjectTree(expr).value)
            case Err(e) => SubjectTree(expr) == Err(e)
    decreases Size(expr), 0
  {
    var m := OnlyOperator(expr);
    if m.Ok? {
      if Lower(m.value.key) == OP_EQ {
        var p := TypeAndId(m.value.value);
        if p.Ok? {
          LeafOperand(TYPE_COLUMN, p.value.0);
          LeafOperand(SUBJECT_ID_COLUMN, p.value.1);
          GroupOperand([Condition([LeafLex(TYPE_COLUMN)], [p.value.0]), Condition([LeafLex(SUBJECT_ID_COLUMN)], [p.value.1])],
            [Atom(TYPE_COLUMN, p.value.0), Atom(SUBJECT_ID_COLUMN, p.value.1)], KwAnd);
        }
      } else {
        match Kind(m.value.key)
        case Leaf =>
        case Not =>
          SubjectParses(m.value.value);
          var inner := SubjectSql(m.value.value);
          if inner.Ok? {
            NegOperand(inner.value, SubjectTree(m.value.value).value);
          }
        case k =>
          var items := NonEmptyArray(m.value.value);
          if items.Ok? {
            SubjectPartsParse(items.value);
            var parts := SubjectParts(items.value);
            if parts.Ok? {
              var es := SubjectTrees(items.value).value;
              var sep := if k == And then KwAnd else KwOr;
              GroupOperand(parts.value, es, sep);
              NegOperand(JoinGroup(parts.value, sep), Single(es, sep));
            }
          }
      }
    }
  }

  lemma {:induction false} SubjectPartsParse(items: seq<Json>)
    ensures match SubjectParts(items)
            case Ok(cs) =>
              var es := SubjectTrees(items);
              && es.Ok? && |es.value| == |cs| == |items|
              && forall i | 0 <= i < |cs| :: Operand(cs[i], es.value[i])
            case Err(e) => SubjectTrees(items) == Err(e)
    decreases ItemsSize(items), 0
  {
    if items != [] {
      SubjectParses(items[0]);
      SubjectPartsParse(items[1..]);
    }
  }

  /** "This rule's subject": what a row's two columns say together. */
  function Is(I: Interp): (string, string) -> bool {
    (t, id) => I(Template("type", Equals), t) && I(Template("subject_id", Equals), id)
  }

  lemma EqMeaning(t: string, id: string, I: Interp)
    ensures Eval(All([Atom(TYPE_COLUMN, t), Atom(SUBJECT_ID_COLUMN, id)]), I) == Is(I)(t, id)
  {
    var es := [Atom(TYPE_COLUMN, t), Atom(SUBJECT_ID_COLUMN, id)];
    assert Eval(es[0], I) == I(TYPE_COLUMN, t) && Eval(es[1], I) == I(SUBJECT_ID_COLUMN, id);
    assert Eval(All(es), I) <==> Eval(es[0], I) && Eval(es[1], I);
  }

  lemma {:induction false} SubjectTreeMeaning(expr: Json, I: Interp)
    ensures match SubjectTree(expr)
            case Ok(e) => SubjectMeaning(expr, Is(I)) == Ok(Eval(e, I))
            case Err(f) => SubjectMeaning(expr, Is(I)) == Err(f)
    decreases Size(expr), 0
  {
    var m := OnlyOperator(expr);
    if m.Ok? {
      if Lower(m.value.key) == OP_EQ {
        var p := TypeAndId(m.value.value);
        if p.Ok? {
          EqMeaning(p.value.0, p.value.1, I);
        }
      } else {
        match Kind(m.value.key)
        case Leaf =>
        case Not => SubjectTreeMeaning(m.value.value, I);
        case k =>
          var items := NonEmptyArray(m.value.value);
          if items.Ok? {
            SubjectTreesMeaning(items.value, I);
          }
      }
    }
  }

  lemma {:induction false} SubjectTreesMeaning(items: seq<Json>, I: Interp)
    ensures match SubjectTrees(items)
            case Ok(es) =>
              var vs := SubjectMeanings(items, Is(I));
              && vs.Ok? && |vs.value| == |es| == |items|
              && forall i | 0 <= i < |es| :: vs.value[i] == Eval(es[i], I)
            case Err(f) => SubjectMeanings(items, Is(I)) == Err(f)
    decreases ItemsSize(items), 0
  {
    if items != [] {
      SubjectTreeMeaning(items[0], I);
      SubjectTreesMeaning(items[1..], I);
    }
  }

  // ----- The combined filter -----

  function AccessWhere(raw: RawFilter, fm: FieldSpecMap): Result<Condition, Error> {
    var (rest, subject) := SplitSubject(raw);
    var where :- WhereOf(rest, fm);
    if subject.None? then Ok(where)
    else
      var subj :- SubjectSql(subject.value);
      Ok(Joined(where, subj))
  }

  function Joined(where: Condition, subj: Condition): Condition {
    if where.sql == [] then Condition(subj.sql, where.args + subj.args)
    else Condition([LParen] + (where.sql + ([KwAnd] + subj.sql) + [RParen]), where.args + subj.args)
  }

  method AppendAccessFilter(raw: RawFilter, fm: FieldSpecMap) returns (r: Result<Condition, Error>)
    ensures r == AccessWhere(raw, fm)
  {
    var (rest, subject) := SplitSubject(raw);
    var where := BuildWhere(rest, fm);
    if where.Err? || subject.None? {
      return where;
    }
    var subj := BuildSubjectWhere(subject.value);
    if subj.Err? {
      return subj;
    }
    var sql := if where.value.sql == [] then subj.value.sql
               else [LParen] + (where.value.sql + ([KwAnd] + subj.value.sql) + [RParen]);
    return Ok(Condition(sql, where.value.args + subj.value.args));
  }

  function RestMeaning(rest: RawFilter, fm: FieldSpecMap, I: Interp): Result<bool, Error> {
    match rest
    case NoFilter => Ok(true)
    case Malformed => Err(BadJson)
    case Parsed(root) => TreeMeaning(root, LeafBackend(fm, I))
  }

  /** What the filter asks of a row: the remaining filter AND the subject expression. */
  function AccessMeaning(raw: RawFilter, fm: FieldSpecMap, I: Interp): Result<bool, Error> {
    var (rest, subject) := SplitSubject(raw);
    var r :- RestMeaning(rest, fm, I);
    if subject.None? then Ok(r)
    else
      var s :- SubjectMeaning(subject.value, Is(I));
      Ok(r && s)
  }

  /** The fragment of the remaining filter reads as that filter, and is empty when it asks for nothing. */
  lemma RestReads(rest: RawFilter, fm: FieldSpecMap, I: Interp)
    requires WhereOf(rest, fm).Ok?
    ensures RestMeaning(rest, fm, I).Ok?
    ensures var where, v := WhereOf(rest, fm).value, RestMeaning(rest, fm, I).value;
            if where.sql == [] then where == EMPTY && v && FieldsNoEmptyArrays(FieldsOf(rest))
            else Reads(where, if FieldsNoEmptyArrays(FieldsOf(rest)) then Some(v) else None, I)
  {
    if rest.Parsed? && AsObject(rest.root).value != [] {
      WhereReadsTree(rest.root, fm, I);
    }
  }

  lemma SubjectReads(expr: Json, I: Interp) returns (e: Expr)
    requires SubjectSql(expr).Ok?
    ensures Operand(SubjectSql(expr).value, e) && SubjectMeaning(expr, Is(I)) == Ok(Eval(e, I))
  {
    SubjectParses(expr);
    SubjectTreeMeaning(expr, I);
    e := SubjectTree(expr).value;
  }

  /** A fragment that may be empty. */
  ghost predicate ReadsOrAll(where: Condition, v: Option<bool>, I: Interp) {
    if where.sql == [] then where == EMPTY && v == Some(true) else Reads(where, v, I)
  }

  lemma JoinedMeans(where: Condition, subj: Condition, v: Option<bool>, e: Expr, I: Interp)
    requires ReadsOrAll(where, v, I) && Operand(subj, e)
    ensures Execute(Joined(where, subj), I) == if v.Some? then Some(v.value && Eval(e, I)) else None
  {
    if where.sql == [] {
      OperandWhere(subj, e);
      assert [] + subj.args == subj.args;
    } else {
      BothParts(where, subj, v, e, I);
    }
  }

  /** The list query selects exactly the rules that satisfy the remaining filter and the subject when
      no logical array of the remaining filter is empty; otherwise it is not a query at all. */
  lemma SplitMeaning(raw: RawFilter, fm: FieldSpecMap, I: Interp)
    requires AccessWhere(raw, fm).Ok?
    ensures AccessMeaning(raw, fm, I).Ok?
    ensures Execute(AccessWhere(raw, fm).value, I)
            == if FieldsNoEmptyArrays(FieldsOf(SplitSubject(raw).0)) then Some(AccessMeaning(raw, fm, I).value) else None
  {
    var (rest, subject) := SplitSubject(raw);
    var where := WhereOf(rest, fm).value;
    RestReads(rest, fm, I);
    var v := if FieldsNoEmptyArrays(FieldsOf(rest)) then Some(RestMeaning(rest, fm, I).value) else None;
    if subject.Some? {
      var e := SubjectReads(subject.value, I);
      JoinedMeans(where, SubjectSql(subject.value).value, v, e, I);
    } else if where.sql != [] {
      ReadsExecutes(where, v, I);
    }
  }

  /** The rest and the subject, in parentheses and joined by AND. */
  lemma BothParts(a: Condition, b: Condition, v: Option<bool>, f: Expr, I: Interp)
    requires Reads(a, v, I) && Operand(b, f)
    ensures Execute(Condition([LParen] + (a.sql + ([KwAnd] + b.sql) + [RParen]), a.args + b.args), I)
         == if v.Some? then Some(v.value && Eval(f, I)) else None
  {
    if v.Some? {
      var e :| Operand(a, e) && Eval(e, I) == v.value;
      TwoOperands(a, b, e, f, I);
    } else {
      PairGroup(a, b);
      GroupBroken([a, b], [], KwAnd);
      BrokenWhere(JoinGroup([a, b], KwAnd));
    }
  }

  lemma PairGroup(a: Condition, b: Condition)
    ensures JoinGroup([a, b], KwAnd) == Condition([LParen] + (a.sql + ([KwAnd] + b.sql) + [RParen]), a.args + b.args)
  {
    assert JoinSql([a, b], KwAnd) == a.sql + ([KwAnd] + b.sql) by {
      assert JoinSql([b], KwAnd) == b.sql;
    }
    assert JoinArgs([b]) == b.args + [] == b.args;
    assert JoinArgs([a, b]) == a.args + b.args by {
      assert [a, b][1..] == [b];
    }
  }

  lemma TwoOperands(a: Condition, b: Condition, e: Expr, f: Expr, I: Interp)
    requires Operand(a, e) && Operand(b, f)
    ensures Execute(Condition([LParen] + (a.sql + ([KwAnd] + b.sql) + [RParen]), a.args + b.args), I)
         == Some(Eval(e, I) && Eval(f, I))
  {
    var c := Condition([LParen] + (a.sql + ([KwAnd] + b.sql) + [RParen]), a.args + b.args);
    PairGroup(a, b);
    GroupOperand([a, b], [e, f], KwAnd);
    OperandWhere(c, All([e, f]));
    assert [e, f][0] == e && [e, f][1] == f;
  }
}
