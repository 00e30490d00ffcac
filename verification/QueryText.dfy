/** The text of a filter query: every placeholder belongs to the leaf that supplied its argument, and
    leaves and arguments are the comparisons of the JSON tree, in order. */
module QueryText {
  import opened Wrappers
  import opened FilterJson
  import opened FilterWalk
  import opened FilterSimulation
  import opened FilterSql
  import opened FilterMeaning
  import opened AccessFilter
  import opened AccessLaws
  import opened Numerals
  import opened Rebind

  // A comparison is its head, its placeholder and its tail.

  function LeafHead(t: Template): string {
    match t.shape
    case Equals => t.column + " = "
    case LowerEquals => "LOWER(" + t.column + ") = LOWER("
    case Like => t.column + " LIKE "
    case LowerLike => "LOWER(" + t.column + ") LIKE LOWER("
  }

  function LeafTail(t: Template): string {
    if t.shape in {LowerEquals, LowerLike} then ")" else ""
  }

  /** A comparison with `ph` where its argument goes. */
  function LeafText(t: Template, ph: string): string {
    LeafHead(t) + ph + LeafTail(t)
  }

  function LexText(l: Lex, ph: string): string {
    match l
    case LParen => "("
    case RParen => ")"
    case KwAnd => " AND "
    case KwOr => " OR "
    case KwNot => "NOT "
    case LeafLex(t) => LeafText(t, ph)
  }

  /** The fragment as written, with "?" placeholders. */
  function Render(sql: seq<Lex>): string {
    if sql == [] then "" else LexText(sql[0], "?") + Render(sql[1..])
  }

  /** The fragment whose k-th leaf asks for argument n + k. */
  function Numbered(sql: seq<Lex>, n: nat): string {
    if sql == [] then ""
    else LexText(sql[0], "$" + Decimal(n + 1)) + Numbered(sql[1..], if sql[0].LeafLex? then n + 1 else n)
  }

  /** The comparisons of a fragment, first to last. */
  function Leaves(sql: seq<Lex>): seq<Template> {
    if sql == [] then [] else (if sql[0].LeafLex? then [sql[0].leaf] else []) + Leaves(sql[1..])
  }

  /** The columns of a fragment are among `cols`. */
  predicate ColumnsIn(sql: seq<Lex>, cols: set<string>) {
    forall i | 0 <= i < |sql| && sql[i].LeafLex? :: sql[i].leaf.column in cols
  }

  predicate Plain(cols: set<string>) {
    forall c | c in cols :: '?' !in c && '$' !in c
  }

  // ----- Placeholders and leaves -----

  lemma RebindLeaf(t: Template, n: nat)
    requires '?' !in t.column
    ensures RebindFrom(LeafText(t, "?"), n) == LeafText(t, "$" + Decimal(n + 1))
    ensures Placeholders(LeafText(t, "?")) == 1
  {
    RebindAround(LeafHead(t), LeafTail(t), n);
  }

  lemma RebindMark(s: string, n: nat)
    requires '?' !in s
    ensures RebindFrom("?" + s, n) == "$" + Decimal(n + 1) + s && Placeholders("?" + s) == 1
  {
    RebindPlain(s, n + 1);
    var t := "?" + s;
    assert t[0] == '?' && t[1..] == s;
  }

  lemma RebindAround(p: string, s: string, n: nat)
    requires '?' !in p && '?' !in s
    ensures RebindFrom(p + "?" + s, n) == p + ("$" + Decimal(n + 1)) + s
    ensures Placeholders(p + "?" + s) == 1
  {
    RebindFront(p, "?" + s, n);
    RebindMark(s, n);
    Associate(p, "?", s);
    Associate(p, "$" + Decimal(n + 1), s);
  }

  lemma RebindFront(p: string, t: string, n: nat)
    requires '?' !in p
    ensures RebindFrom(p + t, n) == p + RebindFrom(t, n) && Placeholders(p + t) == Placeholders(t)
  {
    RebindPlain(p, n);
    RebindAppend(p, t, n);
  }

  lemma Associate(a: string, b: string, c: string)
    ensures a + b + c == a + (b + c)
  {
  }

  lemma RebindLex(l: Lex, cols: set<string>, n: nat)
    requires (l.LeafLex? ==> l.leaf.column in cols) && Plain(cols)
    ensures RebindFrom(LexText(l, "?"), n) == LexText(l, "$" + Decimal(n + 1))
    ensures Placeholders(LexText(l, "?")) == if l.LeafLex? then 1 else 0
  {
    if l.LeafLex? {
      RebindLeaf(l.leaf, n);
    } else {
      RebindPlain(LexText(l, "?"), n);
    }
  }

  /** The query text has one placeholder a leaf, and rebinding gives leaf k the number k. */
  lemma {:induction false} RebindRender(sql: seq<Lex>, cols: set<string>, n: nat)
    requires ColumnsIn(sql, cols) && Plain(cols)
    ensures RebindFrom(Render(sql), n) == Numbered(sql, n) && Placeholders(Render(sql)) == |Leaves(sql)|
    decreases |sql|
  {
    if sql != [] {
      var l := sql[0];
      RebindLex(l, cols, n);
      RebindAppend(LexText(l, "?"), Render(sql[1..]), n);
      RebindRender(sql[1..], cols, if l.LeafLex? then n + 1 else n);
    }
  }

  // ----- What BuildWhere prints is well printed -----

  /** No leaf is directly followed by an operand. */
  predicate Delimited(sql: seq<Lex>) {
    forall i | 0 <= i < |sql| - 1 && sql[i].LeafLex? :: sql[i + 1] in {RParen, KwAnd, KwOr}
  }

  /** A comparison with the argument it is to get. */
  datatype Pair = Pair(leaf: Template, arg: string)

  function Templates(ps: seq<Pair>): (ts: seq<Template>)
    ensures |ts| == |ps|
  {
    seq(|ps|, i requires 0 <= i < |ps| => ps[i].leaf)
  }

  function Args(ps: seq<Pair>): (args: seq<string>)
    ensures |args| == |ps|
  {
    seq(|ps|, i requires 0 <= i < |ps| => ps[i].arg)
  }

  /** The leaves are those of `ps`, each at the place of its argument; known columns, delimited leaves. */
  predicate WellPrinted(c: Condition, ps: seq<Pair>, cols: set<string>) {
    Leaves(c.sql) == Templates(ps) && c.args == Args(ps) && ColumnsIn(c.sql, cols) && Delimited(c.sql)
  }

  lemma {:induction false} LeavesAppend(a: seq<Lex>, b: seq<Lex>)
    ensures Leaves(a + b) == Leaves(a) + Leaves(b)
    decreases |a|
  {
    if a == [] {
      assert a + b == b;
    } else {
      assert (a + b)[0] == a[0] && (a + b)[1..] == a[1..] + b;
      LeavesAppend(a[1..], b);
    }
  }

  lemma AppendPrinted(a: Condition, b: Condition, ps: seq<Pair>, qs: seq<Pair>, cols: set<string>)
    requires WellPrinted(a, ps, cols) && WellPrinted(b, qs, cols)
    requires a.sql == [] || !a.sql[|a.sql| - 1].LeafLex? || b.sql == [] || b.sql[0] in {RParen, KwAnd, KwOr}
    ensures WellPrinted(Condition(a.sql + b.sql, a.args + b.args), ps + qs, cols)
  {
    LeavesAppend(a.sql, b.sql);
    assert Templates(ps + qs) == Templates(ps) + Templates(qs) && Args(ps + qs) == Args(ps) + Args(qs);
  }

  /** Keywords and parentheses at the front or at the end. */
  lemma PrefixPrinted(l: Lex, c: Condition, ps: seq<Pair>, cols: set<string>)
    requires !l.LeafLex? && WellPrinted(c, ps, cols)
    ensures WellPrinted(Condition([l] + c.sql, c.args), ps, cols)
  {
    AppendPrinted(Condition([l], []), c, [], ps, cols);
    assert [] + c.args == c.args && [] + ps == ps;
  }

  lemma SuffixPrinted(c: Condition, ps: seq<Pair>, cols: set<string>)
    requires WellPrinted(c, ps, cols)
    ensures WellPrinted(Condition(c.sql + [RParen], c.args), ps, cols)
  {
    AppendPrinted(c, Condition([RParen], []), ps, [], cols);
    assert c.args + [] == c.args && ps + [] == ps;
  }

  lemma LeafPrinted(t: Template, arg: string, cols: set<string>)
    requires t.column in cols
    ensures WellPrinted(Condition([LeafLex(t)], [arg]), [Pair(t, arg)], cols)
  {
    assert Leaves([LeafLex(t)]) == [t] + Leaves([LeafLex(t)][1..]);
  }

  function Concat(pss: seq<seq<Pair>>): seq<Pair> {
    if pss == [] then [] else pss[0] + Concat(pss[1..])
  }

  ghost predicate AllPrinted(cs: seq<Condition>, pss: seq<seq<Pair>>, cols: set<string>) {
    |cs| == |pss| && forall i | 0 <= i < |cs| :: WellPrinted(cs[i], pss[i], cols)
  }

  lemma {:induction false} JoinPrinted(cs: seq<Condition>, pss: seq<seq<Pair>>, sep: Lex, cols: set<string>)
    requires sep in {KwAnd, KwOr} && AllPrinted(cs, pss, cols)
    ensures WellPrinted(Condition(JoinSql(cs, sep), JoinArgs(cs)), Concat(pss), cols)
    decreases |cs|
  {
    if cs != [] {
      JoinPrinted(cs[1..], pss[1..], sep, cols);
      if |cs| == 1 {
        assert cs[0].args + [] == cs[0].args && pss[0] + [] == pss[0];
      } else {
        var tail := Condition(JoinSql(cs[1..], sep), JoinArgs(cs[1..]));
        PrefixPrinted(sep, tail, Concat(pss[1..]), cols);
        AppendPrinted(cs[0], Condition([sep] + tail.sql, tail.args), pss[0], Concat(pss[1..]), cols);
      }
    }
  }

  lemma ParenPrinted(c: Condition, ps: seq<Pair>, cols: set<string>)
    requires WellPrinted(c, ps, cols)
    ensures WellPrinted(Condition([LParen] + (c.sql + [RParen]), c.args), ps, cols)
  {
    SuffixPrinted(c, ps, cols);
    PrefixPrinted(LParen, Condition(c.sql + [RParen], c.args), ps, cols);
  }

  lemma GroupPrinted(cs: seq<Condition>, pss: seq<seq<Pair>>, sep: Lex, cols: set<string>)
    requires sep in {KwAnd, KwOr} && AllPrinted(cs, pss, cols)
    ensures WellPrinted(JoinGroup(cs, sep), Concat(pss), cols)
  {
    JoinPrinted(cs, pss, sep, cols);
    ParenPrinted(Condition(JoinSql(cs, sep), JoinArgs(cs)), Concat(pss), cols);
  }

  function Columns(fm: FieldSpecMap): set<string> {
    set f | f in fm :: fm[f].column
  }

  // ----- The comparisons of the tree -----

  /** A back end that lists the comparisons: every combination is the concatenation. */
  const PAIR_COMBINER: Combiner<seq<Pair>> := Combiner(pss => Concat(pss), pss => Concat(pss), pss => Concat(pss), ps => ps)

  function PairMap(fm: FieldSpecMap, field: string, op: string, value: Json): Result<seq<Pair>, Error> {
    var col :- Admit(fm, field, op);
    var s :- ScalarString(value);
    if Lower(op) !in COMPARISONS then Err(UnsupportedOp)
    else Ok([Pair(Template(col, LeafShape(Lower(op))), LeafArg(Lower(op), s))])
  }

  function PairBackend(fm: FieldSpecMap): Backend<seq<Pair>> {
    Backend((field, op, value) => PairMap(fm, field, op, value), PAIR_COMBINER)
  }

  /** The comparisons of a filter that is accepted, in the order of the JSON tree. */
  function TreePairs(raw: RawFilter, fm: FieldSpecMap): seq<Pair> {
    if !raw.Parsed? || AsObject(raw.root).Err? then []
    else
      var pss := Denote(AsObject(raw.root).value, PairBackend(fm));
      if pss.Err? then [] else Concat(pss.value)
  }

  /** The comparisons of a subject expression: two for every "type:id". */
  function SubjectPairs(expr: Json): seq<Pair>
    decreases Size(expr)
  {
    var only := OnlyOperator(expr);
    if only.Err? then []
    else
      var m := only.value;
      if Lower(m.key) == OP_EQ then
        var p := TypeAndId(m.value);
        if p.Err? then [] else [Pair(TYPE_COLUMN, p.value.0), Pair(SUBJECT_ID_COLUMN, p.value.1)]
      else if Kind(m.key) == Not then SubjectPairs(m.value)
      else if NonEmptyArray(m.value).Err? then []
      else ItemsPairs(NonEmptyArray(m.value).value)
  }

  function ItemsPairs(items: seq<Json>): seq<Pair>
    decreases ItemsSize(items)
  {
    if items == [] then [] else SubjectPairs(items[0]) + ItemsPairs(items[1..])
  }

  function SplitPairs(raw: RawFilter, fm: FieldSpecMap): seq<Pair> {
    var (rest, subject) := SplitSubject(raw);
    TreePairs(rest, fm) + (if subject.Some? then SubjectPairs(subject.value) else [])
  }

  function FieldPairs(ms: seq<Member>, fm: FieldSpecMap): seq<Pair> {
    if ms == [] then []
    else
      var ps := DenoteObject(ms[0].key, ms[0].value, PairBackend(fm));
      (if ms[0].key == "subject" || ps.Err? then [] else ps.value) + FieldPairs(ms[1..], fm)
  }

  function SubjectsPairs(ms: seq<Member>): seq<Pair> {
    if ms == [] then []
    else (if ms[0].key == "subject" then SubjectPairs(ms[0].value) else []) + SubjectsPairs(ms[1..])
  }

  /** Those of an access filter: the subject's come last, wherever its entry stands. */
  function AccessPairs(raw: RawFilter, fm: FieldSpecMap): seq<Pair> {
    FieldPairs(FieldsOf(raw), fm) + SubjectsPairs(FieldsOf(raw))
  }

  lemma {:induction false} FieldPairsDenote(ms: seq<Member>, fm: FieldSpecMap)
    requires Denote(Delete(ms, SUBJECT), PairBackend(fm)).Ok?
    ensures FieldPairs(ms, fm) == Concat(Denote(Delete(ms, SUBJECT), PairBackend(fm)).value)
  {
    if ms != [] {
      var rest := Delete(ms[1..], SUBJECT);
      if ms[0].key == "subject" {
        FieldPairsDenote(ms[1..], fm);
      } else {
        assert ([ms[0]] + rest)[1..] == rest;
        FieldPairsDenote(ms[1..], fm);
        var p, ps := DenoteObject(ms[0].key, ms[0].value, PairBackend(fm)).value, Denote(rest, PairBackend(fm)).value;
        assert ([p] + ps)[1..] == ps;
      }
    }
  }

  lemma {:induction false} SubjectsPairsFound(ms: seq<Member>)
    requires DistinctKeys(ms)
    ensures SubjectsPairs(ms) == match Lookup(ms, SUBJECT) case Some(v) => SubjectPairs(v) case None => []
  {
    if ms != [] {
      SubjectsPairsFound(ms[1..]);
      SubjectFound(ms[1..]);
      if ms[0].key == "subject" {
        assert forall m | m in ms[1..] :: m.key != ms[0].key;
        assert SubjectPairs(ms[0].value) + [] == SubjectPairs(ms[0].value);
      } else {
        assert [] + SubjectsPairs(ms[1..]) == SubjectsPairs(ms[1..]);
      }
    }
  }

  // ----- The printed text has them all, in order -----

  lemma LeafRelated(fm: FieldSpecMap, field: string, op: string, v: Json)
    ensures Related(SqlMap(fm, field, op, v), PairMap(fm, field, op, v), Printed(Columns(fm)), {})
  {
    var c := SqlMap(fm, field, op, v);
    if c.Ok? {
      LeafPrinted(c.value.sql[0].leaf, c.value.args[0], Columns(fm));
    }
  }

  function Printed(cols: set<string>): (Condition, seq<Pair>) -> bool {
    (c: Condition, ps: seq<Pair>) => WellPrinted(c, ps, cols)
  }

  lemma CombinerPrinted(cols: set<string>)
    ensures RelatedCombiners(SQL_COMBINER, PAIR_COMBINER, Printed(cols))
  {
    var R := Printed(cols);
    forall c, ps | R(c, ps)
      ensures R(SQL_COMBINER.not(c), PAIR_COMBINER.not(ps))
    {
      ParenPrinted(c, ps, cols);
      PrefixPrinted(KwNot, Condition([LParen] + (c.sql + [RParen]), c.args), ps, cols);
    }
    forall cs, pss | Pairwise(cs, pss, R)
      ensures R(SQL_COMBINER.and(cs), PAIR_COMBINER.and(pss)) && R(SQL_COMBINER.or(cs), PAIR_COMBINER.or(pss))
      ensures R(SQL_COMBINER.nor(cs), PAIR_COMBINER.nor(pss))
    {
      assert AllPrinted(cs, pss, cols) by {
        assert forall i | 0 <= i < |cs| :: R(cs[i], pss[i]);
      }
      GroupPrinted(cs, pss, KwAnd, cols);
      GroupPrinted(cs, pss, KwOr, cols);
      PrefixPrinted(KwNot, JoinGroup(cs, KwOr), Concat(pss), cols);
    }
  }

  /** What an accepted filter prints and what it lists correspond, field by field. */
  lemma WhereDenotes(raw: RawFilter, fm: FieldSpecMap)
    requires WhereOf(raw, fm).Ok?
    ensures Denote(FieldsOf(raw), PairBackend(fm)).Ok?
    ensures FieldsOf(raw) != [] ==>
              var conds := Denote(FieldsOf(raw), SqlBackend(fm));
              && conds.Ok? && WhereOf(raw, fm).value == JoinGroup(conds.value, KwAnd)
              && AllPrinted(conds.value, Denote(FieldsOf(raw), PairBackend(fm)).value, Columns(fm))
  {
    if FieldsOf(raw) != [] {
      var fields, R := FieldsOf(raw), Printed(Columns(fm));
      var a, b := SqlBackend(fm), PairBackend(fm);
      forall i | 0 <= i < |fields|
        ensures RelatedLeaves(a, b, fields[i].key, R, {})
      {
        forall op, v
          ensures Related(a.mapper(fields[i].key, op, v), b.mapper(fields[i].key, op, v), R, {})
        {
          LeafRelated(fm, fields[i].key, op, v);
        }
      }
      CombinerPrinted(Columns(fm));
      DenoteRelated(fields, a, b, R, {});
      WalkOfFlatten(fields, a);
      var conds, pss := Denote(fields, a).value, Denote(fields, b).value;
      assert forall i | 0 <= i < |conds| :: R(conds[i], pss[i]);
    }
  }

  lemma WherePrinted(raw: RawFilter, fm: FieldSpecMap)
    requires WhereOf(raw, fm).Ok?
    ensures WellPrinted(WhereOf(raw, fm).value, TreePairs(raw, fm), Columns(fm))
  {
    WhereDenotes(raw, fm);
    if FieldsOf(raw) != [] {
      var conds, pss := Denote(FieldsOf(raw), SqlBackend(fm)).value, Denote(FieldsOf(raw), PairBackend(fm)).value;
      GroupPrinted(conds, pss, KwAnd, Columns(fm));
    }
  }

  const SUBJECT_COLUMNS := {TYPE_COLUMN.column, SUBJECT_ID_COLUMN.column}

  lemma EqPrinted(t: string, id: string)
    ensures WellPrinted(EqTerm(t, id), [Pair(TYPE_COLUMN, t), Pair(SUBJECT_ID_COLUMN, id)], SUBJECT_COLUMNS)
  {
    LeafPrinted(TYPE_COLUMN, t, SUBJECT_COLUMNS);
    LeafPrinted(SUBJECT_ID_COLUMN, id, SUBJECT_COLUMNS);
    var pss := [[Pair(TYPE_COLUMN, t)], [Pair(SUBJECT_ID_COLUMN, id)]];
    GroupPrinted([Condition([LeafLex(TYPE_COLUMN)], [t]), Condition([LeafLex(SUBJECT_ID_COLUMN)], [id])], pss, KwAnd,
      SUBJECT_COLUMNS);
    assert Concat(pss[1..]) == [Pair(SUBJECT_ID_COLUMN, id)];
  }

  lemma {:induction false} SubjectPrinted(expr: Json)
    requires SubjectSql(expr).Ok?
    ensures WellPrinted(SubjectSql(expr).value, SubjectPairs(expr), SUBJECT_COLUMNS)
    decreases Size(expr), 0
  {
    var m := OnlyOperator(expr).value;
    if Lower(m.key) == OP_EQ {
      EqPrinted(TypeAndId(m.value).value.0, TypeAndId(m.value).value.1);
    } else {
      match Kind(m.key)
      case Leaf =>
      case Not =>
        SubjectPrinted(m.value);
        PrefixPrinted(KwNot, SubjectSql(m.value).value, SubjectPairs(m.value), SUBJECT_COLUMNS);
      case k =>
        var items := NonEmptyArray(m.value).value;
        var pss := SubjectPartsPrinted(items);
        var sep := if k == And then KwAnd else KwOr;
        GroupPrinted(SubjectParts(items).value, pss, sep, SUBJECT_COLUMNS);
        PrefixPrinted(KwNot, JoinGroup(SubjectParts(items).value, sep), Concat(pss), SUBJECT_COLUMNS);
    }
  }

  lemma {:induction false} SubjectPartsPrinted(items: seq<Json>) returns (pss: seq<seq<Pair>>)
    requires SubjectParts(items).Ok?
    ensures AllPrinted(SubjectParts(items).value, pss, SUBJECT_COLUMNS) && Concat(pss) == ItemsPairs(items)
    decreases ItemsSize(items), 0
  {
    if items == [] {
      pss := [];
    } else {
      SubjectPrinted(items[0]);
      var more := SubjectPartsPrinted(items[1..]);
      pss := [SubjectPairs(items[0])] + more;
    }
  }

  lemma MoreColumns(c: Condition, ps: seq<Pair>, cols: set<string>, more: set<string>)
    requires WellPrinted(c, ps, cols) && cols <= more
    ensures WellPrinted(c, ps, more)
  {
  }

  /** For every accepted filter: the k-th leaf of the printed text and the k-th argument are the k-th
      comparison of the JSON tree, the subject's after all others. */
  lemma AccessPrinted(raw: RawFilter, fm: FieldSpecMap)
    requires AccessWhere(raw, fm).Ok? && DistinctKeys(FieldsOf(raw))
    ensures WellPrinted(AccessWhere(raw, fm).value, AccessPairs(raw, fm), Columns(fm) + SUBJECT_COLUMNS)
  {
    SplitPrinted(raw, fm);
    SplitPairsOf(raw, fm);
  }

  /** Where the rest of the filter is accepted its comparisons are those of the members. */
  lemma SplitPairsOf(raw: RawFilter, fm: FieldSpecMap)
    requires AccessWhere(raw, fm).Ok? && DistinctKeys(FieldsOf(raw))
    ensures SplitPairs(raw, fm) == AccessPairs(raw, fm)
  {
    var ms := FieldsOf(raw);
    SubjectsPairsFound(ms);
    RestDenotes(raw, fm);
    FieldPairsDenote(ms, fm);
    if Lookup(ms, SUBJECT).None? {
      NothingDeleted(ms);
    }
  }

  lemma RestDenotes(raw: RawFilter, fm: FieldSpecMap)
    requires AccessWhere(raw, fm).Ok?
    ensures Denote(Delete(FieldsOf(raw), SUBJECT), PairBackend(fm)).Ok?
  {
    var (rest, subject) := SplitSubject(raw);
    if Lookup(FieldsOf(raw), SUBJECT).None? {
      NothingDeleted(FieldsOf(raw));
    }
    WhereDenotes(rest, fm);
  }

  lemma SplitPrinted(raw: RawFilter, fm: FieldSpecMap)
    requires AccessWhere(raw, fm).Ok?
    ensures WellPrinted(AccessWhere(raw, fm).value, SplitPairs(raw, fm), Columns(fm) + SUBJECT_COLUMNS)
  {
    var (rest, subject) := SplitSubject(raw);
    var where, cols := WhereOf(rest, fm).value, Columns(fm) + SUBJECT_COLUMNS;
    var ps := TreePairs(rest, fm);
    WherePrinted(rest, fm);
    MoreColumns(where, ps, Columns(fm), cols);
    if subject.Some? {
      SubjectPrinted(subject.value);
      MoreColumns(SubjectSql(subject.value).value, SubjectPairs(subject.value), SUBJECT_COLUMNS, cols);
      BothPrinted(where, SubjectSql(subject.value).value, ps, SubjectPairs(subject.value), cols);
    } else {
      assert ps + [] == ps;
    }
  }

  lemma BothPrinted(where: Condition, subj: Condition, ps: seq<Pair>, qs: seq<Pair>, cols: set<string>)
    requires WellPrinted(where, ps, cols) && WellPrinted(subj, qs, cols)
    ensures WellPrinted(Condition([LParen] + (where.sql + ([KwAnd] + subj.sql) + [RParen]), where.args + subj.args),
                        ps + qs, cols)
    ensures where.sql == [] ==> WellPrinted(Condition(subj.sql, where.args + subj.args), ps + qs, cols)
  {
    if where.sql == [] {
      assert [] + subj.sql == subj.sql;
      AppendPrinted(where, subj, ps, qs, cols);
    }
    PrefixPrinted(KwAnd, subj, qs, cols);
    AppendPrinted(where, Condition([KwAnd] + subj.sql, subj.args), ps, qs, cols);
    ParenPrinted(Condition(where.sql + ([KwAnd] + subj.sql), where.args + subj.args), ps + qs, cols);
  }

  // ----- The whole query -----

  /** assembleFilterQuery. */
  function Query(base: string, orderBy: string, sql: seq<Lex>): string {
    base + Where(sql) + (Render(sql) + Tail(orderBy))
  }

  function Where(sql: seq<Lex>): string {
    if sql == [] then "" else " WHERE "
  }

  function Tail(orderBy: string): string {
    if orderBy == "" then "" else " " + orderBy
  }

  lemma FramePlain(base: string, orderBy: string, sql: seq<Lex>)
    requires Plain({base, orderBy})
    ensures Plain({base + Where(sql), Tail(orderBy)}) && (Tail(orderBy) == "" || !IsDigit(Tail(orderBy)[0]))
  {
    assert base in {base, orderBy} && orderBy in {base, orderBy};
  }

  lemma SeparatedAppend(p: string, q: string)
    requires Separated(p) && Separated(q)
    requires p == "" || p[|p| - 1] != '?' || q == "" || !IsDigit(q[0])
    ensures Separated(p + q)
  {
  }

  lemma {:induction false} RenderSeparated(sql: seq<Lex>, cols: set<string>)
    requires ColumnsIn(sql, cols) && Plain(cols) && Delimited(sql)
    ensures Separated(Render(sql)) && '$' !in Render(sql)
    ensures sql != [] && sql[0] in {RParen, KwAnd, KwOr} ==> Render(sql) != "" && !IsDigit(Render(sql)[0])
    decreases |sql|
  {
    if sql != [] {
      RenderSeparated(sql[1..], cols);
      LexSeparated(sql[0], cols);
      assert sql[0].LeafLex? && |sql| > 1 ==> sql[1..][0] in {RParen, KwAnd, KwOr};
      SeparatedAppend(LexText(sql[0], "?"), Render(sql[1..]));
    }
  }

  lemma LexSeparated(l: Lex, cols: set<string>)
    requires (l.LeafLex? ==> l.leaf.column in cols) && Plain(cols)
    ensures var text := LexText(l, "?");
            && text != "" && Separated(text) && '$' !in text
            && (!l.LeafLex? ==> text[|text| - 1] != '?')
            && (l in {RParen, KwAnd, KwOr} ==> !IsDigit(text[0]))
  {
    if l.LeafLex? {
      LeafSeparated(l.leaf);
    }
  }

  lemma LeafSeparated(t: Template)
    requires '?' !in t.column && '$' !in t.column
    ensures Separated(LeafText(t, "?")) && '$' !in LeafText(t, "?")
  {
    HeadPlain(t);
    AroundSeparated(LeafHead(t), LeafTail(t));
  }

  lemma HeadPlain(t: Template)
    requires '?' !in t.column && '$' !in t.column
    ensures '?' !in LeafHead(t) && '$' !in LeafHead(t)
  {
  }

  lemma AroundSeparated(p: string, s: string)
    requires '?' !in p && '$' !in p && '?' !in s && '$' !in s && (s == "" || !IsDigit(s[0]))
    ensures Separated(p + "?" + s) && '$' !in p + "?" + s
  {
    var q := p + "?" + s;
    assert forall i | 0 <= i < |q| :: q[i] == if i < |p| then p[i] else if i == |p| then '?' else s[i - |p| - 1];
  }

  lemma QueryParts(c: Condition, ps: seq<Pair>, cols: set<string>, head: string, tail: string)
    requires WellPrinted(c, ps, cols) && Plain(cols) && Plain({head, tail})
    requires tail == "" || !IsDigit(tail[0])
    ensures var q := head + (Render(c.sql) + tail);
            && Placeholders(q) == |c.args| && Separated(q) && '$' !in q
            && RebindFrom(q, 0) == head + (Numbered(c.sql, 0) + tail)
  {
    assert head in {head, tail} && tail in {head, tail};
    RebindRender(c.sql, cols, 0);
    RebindFramed(head, Render(c.sql), tail);
    RenderSeparated(c.sql, cols);
    SeparatedAppend(Render(c.sql), tail);
    SeparatedAppend(head, Render(c.sql) + tail);
  }

  lemma RebindFramed(head: string, body: string, tail: string)
    requires '?' !in head && '?' !in tail
    ensures RebindFrom(head + (body + tail), 0) == head + (RebindFrom(body, 0) + tail)
    ensures Placeholders(head + (body + tail)) == Placeholders(body)
  {
    RebindFront(head, body + tail, 0);
    RebindAppend(body, tail, 0);
    RebindPlain(tail, Placeholders(body));
  }

  /** On Postgres the list query reads parameters 1 to n in order, n is the number of comparisons of
      the JSON tree, and leaf k of the fragment, which asks for parameter k, is the k-th comparison
      and gets its argument. */
  lemma QueryOnPostgres(raw: RawFilter, fm: FieldSpecMap, base: string, orderBy: string)
    requires AccessWhere(raw, fm).Ok? && DistinctKeys(FieldsOf(raw)) && Plain(Columns(fm)) && Plain({base, orderBy})
    ensures var c, ps := AccessWhere(raw, fm).value, AccessPairs(raw, fm);
            var q := Query(base, orderBy, c.sql);
            && Placeholders(q) == |Leaves(c.sql)| == |c.args| == |ps|
            && (forall k | 0 <= k < |ps| :: Pair(Leaves(c.sql)[k], c.args[k]) == ps[k])
            && Parameters(RebindFrom(q, 0)) == Count(0, |ps|)
            && RebindFrom(q, 0) == base + Where(c.sql) + (Numbered(c.sql, 0) + Tail(orderBy))
            && Undo(RebindFrom(q, 0), 0) == q
  {
    var c, ps := AccessWhere(raw, fm).value, AccessPairs(raw, fm);
    var cols := Columns(fm) + SUBJECT_COLUMNS;
    AccessPrinted(raw, fm);
    SubjectColumnsPlain(Columns(fm));
    PrintedOnPostgres(c, ps, cols, base, orderBy);
    LeavesInOrder(c, ps, cols);
  }

  lemma SubjectColumnsPlain(cols: set<string>)
    requires Plain(cols)
    ensures Plain(cols + SUBJECT_COLUMNS)
  {
  }

  lemma LeavesInOrder(c: Condition, ps: seq<Pair>, cols: set<string>)
    requires WellPrinted(c, ps, cols)
    ensures |Leaves(c.sql)| == |c.args| == |ps|
    ensures forall k | 0 <= k < |ps| :: Pair(Leaves(c.sql)[k], c.args[k]) == ps[k]
  {
  }

  lemma PrintedOnPostgres(c: Condition, ps: seq<Pair>, cols: set<string>, base: string, orderBy: string)
    requires WellPrinted(c, ps, cols) && Plain(cols) && Plain({base, orderBy})
    ensures var q := Query(base, orderBy, c.sql);
            && Placeholders(q) == |c.args|
            && Parameters(RebindFrom(q, 0)) == Count(0, |c.args|)
            && RebindFrom(q, 0) == base + Where(c.sql) + (Numbered(c.sql, 0) + Tail(orderBy))
            && Undo(RebindFrom(q, 0), 0) == q
  {
    var q := Query(base, orderBy, c.sql);
    FramePlain(base, orderBy, c.sql);
    QueryParts(c, ps, cols, base + Where(c.sql), Tail(orderBy));
    ParametersInOrder(q, 0);
    UndoRebind(q, 0);
  }
}
