/** What a database makes of a WHERE fragment: NOT binds tighter than AND, AND tighter than OR,
    and the k-th placeholder takes the k-th argument. */
module SqlSemantics {
  import opened Wrappers
  import opened FilterSql

  datatype Expr =
    | Atom(leaf: Template, arg: string)
    | Neg(e: Expr)
    | All(es: seq<Expr>)
    | Any(es: seq<Expr>)

  /** The truth of a leaf with its argument, on some row. */
  type Interp = (Template, string) -> bool

  function Eval(e: Expr, I: Interp): bool {
    match e
    case Atom(t, arg) => I(t, arg)
    case Neg(f) => !Eval(f, I)
    case All(es) => forall i | 0 <= i < |es| :: Eval(es[i], I)
    case Any(es) => exists i | 0 <= i < |es| :: Eval(es[i], I)
  }

  /** A parsed phrase with the lexemes and arguments after it. */
  datatype Parse<T> = Parse(tree: T, rest: seq<Lex>, args: seq<string>)

  function ParseUnary(s: seq<Lex>, a: seq<string>): (r: Option<Parse<Expr>>)
    decreases |s|, 0
    ensures r.Some? ==> |r.value.rest| < |s|
  {
    if s == [] then None
    else match s[0]
      case KwNot =>
        var p := ParseUnary(s[1..], a);
        if p.None? then None else Some(Parse(Neg(p.value.tree), p.value.rest, p.value.args))
      case LParen =>
        var p := ParseOr(s[1..], a);
        if p.None? || p.value.rest == [] || p.value.rest[0] != RParen then None
        else Some(Parse(p.value.tree, p.value.rest[1..], p.value.args))
      case LeafLex(t) =>
        if a == [] then None else Some(Parse(Atom(t, a[0]), s[1..], a[1..]))
      case _ => None
  }

  function ParseAnds(s: seq<Lex>, a: seq<string>): (r: Option<Parse<seq<Expr>>>)
    decreases |s|, 1
    ensures r.Some? ==> |r.value.rest| < |s| && |r.value.tree| > 0
  {
    var p := ParseUnary(s, a);
    if p.None? then None
    else if p.value.rest != [] && p.value.rest[0] == KwAnd then
      var q := ParseAnds(p.value.rest[1..], p.value.args);
      if q.None? then None else Some(Parse([p.value.tree] + q.value.tree, q.value.rest, q.value.args))
    else Some(Parse([p.value.tree], p.value.rest, p.value.args))
  }

  function ParseOrs(s: seq<Lex>, a: seq<string>): (r: Option<Parse<seq<Expr>>>)
    decreases |s|, 2
    ensures r.Some? ==> |r.value.rest| < |s| && |r.value.tree| > 0
  {
    var p := ParseAnds(s, a);
    if p.None? then None
    else
      var e := if |p.value.tree| == 1 then p.value.tree[0] else All(p.value.tree);
      if p.value.rest != [] && p.value.rest[0] == KwOr then
        var q := ParseOrs(p.value.rest[1..], p.value.args);
        if q.None? then None else Some(Parse([e] + q.value.tree, q.value.rest, q.value.args))
      else Some(Parse([e], p.value.rest, p.value.args))
  }

  function ParseOr(s: seq<Lex>, a: seq<string>): (r: Option<Parse<Expr>>)
    decreases |s|, 3
    ensures r.Some? ==> |r.value.rest| < |s|
  {
    var p := ParseOrs(s, a);
    if p.None? then None
    else
      var e := if |p.value.tree| == 1 then p.value.tree[0] else Any(p.value.tree);
      Some(Parse(e, p.value.rest, p.value.args))
  }

  /** The tree of a whole fragment; None when the text does not parse, or the arguments do not
      pair off with the placeholders. */
  function ParseWhere(c: Condition): Option<Expr> {
    var p := ParseOr(c.sql, c.args);
    if p.Some? && p.value.rest == [] && p.value.args == [] then Some(p.value.tree) else None
  }

  /** Running a query with this fragment on a row: no fragment selects every row. */
  function Execute(c: Condition, I: Interp): Option<bool> {
    if c.sql == [] then Some(true)
    else
      var e := ParseWhere(c);
      if e.None? then None else Some(Eval(e.value, I))
  }

  // ----- Self-delimiting fragments -----

  /** `e` in front of `r` and `ra`: what parsing one operand leaves. */
  ghost predicate OperandBefore(c: Condition, e: Expr, r: seq<Lex>, ra: seq<string>) {
    ParseUnary(c.sql + r, c.args + ra) == Some(Parse(e, r, ra))
  }

  ghost predicate BrokenBefore(c: Condition, r: seq<Lex>, ra: seq<string>) {
    ParseUnary(c.sql + r, c.args + ra).None?
  }

  /** Whatever follows it, the fragment `c` parses as the single operand `e`. */
  ghost predicate Operand(c: Condition, e: Expr) {
    forall r, ra :: OperandBefore(c, e, r, ra)
  }

  /** Whatever follows it, the fragment `c` is a syntax error. */
  ghost predicate Broken(c: Condition) {
    forall r, ra :: BrokenBefore(c, r, ra)
  }

  function Single(es: seq<Expr>, sep: Lex): Expr
    requires |es| > 0
  {
    if |es| == 1 then es[0] else if sep == KwAnd then All(es) else Any(es)
  }

  /** The first member of a joined chain, and what follows it. */
  lemma JoinSplit(qs: seq<Condition>, sep: Lex, r: seq<Lex>, ra: seq<string>)
    returns (tail: seq<Lex>, targs: seq<string>)
    requires |qs| > 0
    ensures JoinSql(qs, sep) + r == qs[0].sql + tail && JoinArgs(qs) + ra == qs[0].args + targs
    ensures |qs| == 1 ==> tail == r && targs == ra
    ensures |qs| > 1 ==> tail != [] && tail[0] == sep && tail[1..] == JoinSql(qs[1..], sep) + r
                         && targs == JoinArgs(qs[1..]) + ra
  {
    tail := if |qs| == 1 then r else [sep] + (JoinSql(qs[1..], sep) + r);
    targs := JoinArgs(qs[1..]) + ra;
  }

  /** A chain of operands joined by AND parses as that chain. */
  lemma {:induction false} AndChain(qs: seq<Condition>, es: seq<Expr>, r: seq<Lex>, ra: seq<string>)
    requires |qs| == |es| > 0 && (forall i | 0 <= i < |qs| :: Operand(qs[i], es[i]))
    requires r == [] || r[0] != KwAnd
    ensures ParseAnds(JoinSql(qs, KwAnd) + r, JoinArgs(qs) + ra) == Some(Parse(es, r, ra))
    decreases |qs|
  {
    var tail, targs := JoinSplit(qs, KwAnd, r, ra);
    assert OperandBefore(qs[0], es[0], tail, targs);
    if |qs| == 1 {
      assert es == [es[0]];
    } else {
      AndChain(qs[1..], es[1..], r, ra);
      assert es == [es[0]] + es[1..];
    }
  }

  lemma {:induction false} OrChain(qs: seq<Condition>, es: seq<Expr>, r: seq<Lex>, ra: seq<string>)
    requires |qs| == |es| > 0 && (forall i | 0 <= i < |qs| :: Operand(qs[i], es[i]))
    requires r == [] || (r[0] != KwAnd && r[0] != KwOr)
    ensures ParseOrs(JoinSql(qs, KwOr) + r, JoinArgs(qs) + ra) == Some(Parse(es, r, ra))
    decreases |qs|
  {
    var tail, targs := JoinSplit(qs, KwOr, r, ra);
    assert OperandBefore(qs[0], es[0], tail, targs);
    assert ParseAnds(qs[0].sql + tail, qs[0].args + targs) == Some(Parse([es[0]], tail, targs));
    if |qs| == 1 {
      assert es == [es[0]];
    } else {
      OrChain(qs[1..], es[1..], r, ra);
      assert es == [es[0]] + es[1..];
    }
  }

  /** Parentheses turn a chain into an operand. */
  lemma ParenStep(s: seq<Lex>, a: seq<string>, es: seq<Expr>, r: seq<Lex>, ra: seq<string>)
    requires |es| > 0 && ParseOrs(s, a) == Some(Parse(es, [RParen] + r, ra))
    ensures ParseUnary([LParen] + s, a) == Some(Parse(Single(es, KwOr), r, ra))
  {
    assert ParseOr(s, a) == Some(Parse(Single(es, KwOr), [RParen] + r, ra));
    assert ([LParen] + s)[1..] == s && ([RParen] + r)[1..] == r;
  }

  /** A parenthesised group of operands is an operand. */
  lemma GroupOperand(qs: seq<Condition>, es: seq<Expr>, sep: Lex)
    requires sep in {KwAnd, KwOr}
    requires |qs| == |es| > 0 && (forall i | 0 <= i < |qs| :: Operand(qs[i], es[i]))
    ensures Operand(JoinGroup(qs, sep), Single(es, sep))
  {
    var c := JoinGroup(qs, sep);
    forall r, ra
      ensures OperandBefore(c, Single(es, sep), r, ra)
    {
      var inner := JoinSql(qs, sep) + ([RParen] + r);
      assert c.sql + r == [LParen] + inner;
      if sep == KwAnd {
        AndChain(qs, es, [RParen] + r, ra);
        assert ParseOrs(inner, c.args + ra) == Some(Parse([Single(es, KwAnd)], [RParen] + r, ra));
        ParenStep(inner, c.args + ra, [Single(es, KwAnd)], r, ra);
      } else {
        OrChain(qs, es, [RParen] + r, ra);
        ParenStep(inner, c.args + ra, es, r, ra);
      }
    }
  }

  lemma NegOperand(c: Condition, e: Expr)
    requires Operand(c, e)
    ensures Operand(NotPrefix(c), Neg(e))
  {
    var n := NotPrefix(c);
    forall r, ra
      ensures OperandBefore(n, Neg(e), r, ra)
    {
      assert OperandBefore(c, e, r, ra);
      assert n.sql + r == [KwNot] + (c.sql + r) && (n.sql + r)[1..] == c.sql + r;
    }
  }

  lemma LeafOperand(t: Template, arg: string)
    ensures Operand(Condition([LeafLex(t)], [arg]), Atom(t, arg))
  {
    var c := Condition([LeafLex(t)], [arg]);
    forall r, ra
      ensures OperandBefore(c, Atom(t, arg), r, ra)
    {
      assert (c.sql + r)[1..] == r && (c.args + ra)[1..] == ra;
    }
  }

  /** An operand on its own is a whole WHERE fragment. */
  lemma OperandWhere(c: Condition, e: Expr)
    requires Operand(c, e)
    ensures c.sql != [] && ParseWhere(c) == Some(e)
  {
    assert OperandBefore(c, e, [], []);
    assert c.sql + [] == c.sql && c.args + [] == c.args;
    assert ParseAnds(c.sql, c.args) == Some(Parse([e], [], []));
    assert ParseOrs(c.sql, c.args) == Some(Parse([e], [], []));
  }

  // ----- Broken fragments stay broken -----

  /** The first broken member of a chain breaks it; the members before it are operands. */
  lemma {:induction false} AndChainBroken(qs: seq<Condition>, es: seq<Expr>, r: seq<Lex>, ra: seq<string>)
    requires |es| < |qs| && (forall i | 0 <= i < |es| :: Operand(qs[i], es[i])) && Broken(qs[|es|])
    ensures ParseAnds(JoinSql(qs, KwAnd) + r, JoinArgs(qs) + ra).None?
    decreases |qs|
  {
    var tail, targs := JoinSplit(qs, KwAnd, r, ra);
    if es == [] {
      assert BrokenBefore(qs[0], tail, targs);
    } else {
      assert OperandBefore(qs[0], es[0], tail, targs);
      AndChainBroken(qs[1..], es[1..], r, ra);
    }
  }

  lemma {:induction false} OrChainBroken(qs: seq<Condition>, es: seq<Expr>, r: seq<Lex>, ra: seq<string>)
    requires |es| < |qs| && (forall i | 0 <= i < |es| :: Operand(qs[i], es[i])) && Broken(qs[|es|])
    ensures ParseOrs(JoinSql(qs, KwOr) + r, JoinArgs(qs) + ra).None?
    decreases |qs|
  {
    var tail, targs := JoinSplit(qs, KwOr, r, ra);
    if es == [] {
      assert BrokenBefore(qs[0], tail, targs);
      assert ParseAnds(qs[0].sql + tail, qs[0].args + targs).None?;
    } else {
      assert OperandBefore(qs[0], es[0], tail, targs);
      assert ParseAnds(qs[0].sql + tail, qs[0].args + targs) == Some(Parse([es[0]], tail, targs));
      OrChainBroken(qs[1..], es[1..], r, ra);
    }
  }

  lemma GroupBroken(qs: seq<Condition>, es: seq<Expr>, sep: Lex)
    requires sep in {KwAnd, KwOr} && |es| <= |qs| && (forall i | 0 <= i < |es| :: Operand(qs[i], es[i]))
    requires qs == [] || (|es| < |qs| && Broken(qs[|es|]))
    ensures Broken(JoinGroup(qs, sep))
  {
    var c := JoinGroup(qs, sep);
    forall r, ra
      ensures BrokenBefore(c, r, ra)
    {
      var inner := JoinSql(qs, sep) + ([RParen] + r);
      var a := c.args + ra;
      assert c.sql + r == [LParen] + inner && (c.sql + r)[1..] == inner;
      if qs == [] {
        assert inner[0] == RParen;
        assert ParseUnary(inner, a).None?;
        assert ParseAnds(inner, a).None?;
      } else if sep == KwAnd {
        AndChainBroken(qs, es, [RParen] + r, ra);
      } else {
        OrChainBroken(qs, es, [RParen] + r, ra);
      }
      assert ParseOrs(inner, a).None?;
      assert ParseOr(inner, a).None?;
    }
  }

  lemma NegBroken(c: Condition)
    requires Broken(c)
    ensures Broken(NotPrefix(c))
  {
    var n := NotPrefix(c);
    forall r, ra
      ensures BrokenBefore(n, r, ra)
    {
      assert BrokenBefore(c, r, ra);
      assert (n.sql + r)[1..] == c.sql + r;
    }
  }

  lemma BrokenWhere(c: Condition)
    requires Broken(c)
    ensures ParseWhere(c).None?
  {
    assert BrokenBefore(c, [], []);
    assert c.sql + [] == c.sql && c.args + [] == c.args;
    assert ParseAnds(c.sql, c.args).None?;
    assert ParseOrs(c.sql, c.args).None?;
  }
}
