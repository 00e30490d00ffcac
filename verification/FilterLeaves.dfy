/** The comparisons themselves: what the database makes of the text and the argument of a leaf, and that
    this is the comparison the operator is named after, the one Match makes. */
module FilterLeaves {
  import opened Wrappers
  import opened FilterJson
  import opened FilterSql
  import opened SqlSemantics
  import opened FilterMatch
  import opened FilterMeaning
  import opened FilterSpelling
  import opened FilterWalk

  /** Lower case, character by character. */
  type Fold = char -> char

  function Folded(s: string, fold: Fold): (r: string)
    ensures |r| == |s|
  {
    seq(|s|, i requires 0 <= i < |s| => fold(s[i]))
  }

  predicate Special(c: char) {
    c == '\\' || c == '%' || c == '_'
  }

  /** Lower-casing neither makes nor takes away a wildcard or the escape character. */
  ghost predicate KeepsSpecial(fold: Fold) {
    forall c :: if Special(c) then fold(c) == c else !Special(fold(c))
  }

  // ----- LIKE -----

  /** SQL's LIKE: '%' stands for any text, '_' for any character; with an escape clause a backslash
      takes the next character literally. */
  predicate Likes(p: string, x: string, escape: bool)
    decreases |p|
  {
    if p == "" then x == ""
    else if p[0] == '%' then exists k | 0 <= k <= |x| :: Likes(p[1..], x[k..], escape)
    else if p[0] == '_' then x != "" && Likes(p[1..], x[1..], escape)
    else if escape && p[0] == '\\' && |p| > 1 then x != "" && x[0] == p[1] && Likes(p[2..], x[1..], escape)
    else x != "" && x[0] == p[0] && Likes(p[1..], x[1..], escape)
  }

  predicate EndsIn(x: string, s: string) {
    |s| <= |x| && x[|x| - |s|..] == s
  }

  predicate HasInside(x: string, s: string) {
    exists k | 0 <= k <= |x| :: s <= x[k..]
  }

  lemma AllLike(x: string, escape: bool)
    ensures Likes("%", x, escape) && Likes("", x, escape) == (x == "")
  {
    assert x[|x|..] == "" && "%"[1..] == "";
  }

  /** A pattern that takes `s` literally, whatever stands behind it. */
  ghost predicate Literal(p: string, s: string, escape: bool) {
    forall rest, x :: LiteralBefore(p, s, escape, rest, x)
  }

  ghost predicate LiteralBefore(p: string, s: string, escape: bool, rest: string, x: string) {
    Likes(p + rest, x, escape) <==> s <= x && Likes(rest, x[|s|..], escape)
  }

  lemma EscapedChar(c: char, q: string, x: string)
    ensures Likes(LikeEscape([c]) + q, x, true) <==> x != "" && x[0] == c && Likes(q, x[1..], true)
  {
    var p := LikeEscape([c]) + q;
    assert LikeEscape([c][1..]) == "";
    if Special(c) {
      assert p[0] == '\\' && p[1] == c && p[2..] == q;
    } else {
      assert p[0] == c && p[1..] == q;
    }
  }

  lemma {:induction false} EscapedLikes(s: string, rest: string, x: string)
    ensures LiteralBefore(LikeEscape(s), s, true, rest, x)
    decreases |s|
  {
    if s == "" {
      assert "" + rest == rest && x[0..] == x;
    } else {
      var q := LikeEscape(s[1..]) + rest;
      assert LikeEscape(s) + rest == LikeEscape([s[0]]) + q by {
        assert LikeEscape([s[0]][1..]) == "";
      }
      EscapedChar(s[0], q, x);
      if x != "" {
        EscapedLikes(s[1..], rest, x[1..]);
        PrefixStep(s, x);
      }
    }
  }

  lemma PrefixStep(s: string, x: string)
    requires s != "" && x != ""
    ensures s <= x <==> s[0] == x[0] && s[1..] <= x[1..]
    ensures s <= x ==> x[1..][|s| - 1..] == x[|s|..]
  {
  }

  lemma {:induction false} PlainLikes(s: string, rest: string, x: string)
    requires forall c | c in s :: !Special(c)
    ensures LiteralBefore(s, s, false, rest, x)
    decreases |s|
  {
    if s == "" {
      assert "" + rest == rest && x[0..] == x;
    } else {
      assert (s + rest)[0] == s[0] && (s + rest)[1..] == s[1..] + rest && s[0] in s;
      if x != "" {
        PlainLikes(s[1..], rest, x[1..]);
        PrefixStep(s, x);
      }
    }
  }

  /** A literal pattern before a wildcard finds prefixes. */
  lemma Before(p: string, s: string, x: string, escape: bool)
    requires Literal(p, s, escape)
    ensures Likes(p + "%", x, escape) <==> s <= x
  {
    assert LiteralBefore(p, s, escape, "%", x);
    if s <= x {
      AllLike(x[|s|..], escape);
    }
  }

  lemma Exactly(p: string, s: string, x: string, escape: bool)
    requires Literal(p, s, escape)
    ensures Likes(p, x, escape) <==> x == s
  {
    assert LiteralBefore(p, s, escape, "", x) && p + "" == p;
  }

  /** After one it finds suffixes. */
  lemma After(p: string, s: string, x: string, escape: bool)
    requires Literal(p, s, escape)
    ensures Likes("%" + p, x, escape) <==> EndsIn(x, s)
  {
    assert ("%" + p)[1..] == p;
    forall k | 0 <= k <= |x|
      ensures Likes(p, x[k..], escape) <==> x[k..] == s
    {
      Exactly(p, s, x[k..], escape);
    }
    if EndsIn(x, s) {
      assert Likes(p, x[|x| - |s|..], escape);
    }
  }

  /** Between two it finds parts. */
  lemma Between(p: string, s: string, x: string, escape: bool)
    requires Literal(p, s, escape)
    ensures Likes("%" + p + "%", x, escape) <==> HasInside(x, s)
  {
    assert ("%" + p + "%")[1..] == p + "%";
    forall k | 0 <= k <= |x|
      ensures Likes(p + "%", x[k..], escape) <==> s <= x[k..]
    {
      Before(p, s, x[k..], escape);
    }
  }

  // ----- The leaves -----

  const WORDS := {"$eq", "$ieq", "$contains", "$icontains", "$startswith", "$endswith"}

  /** The comparison an operator is named after. */
  predicate Holds(op: string, got: string, want: string, fold: Fold) {
    var low, asked := Folded(got, fold), Folded(want, fold);
    if op == "$eq" then got == want
    else if op == "$ieq" then low == asked
    else if op == "$contains" then HasInside(got, want)
    else if op == "$icontains" then HasInside(low, asked)
    else if op == "$startswith" then asked <= low
    else op == "$endswith" && EndsIn(low, asked)
  }

  /** What the database makes of a comparison with a column that holds `got`. */
  predicate Compared(shape: Shape, got: string, arg: string, fold: Fold, escape: bool) {
    match shape
    case Equals => got == arg
    case LowerEquals => Folded(got, fold) == Folded(arg, fold)
    case Like => Likes(arg, got, escape)
    case LowerLike => Likes(Folded(arg, fold), Folded(got, fold), escape)
  }

  lemma {:induction false} FoldedEscape(s: string, fold: Fold)
    requires KeepsSpecial(fold)
    ensures Folded(LikeEscape(s), fold) == LikeEscape(Folded(s, fold))
  {
    if s != "" {
      FoldedEscape(s[1..], fold);
      var one := if Special(s[0]) then ['\\', s[0]] else [s[0]];
      assert LikeEscape(s) == one + LikeEscape(s[1..]);
      assert Folded(LikeEscape(s), fold) == Folded(one, fold) + Folded(LikeEscape(s[1..]), fold);
      assert Folded(s, fold)[1..] == Folded(s[1..], fold);
      assert Special(s[0]) ==> fold('\\') == '\\';
    }
  }

  lemma FoldedArg(op: string, s: string, fold: Fold)
    requires KeepsSpecial(fold) && op in COMPARISONS
    ensures Folded(LeafArg(op, s), fold) == LeafArg(op, Folded(s, fold))
  {
    FoldedEscape(s, fold);
    assert fold('%') == '%' by {
      assert Special('%');
    }
    assert Folded("%" + LikeEscape(s), fold) == "%" + Folded(LikeEscape(s), fold);
    assert Folded(LikeEscape(s) + "%", fold) == Folded(LikeEscape(s), fold) + "%";
    assert Folded("%" + LikeEscape(s) + "%", fold) == "%" + Folded(LikeEscape(s), fold) + "%";
  }

  /** Where the text asked for stands in the column's text. */
  predicate Stands(op: string, x: string, s: string) {
    if op == "$startswith" then s <= x else if op == "$endswith" then EndsIn(x, s) else HasInside(x, s)
  }

  lemma ArgStands(op: string, x: string, s: string, escape: bool)
    requires op in COMPARISONS && op != "$eq" && op != "$ieq" && Literal(LikeEscape(s), s, escape)
    ensures Likes(LeafArg(op, s), x, escape) <==> Stands(op, x, s)
  {
    Before(LikeEscape(s), s, x, escape);
    After(LikeEscape(s), s, x, escape);
    Between(LikeEscape(s), s, x, escape);
  }

  /** Wherever the pattern takes the text asked for literally, the leaf is the comparison. */
  lemma LiteralHolds(op: string, got: string, want: string, fold: Fold, escape: bool)
    requires KeepsSpecial(fold) && op in COMPARISONS
    requires Literal(LikeEscape(want), want, escape) && Literal(LikeEscape(Folded(want, fold)), Folded(want, fold), escape)
    ensures Compared(LeafShape(op), got, LeafArg(op, want), fold, escape) <==> Holds(op, got, want, fold)
  {
    if op != "$eq" && op != "$ieq" {
      FoldedArg(op, want, fold);
      ArgStands(op, got, want, escape);
      ArgStands(op, Folded(got, fold), Folded(want, fold), escape);
    }
  }

  /** With backslash as the escape character, as on Postgres, every operator compares as it is named,
      for every text in the column and every text asked for. */
  lemma LeafHolds(op: string, got: string, want: string, fold: Fold)
    requires KeepsSpecial(fold) && op in COMPARISONS
    ensures Compared(LeafShape(op), got, LeafArg(op, want), fold, true) <==> Holds(op, got, want, fold)
  {
    forall s, rest, x
      ensures LiteralBefore(LikeEscape(s), s, true, rest, x)
    {
      EscapedLikes(s, rest, x);
    }
    LiteralHolds(op, got, want, fold, true);
  }

  /** A row as the database has it: absent or non-scalar columns satisfy nothing. */
  function Database(row: Row, fold: Fold, escape: bool): Interp {
    (t: Template, arg: string) =>
      && t.column in row && ScalarString(row[t.column]).Ok?
      && Compared(t.shape, ScalarString(row[t.column]).value, arg, fold, escape)
  }

  function Named(fold: Fold): Compare {
    (op: string, got: string, want: string) => Holds(op, got, want, fold)
  }

  /** So the database and Match agree on every leaf. */
  lemma DatabaseAgrees(row: Row, fold: Fold)
    requires KeepsSpecial(fold)
    ensures Agrees(Database(row, fold, true), Named(fold), row)
  {
    forall col, op, want | op in COMPARISONS && col in row && ScalarString(row[col]).Ok?
      ensures Database(row, fold, true)(Template(col, LeafShape(op)), LeafArg(op, want))
           == Named(fold)(op, ScalarString(row[col]).value, want)
    {
      LeafHolds(op, ScalarString(row[col]).value, want, fold);
    }
  }

  /** The text of a scalar. */
  function TextOf(j: Json): string {
    match j
    case Text(s) => s
    case Number(t) => t
    case Bool(b) => if b then "true" else "false"
    case _ => ""
  }

  predicate Scalar(j: Json) {
    j.Text? || j.Number? || j.Bool?
  }

  lemma WordsSpelled(op: string)
    ensures forall w | w in WORDS :: Lower(op) == w <==> Spells(op, w)
  {
    forall w | w in WORDS
      ensures Lower(op) == w <==> Spells(op, w)
    {
      LowerSpells(op, w);
    }
  }

  /** A leaf means something exactly when its field is known, its operator is a comparison the field
      allows and its value is a scalar. */
  lemma LeafAccepts(field: string, op: string, value: Json, fm: FieldSpecMap, I: Interp)
    requires !Logical(op)
    ensures DenoteOp(field, op, value, LeafBackend(fm, I)).Ok?
       <==> && Lower(field) in fm && (fm[Lower(field)].allowedOps == {} || Lower(op) in fm[Lower(field)].allowedOps)
            && Scalar(value) && exists w | w in WORDS :: Spells(op, w)
  {
    KindSpelled(op);
    WordsSpelled(op);
  }

  lemma LeafAsks(field: string, op: string, w: string, value: Json, fm: FieldSpecMap, I: Interp)
    requires w in WORDS && Lower(op) == w && DenoteOp(field, op, value, LeafBackend(fm, I)).Ok?
    ensures Lower(field) in fm && Scalar(value)
    ensures DenoteOp(field, op, value, LeafBackend(fm, I)).value
         == I(Template(fm[Lower(field)].column, LeafShape(w)), LeafArg(w, TextOf(value)))
  {
    WordIsLeaf(op, w);
  }

  /** The row's column compares with the text as the word says. */
  predicate ColumnHolds(row: Row, col: string, w: string, want: string, fold: Fold) {
    col in row && Scalar(row[col]) && Holds(w, TextOf(row[col]), want, fold)
  }

  lemma DatabaseHolds(row: Row, col: string, w: string, want: string, fold: Fold)
    requires KeepsSpecial(fold) && w in COMPARISONS
    ensures Database(row, fold, true)(Template(col, LeafShape(w)), LeafArg(w, want)) == ColumnHolds(row, col, w, want, fold)
  {
    if col in row {
      ScalarTexts(row[col]);
      if Scalar(row[col]) {
        LeafHolds(w, TextOf(row[col]), want, fold);
      }
    }
  }

  lemma ScalarTexts(j: Json)
    ensures ScalarString(j) == if Scalar(j) then Ok(TextOf(j)) else Err(BadScalar)
  {
  }

  /** It then holds of the rows whose column compares so. */
  lemma LeafMeaning(field: string, op: string, w: string, value: Json, fm: FieldSpecMap, row: Row, fold: Fold)
    requires KeepsSpecial(fold) && w in WORDS && Spells(op, w)
    requires DenoteOp(field, op, value, LeafBackend(fm, Database(row, fold, true))).Ok?
    ensures Lower(field) in fm
    ensures DenoteOp(field, op, value, LeafBackend(fm, Database(row, fold, true))).value
         == ColumnHolds(row, fm[Lower(field)].column, w, TextOf(value), fold)
  {
    LowerSpells(op, w);
    WordIsLeaf(op, w);
    LeafAsks(field, op, w, value, fm, Database(row, fold, true));
    DatabaseHolds(row, fm[Lower(field)].column, w, TextOf(value), fold);
  }

  lemma WordIsLeaf(op: string, w: string)
    requires w in WORDS && Lower(op) == w
    ensures Kind(op) == Leaf && w in COMPARISONS
  {
  }

  // ----- Without an escape clause -----

  function Backslashes(s: string): nat {
    if s == "" then 0 else (if s[0] == '\\' then 1 else 0) + Backslashes(s[1..])
  }

  lemma {:induction false} BackslashesAppend(a: string, b: string)
    ensures Backslashes(a + b) == Backslashes(a) + Backslashes(b)
  {
    if a == "" {
      assert a + b == b;
    } else {
      BackslashesAppend(a[1..], b);
      assert (a + b)[0] == a[0] && (a + b)[1..] == a[1..] + b;
    }
  }

  /** Without an escape clause every backslash of the pattern needs one in the text. */
  lemma {:induction false} LikesBackslashes(p: string, x: string)
    requires Likes(p, x, false)
    ensures Backslashes(p) <= Backslashes(x)
    decreases |p|
  {
    if p != "" {
      if p[0] == '%' {
        var k :| 0 <= k <= |x| && Likes(p[1..], x[k..], false);
        LikesBackslashes(p[1..], x[k..]);
        BackslashesAppend(x[..k], x[k..]);
        assert x == x[..k] + x[k..];
      } else {
        LikesBackslashes(p[1..], x[1..]);
      }
    }
  }

  lemma {:induction false} EscapeAdds(s: string)
    ensures Backslashes(LikeEscape(s)) >= Backslashes(s)
    ensures (exists c | c in s :: Special(c)) ==> Backslashes(LikeEscape(s)) > Backslashes(s)
    ensures (forall c | c in s :: !Special(c)) ==> LikeEscape(s) == s
  {
    if s != "" {
      EscapeAdds(s[1..]);
      var one := if Special(s[0]) then ['\\', s[0]] else [s[0]];
      BackslashesAppend(one, LikeEscape(s[1..]));
      assert s == [s[0]] + s[1..] && s[0] in s;
      assert one[0] == if Special(s[0]) then '\\' else s[0];
      assert Special(s[0]) ==> Backslashes(one) == (if s[0] == '\\' then 2 else 1) by {
        assert one[1..] == if Special(s[0]) then [s[0]] else [];
      }
    }
  }

  lemma FoldedSpecial(s: string, fold: Fold)
    requires KeepsSpecial(fold)
    ensures (exists c | c in s :: Special(c)) <==> exists c | c in Folded(s, fold) :: Special(c)
  {
    forall i | 0 <= i < |s|
      ensures Special(s[i]) <==> Special(Folded(s, fold)[i])
      ensures s[i] in s && Folded(s, fold)[i] in Folded(s, fold)
    {
    }
  }

  lemma WildcardMisses(op: string, want: string)
    requires op in COMPARISONS && op != "$eq" && op != "$ieq" && exists c | c in want :: Special(c)
    ensures !Likes(LeafArg(op, want), want, false)
  {
    EscapeAdds(want);
    var e := LikeEscape(want);
    BackslashesAppend("%", e);
    BackslashesAppend(e, "%");
    BackslashesAppend("%" + e, "%");
    if Likes(LeafArg(op, want), want, false) {
      LikesBackslashes(LeafArg(op, want), want);
    }
  }

  /** Without an escape clause, as the queries are on SQLite, an operator that matches parts of texts
      compares as it is named for every column text exactly when the text asked for has no wildcard
      and no backslash. */
  lemma WithoutEscape(op: string, want: string, fold: Fold)
    requires KeepsSpecial(fold) && op in COMPARISONS
    ensures (forall got :: Compared(LeafShape(op), got, LeafArg(op, want), fold, false) <==> Holds(op, got, want, fold))
       <==> op == "$eq" || op == "$ieq" || forall c | c in want :: !Special(c)
  {
    var low := Folded(want, fold);
    FoldedSpecial(want, fold);
    if op == "$eq" || op == "$ieq" {
    } else if exists c | c in want :: Special(c) {
      FoldedArg(op, want, fold);
      WildcardMisses(op, want);
      WildcardMisses(op, low);
      assert want <= want[0..] && low <= low[0..];
      assert Holds(op, want, want, fold) && !Compared(LeafShape(op), want, LeafArg(op, want), fold, false);
    } else {
      EscapeAdds(want);
      EscapeAdds(low);
      forall s, rest, x | forall c | c in s :: !Special(c)
        ensures LiteralBefore(s, s, false, rest, x)
      {
        PlainLikes(s, rest, x);
      }
      forall got
        ensures Compared(LeafShape(op), got, LeafArg(op, want), fold, false) <==> Holds(op, got, want, fold)
      {
        LiteralHolds(op, got, want, fold, false);
      }
    }
  }
}
