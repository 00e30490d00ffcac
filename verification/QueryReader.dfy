/** A reader of WHERE fragments as text, independent of what prints them: words, parentheses and the four
    forms of comparison. The text of a list query, read and parsed, means what the filter means. */
module QueryReader {
  import opened Wrappers
  import opened FilterJson
  import opened FilterSql
  import opened SqlSemantics
  import opened FilterMeaning
  import opened AccessFilter
  import opened AccessLaws
  import opened QueryText

  predicate WordChar(c: char) {
    'a' <= c <= 'z' || 'A' <= c <= 'Z' || '0' <= c <= '9' || c == '_' || c == '.'
  }

  function UpperChar(c: char): char {
    if 'a' <= c <= 'z' then c - 'a' + 'A' else c
  }

  /** Keywords are matched without regard to case. */
  function Upper(s: string): (r: string)
    ensures |r| == |s|
  {
    seq(|s|, i requires 0 <= i < |s| => UpperChar(s[i]))
  }

  /** The word at the front of the text. */
  function Word(s: string): (w: string)
    ensures w <= s
  {
    if s == "" || !WordChar(s[0]) then "" else [s[0]] + Word(s[1..])
  }

  /** What follows `lit` at the front of the text. */
  function Past(s: string, lit: string): Option<string> {
    if lit <= s then Some(s[|lit|..]) else None
  }

  /** A lexeme with the text after it. */
  datatype Piece = Piece(lex: Lex, rest: string)

  /** A comparison of a column with the placeholder. */
  function ReadComparison(s: string): (r: Option<Piece>)
    ensures r.Some? ==> |r.value.rest| < |s|
  {
    var low := Past(s, "LOWER(");
    if low.Some? then
      var col := Word(low.value);
      var rest := low.value[|col|..];
      var eq, like := Past(rest, ") = LOWER(?)"), Past(rest, ") LIKE LOWER(?)");
      if eq.Some? then Some(Piece(LeafLex(Template(col, LowerEquals)), eq.value))
      else if like.Some? then Some(Piece(LeafLex(Template(col, LowerLike)), like.value))
      else None
    else
      var col := Word(s);
      var rest := s[|col|..];
      var eq, like := Past(rest, " = ?"), Past(rest, " LIKE ?");
      if eq.Some? then Some(Piece(LeafLex(Template(col, Equals)), eq.value))
      else if like.Some? then Some(Piece(LeafLex(Template(col, Like)), like.value))
      else None
  }

  /** The lexeme at the front of a text that does not start with a space. */
  function ReadOne(s: string): (r: Option<Piece>)
    requires s != ""
    ensures r.Some? ==> |r.value.rest| < |s|
  {
    if s[0] == '(' then Some(Piece(LParen, s[1..]))
    else if s[0] == ')' then Some(Piece(RParen, s[1..]))
    else
      var w := Word(s);
      if Upper(w) == "AND" then Some(Piece(KwAnd, s[|w|..]))
      else if Upper(w) == "OR" then Some(Piece(KwOr, s[|w|..]))
      else if Upper(w) == "NOT" then Some(Piece(KwNot, s[|w|..]))
      else ReadComparison(s)
  }

  /** The whole text; spaces separate. */
  function Read(s: string): Option<seq<Lex>>
    decreases |s|
  {
    if s == "" then Some([])
    else if s[0] == ' ' then Read(s[1..])
    else
      var p := ReadOne(s);
      if p.None? then None
      else
        var rest := Read(p.value.rest);
        if rest.None? then None else Some([p.value.lex] + rest.value)
  }

  /** A column that can be written as it is: word characters, and no keyword. */
  predicate Identifier(col: string) {
    col != "" && (forall c | c in col :: WordChar(c)) && Upper(col) !in {"AND", "OR", "NOT", "LOWER"}
  }

  predicate Identifiers(cols: set<string>) {
    forall c | c in cols :: Identifier(c)
  }

  lemma {:induction false} WordOf(w: string, t: string)
    requires (forall c | c in w :: WordChar(c)) && (t == "" || !WordChar(t[0]))
    ensures Word(w + t) == w
  {
    if w == "" {
      assert w + t == t;
    } else {
      WordOf(w[1..], t);
      assert w[0] in w && (w + t)[0] == w[0] && (w + t)[1..] == w[1..] + t;
    }
  }

  lemma PastLit(lit: string, t: string)
    ensures Past(lit + t, lit) == Some(t)
  {
  }

  /** What the reader makes of a lexeme's text before any other text. */
  ghost predicate ReadBefore(text: string, l: Lex, t: string) {
    Read(text + t) == match Read(t) case Some(ls) => Some([l] + ls) case None => None
  }

  lemma OneBefore(text: string, l: Lex, t: string)
    requires text != "" && text[0] != ' ' && ReadOne(text + t) == Some(Piece(l, t))
    ensures ReadBefore(text, l, t)
  {
    assert text + t != "" && (text + t)[0] == text[0];
  }

  lemma Punctuation(t: string)
    ensures ReadBefore("(", LParen, t) && ReadBefore(")", RParen, t)
  {
    assert ("(" + t)[1..] == t && (")" + t)[1..] == t;
    OneBefore("(", LParen, t);
    OneBefore(")", RParen, t);
  }

  /** A keyword and the space behind it. */
  lemma Keyword(w: string, l: Lex, t: string)
    requires (w == "AND" && l == KwAnd) || (w == "OR" && l == KwOr) || (w == "NOT" && l == KwNot)
    ensures ReadBefore(w + " ", l, t)
  {
    assert w + " " + t == w + (" " + t);
    WordOf(w, " " + t);
    assert Upper(w) == w && (w + (" " + t))[|w|..] == " " + t;
    assert ReadOne(w + (" " + t)) == Some(Piece(l, " " + t));
    assert (" " + t)[1..] == t && Read(" " + t) == Read(t);
    assert (w + (" " + t))[0] == w[0];
  }

  /** A keyword between spaces. */
  lemma Spaced(w: string, l: Lex, t: string)
    requires (w == "AND" && l == KwAnd) || (w == "OR" && l == KwOr)
    ensures ReadBefore(" " + w + " ", l, t)
  {
    Keyword(w, l, t);
    var s := " " + w + " " + t;
    assert s[0] == ' ' && s[1..] == w + " " + t;
  }

  lemma IdentifierFront(col: string, t: string)
    requires Identifier(col) && (t == "" || !WordChar(t[0]))
    ensures Word(col + t) == col && (col + t)[|col|..] == t
    ensures col[0] != '(' && col[0] != ')' && col[0] != ' ' && (col + t)[0] == col[0]
  {
    WordOf(col, t);
    assert col[0] in col;
  }

  lemma NotLower(col: string, t: string)
    requires Identifier(col) && (t == "" || !WordChar(t[0]))
    ensures Past(col + t, "LOWER(").None?
  {
    IdentifierFront(col, t);
    assert Upper("LOWER") == "LOWER";
    if "LOWER(" <= col + t {
      var s := col + t;
      assert s == "LOWER" + s[5..] && s[5] == '(';
      WordOf("LOWER", s[5..]);
    }
  }

  lemma PlainComparison(col: string, shape: Shape, t: string)
    requires Identifier(col) && shape in {Equals, Like}
    ensures var text := if shape == Equals then col + " = ?" else col + " LIKE ?";
            ReadBefore(text, LeafLex(Template(col, shape)), t)
  {
    var lit := if shape == Equals then " = ?" else " LIKE ?";
    var s := col + (lit + t);
    assert s == col + lit + t;
    IdentifierFront(col, lit + t);
    NotLower(col, lit + t);
    PastLit(lit, t);
    assert (lit + t)[1] == lit[1];
    assert ReadComparison(s) == Some(Piece(LeafLex(Template(col, shape)), t));
    OneBefore(col + lit, LeafLex(Template(col, shape)), t);
  }

  function LowerTail(shape: Shape): string {
    if shape == LowerEquals then ") = LOWER(?)" else ") LIKE LOWER(?)"
  }

  lemma LowerTails(shape: Shape, t: string)
    requires shape in {LowerEquals, LowerLike}
    ensures var rest := LowerTail(shape) + t;
            && rest != "" && rest[0] == ')'
            && Past(rest, ") = LOWER(?)") == (if shape == LowerEquals then Some(t) else None)
            && (shape == LowerLike ==> Past(rest, ") LIKE LOWER(?)") == Some(t))
  {
    PastLit(LowerTail(shape), t);
    assert (LowerTail(shape) + t)[2] == LowerTail(shape)[2];
  }

  lemma LowerFound(col: string, shape: Shape, t: string)
    requires Identifier(col) && shape in {LowerEquals, LowerLike}
    ensures ReadComparison("LOWER(" + (col + (LowerTail(shape) + t))) == Some(Piece(LeafLex(Template(col, shape)), t))
  {
    var rest := LowerTail(shape) + t;
    LowerTails(shape, t);
    IdentifierFront(col, rest);
    PastLit("LOWER(", col + rest);
  }

  lemma LowerComparison(col: string, shape: Shape, t: string)
    requires Identifier(col) && shape in {LowerEquals, LowerLike}
    ensures ReadBefore("LOWER(" + col + LowerTail(shape), LeafLex(Template(col, shape)), t)
  {
    var text := "LOWER(" + col + LowerTail(shape);
    assert text + t == "LOWER(" + (col + (LowerTail(shape) + t));
    LowerFound(col, shape, t);
    LowerOne(text + t);
    assert text[0] == 'L';
    OneBefore(text, LeafLex(Template(col, shape)), t);
  }

  lemma LowerOne(s: string)
    requires "LOWER(" <= s
    ensures s != "" && ReadOne(s) == ReadComparison(s)
  {
    assert s == "LOWER" + s[5..] && s[5] == '(';
    WordOf("LOWER", s[5..]);
    assert s[0] == 'L' && Upper("LOWER")[0] == 'L';
  }

  /** Each lexeme's text reads as that lexeme, before any other text. */
  lemma LexReads(l: Lex, t: string)
    requires l.LeafLex? ==> Identifier(l.leaf.column)
    ensures ReadBefore(LexText(l, "?"), l, t)
  {
    match l
    case LParen => Punctuation(t);
    case RParen => Punctuation(t);
    case KwAnd =>
      Spaced("AND", KwAnd, t);
      assert " " + "AND" + " " == " AND ";
    case KwOr =>
      Spaced("OR", KwOr, t);
      assert " " + "OR" + " " == " OR ";
    case KwNot =>
      Keyword("NOT", KwNot, t);
      assert "NOT" + " " == "NOT ";
    case LeafLex(leaf) =>
      LeafReads(leaf, t);
  }

  lemma LeafReads(leaf: Template, t: string)
    requires Identifier(leaf.column)
    ensures ReadBefore(LeafText(leaf, "?"), LeafLex(leaf), t)
  {
    if leaf.shape == Equals || leaf.shape == Like {
      PlainComparison(leaf.column, leaf.shape, t);
      assert LeafText(leaf, "?") == leaf.column + (if leaf.shape == Equals then " = ?" else " LIKE ?");
    } else {
      LowerComparison(leaf.column, leaf.shape, t);
      assert LeafText(leaf, "?") == "LOWER(" + leaf.column + LowerTail(leaf.shape);
    }
  }

  /** The text of a fragment reads as its lexemes. */
  lemma {:induction false} ReadRender(sql: seq<Lex>, cols: set<string>)
    requires ColumnsIn(sql, cols) && Identifiers(cols)
    ensures Read(Render(sql)) == Some(sql)
    decreases |sql|
  {
    if sql != [] {
      ReadRender(sql[1..], cols);
      LexReads(sql[0], Render(sql[1..]));
      assert [sql[0]] + sql[1..] == sql;
    }
  }

  lemma {:induction false} RenderSome(sql: seq<Lex>)
    ensures Render(sql) == "" <==> sql == []
  {
    if sql != [] {
      assert LexText(sql[0], "?") != "";
    }
  }

  /** The fragment as text: empty exactly when the fragment is, and what a database reads and runs. */
  lemma TextRuns(c: Condition, cols: set<string>, I: Interp)
    requires ColumnsIn(c.sql, cols) && Identifiers(cols)
    ensures Read(Render(c.sql)).Some?
    ensures Execute(Condition(Read(Render(c.sql)).value, c.args), I) == Execute(c, I)
    ensures Render(c.sql) == "" <==> c.sql == []
  {
    ReadRender(c.sql, cols);
    RenderSome(c.sql);
  }

  /** The WHERE clause of the text as a database runs it on a row. */
  function RunText(text: string, args: seq<string>, I: Interp): Option<bool> {
    match Read(text)
    case None => None
    case Some(sql) => Execute(Condition(sql, args), I)
  }

  /** The text BuildWhere returns, read and parsed, is true of a row exactly when the JSON tree is, and
      is no SQL when a logical array is empty. */
  lemma WhereText(root: Json, fm: FieldSpecMap, I: Interp)
    requires WhereOf(Parsed(root), fm).Ok? && Identifiers(Columns(fm))
    ensures var where := WhereOf(Parsed(root), fm).value;
            && TreeMeaning(root, LeafBackend(fm, I)).Ok?
            && RunText(Render(where.sql), where.args, I)
               == if FieldsNoEmptyArrays(FieldsOf(Parsed(root)))
                  then Some(TreeMeaning(root, LeafBackend(fm, I)).value) else None
  {
    var where := WhereOf(Parsed(root), fm).value;
    WherePrinted(Parsed(root), fm);
    TextRuns(where, Columns(fm), I);
    WhereMeansTree(root, fm, I);
  }

  /** What the members ask of a rule together: nothing sensible when one has an empty logical array. */
  ghost function Together(ms: seq<Member>, fm: FieldSpecMap, I: Interp): Option<bool> {
    if forall m | m in ms && m.key != "subject" :: NoEmptyArrays(m.value)
    then Some(forall m | m in ms :: MemberMeaning(m, fm, I) == Ok(true)) else None
  }

  lemma AccessTogether(raw: RawFilter, fm: FieldSpecMap, I: Interp)
    requires AccessWhere(raw, fm).Ok? && DistinctKeys(FieldsOf(raw))
    ensures Execute(AccessWhere(raw, fm).value, I) == Together(FieldsOf(raw), fm, I)
  {
    AccessFilterMeaning(raw, fm, I);
  }

  lemma QuerySplits(base: string, orderBy: string, sql: seq<Lex>)
    ensures var text := Render(sql);
            Query(base, orderBy, sql)
            == base + (if text == "" then "" else " WHERE " + text) + (if orderBy == "" then "" else " " + orderBy)
  {
    RenderSome(sql);
  }

  /** A whole list query: without conditions it is the base query and the order; otherwise a WHERE clause
      stands between them, whose text, read and parsed, is true of a rule exactly when every member of
      the filter holds. */
  lemma QueryMeaning(raw: RawFilter, fm: FieldSpecMap, base: string, orderBy: string, I: Interp) returns (text: string)
    requires AccessWhere(raw, fm).Ok? && DistinctKeys(FieldsOf(raw)) && Identifiers(Columns(fm))
    ensures Query(base, orderBy, AccessWhere(raw, fm).value.sql)
         == base + (if text == "" then "" else " WHERE " + text) + (if orderBy == "" then "" else " " + orderBy)
    ensures RunText(text, AccessWhere(raw, fm).value.args, I) == Together(FieldsOf(raw), fm, I)
  {
    var c := AccessWhere(raw, fm).value;
    text := Render(c.sql);
    QuerySplits(base, orderBy, c.sql);
    AccessPrinted(raw, fm);
    SubjectIdentifiers(Columns(fm));
    TextRuns(c, Columns(fm) + SUBJECT_COLUMNS, I);
    AccessTogether(raw, fm, I);
  }

  lemma SubjectIdentifiers(cols: set<string>)
    requires Identifiers(cols)
    ensures Identifiers(cols + SUBJECT_COLUMNS)
  {
    assert Upper("type") == "TYPE" && Upper("subject_id")[0] == 'S';
  }
}
