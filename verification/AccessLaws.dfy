/** What an access-rule filter asks for, said of its own members: the one called "subject" is a test of
    the rule's two subject columns, every other one a condition on its field. */
module AccessLaws {
  import opened Wrappers
  import opened FilterJson
  import opened FilterWalk
  import opened FilterSql
  import opened SqlSemantics
  import opened FilterMatch
  import opened FilterMeaning
  import opened FilterOrder
  import opened FilterSpelling
  import opened AccessFilter

  /** The keys of a decoded object are distinct. */
  predicate DistinctKeys(ms: seq<Member>) {
    forall i, j | 0 <= i < j < |ms| :: ms[i].key != ms[j].key
  }

  /** What one member asks of a rule. */
  function MemberMeaning(m: Member, fm: FieldSpecMap, I: Interp): Result<bool, Error> {
    if m.key == "subject" then SubjectMeaning(m.value, Is(I)) else DenoteObject(m.key, m.value, LeafBackend(fm, I))
  }

  predicate MemberIsSql(m: Member) {
    m.key == "subject" || NoEmptyArrays(m.value)
  }

  // ----- "type:id" -----

  lemma {:induction false} ColonAfter(t: string, rest: string)
    requires ':' !in t
    ensures Colon(t + ":" + rest) == |t|
  {
    var s := t + ":" + rest;
    if t != "" {
      assert s[0] == t[0] && s[1..] == t[1..] + ":" + rest;
      assert t[0] in t && forall c | c in t[1..] :: c in t;
      ColonAfter(t[1..], rest);
    }
  }

  /** A subject is a non-empty type, a colon and a non-empty id, split at the first colon. */
  lemma TypeAndIdReads(val: Json, t: string, id: string)
    ensures TypeAndId(val) == Ok((t, id)) <==> val == Text(t + ":" + id) && t != "" && id != "" && ':' !in t
  {
    if val.Text? && val.s == t + ":" + id && t != "" && id != "" && ':' !in t {
      ColonAfter(t, id);
      assert val.s[..|t|] == t && val.s[|t| + 1..] == id;
    }
  }

  // ----- Subject expressions, spelled out -----

  predicate SubjectsMean(items: seq<Json>, subjectIs: (string, string) -> bool) {
    forall i | 0 <= i < |items| :: SubjectMeaning(items[i], subjectIs).Ok?
  }

  lemma {:induction false} SubjectItems(items: seq<Json>, subjectIs: (string, string) -> bool)
    ensures var r := SubjectMeanings(items, subjectIs);
            && (r.Ok? <==> SubjectsMean(items, subjectIs))
            && (r.Ok? ==>
                  && |r.value| == |items|
                  && forall i | 0 <= i < |items| :: r.value[i] == SubjectMeaning(items[i], subjectIs).value)
  {
    if items != [] {
      var rest := items[1..];
      SubjectItems(rest, subjectIs);
      assert forall i | 0 < i < |items| :: items[i] == rest[i - 1];
      assert SubjectsMean(items, subjectIs) <==> SubjectMeaning(items[0], subjectIs).Ok? && SubjectsMean(rest, subjectIs) by {
        assert forall i | 0 <= i < |rest| :: rest[i] == items[i + 1];
      }
    }
  }

  predicate SubjectLogic(op: string) {
    Spells(op, "$and") || Spells(op, "$or") || Spells(op, "$nor")
  }

  /** $and, $or and $nor of one subject expression or more. */
  lemma SubjectGroup(op: string, v: Json, subjectIs: (string, string) -> bool)
    requires SubjectLogic(op)
    ensures var r := SubjectMeaning(Object([Member(op, v)]), subjectIs);
            if !v.Array? then r.Err?
            else
              && (r.Ok? <==> v.items != [] && SubjectsMean(v.items, subjectIs))
              && (r.Ok? ==>
                    r.value
                    == if Spells(op, "$and") then forall i | 0 <= i < |v.items| :: SubjectMeaning(v.items[i], subjectIs).value
                       else if Spells(op, "$or") then
                         exists i | 0 <= i < |v.items| :: SubjectMeaning(v.items[i], subjectIs).value
                       else forall i | 0 <= i < |v.items| :: !SubjectMeaning(v.items[i], subjectIs).value)
  {
    KindSpelled(op);
    LowerSpells(op, "$eq");
    if v.Array? {
      SubjectItems(v.items, subjectIs);
    }
  }

  /** $eq asks for one subject and $not denies an expression; every other operator, and every object
      that has not exactly one, is an error. */
  lemma SubjectSpelled(expr: Json, subjectIs: (string, string) -> bool)
    ensures var r := SubjectMeaning(expr, subjectIs);
            if !expr.Object? || |expr.members| != 1 then r.Err?
            else
              var op, v := expr.members[0].key, expr.members[0].value;
              if Spells(op, "$eq") then
                r == match TypeAndId(v) case Ok(p) => Ok(subjectIs(p.0, p.1)) case Err(e) => Err(e)
              else if Spells(op, "$not") then
                r == match SubjectMeaning(v, subjectIs) case Ok(b) => Ok(!b) case Err(e) => Err(e)
              else !SubjectLogic(op) ==> r.Err?
  {
    if expr.Object? && |expr.members| == 1 {
      KindSpelled(expr.members[0].key);
      LowerSpells(expr.members[0].key, "$eq");
    }
  }

  // ----- The members, split and together -----

  lemma {:induction false} SubjectFound(ms: seq<Member>)
    requires DistinctKeys(ms)
    ensures match Lookup(ms, SUBJECT)
            case Some(v) => Member("subject", v) in ms && forall m | m in ms && m.key == "subject" :: m.value == v
            case None => forall m | m in ms :: m.key != "subject"
  {
    if ms != [] {
      SubjectFound(ms[1..]);
      assert forall m | m in ms :: m == ms[0] || m in ms[1..];
      if ms[0].key == "subject" {
        assert forall m | m in ms[1..] :: m.key != ms[0].key;
      }
    }
  }

  /** The others, each with its own meaning. */
  lemma {:induction false} OthersMean(ms: seq<Member>, fm: FieldSpecMap, I: Interp)
    ensures var d := Denote(Delete(ms, SUBJECT), LeafBackend(fm, I));
            && (d.Ok? <==> forall m | m in ms && m.key != "subject" :: MemberMeaning(m, fm, I).Ok?)
            && (d.Ok? ==> (AndAll(d.value) <==> forall m | m in ms && m.key != "subject" :: MemberMeaning(m, fm, I).value))
    ensures FieldsNoEmptyArrays(Delete(ms, SUBJECT)) <==> forall m | m in ms :: MemberIsSql(m)
  {
    if ms != [] {
      OthersMean(ms[1..], fm, I);
      assert forall m | m in ms :: m == ms[0] || m in ms[1..];
      assert ms[0] in ms && forall m | m in ms[1..] :: m in ms;
      if ms[0].key != "subject" {
        var rest := Delete(ms[1..], SUBJECT);
        assert ([ms[0]] + rest)[1..] == rest;
        var d, v := Denote(rest, LeafBackend(fm, I)), MemberMeaning(ms[0], fm, I);
        if d.Ok? && v.Ok? {
          var all := [v.value] + d.value;
          assert AndAll(all) <==> v.value && AndAll(d.value) by {
            assert all[0] == v.value && all[1..] == d.value;
            assert forall i | 0 <= i < |d.value| :: d.value[i] == all[i + 1];
          }
        }
      }
    }
  }

  /** Compiling the subject succeeds exactly where it has a meaning. */
  lemma SubjectAccepts(expr: Json, I: Interp)
    ensures SubjectSql(expr).Ok? <==> SubjectMeaning(expr, Is(I)).Ok?
  {
    SubjectParses(expr);
    SubjectTreeMeaning(expr, I);
  }

  lemma RestAccepts(rest: RawFilter, fm: FieldSpecMap, I: Interp)
    ensures WhereOf(rest, fm).Ok? <==> RestMeaning(rest, fm, I).Ok?
  {
    if rest.Parsed? {
      WhereAccepts(rest.root, fm, I);
    }
  }

  lemma SplitAccepts(raw: RawFilter, fm: FieldSpecMap, I: Interp)
    ensures AccessWhere(raw, fm).Ok? <==> AccessMeaning(raw, fm, I).Ok?
  {
    var (rest, subject) := SplitSubject(raw);
    RestAccepts(rest, fm, I);
    if subject.Some? {
      SubjectAccepts(subject.value, I);
    }
  }

  /** Deleting what is not there leaves the members as they are. */
  lemma {:induction false} NothingDeleted(ms: seq<Member>)
    requires Lookup(ms, SUBJECT).None?
    ensures Delete(ms, SUBJECT) == ms
  {
    if ms != [] {
      NothingDeleted(ms[1..]);
    }
  }

  /** The members' meaning, as one value. */
  ghost predicate MembersGive(ms: seq<Member>, fm: FieldSpecMap, I: Interp, v: Result<bool, Error>) {
    && (v.Ok? <==> forall m | m in ms :: MemberMeaning(m, fm, I).Ok?)
    && (v.Ok? ==> (v.value <==> forall m | m in ms :: MemberMeaning(m, fm, I).value))
  }

  /** A subject beside the other members. */
  lemma SubjectBeside(ms: seq<Member>, subject: Json, fm: FieldSpecMap, I: Interp)
    requires DistinctKeys(ms) && Lookup(ms, SUBJECT) == Some(subject)
    ensures var d, s := Denote(Delete(ms, SUBJECT), LeafBackend(fm, I)), SubjectMeaning(subject, Is(I));
            MembersGive(ms, fm, I, if d.Err? then Err(d.error) else if s.Err? then s else Ok(AndAll(d.value) && s.value))
  {
    SubjectFound(ms);
    OthersMean(ms, fm, I);
    assert MemberMeaning(Member("subject", subject), fm, I) == SubjectMeaning(subject, Is(I));
  }

  lemma WithoutSubject(ms: seq<Member>, fm: FieldSpecMap, I: Interp)
    requires DistinctKeys(ms) && Lookup(ms, SUBJECT).None?
    ensures Delete(ms, SUBJECT) == ms
    ensures var d := Denote(ms, LeafBackend(fm, I));
            MembersGive(ms, fm, I, if d.Err? then Err(d.error) else Ok(AndAll(d.value)))
  {
    SubjectFound(ms);
    NothingDeleted(ms);
    OthersMean(ms, fm, I);
  }

  lemma MembersMean(root: Json, fm: FieldSpecMap, I: Interp)
    requires AsObject(root).Ok? && DistinctKeys(AsObject(root).value)
    ensures MembersGive(AsObject(root).value, fm, I, AccessMeaning(Parsed(root), fm, I))
  {
    var ms := AsObject(root).value;
    var subject := Lookup(ms, SUBJECT);
    if subject.Some? {
      SubjectBeside(ms, subject.value, fm, I);
    } else {
      WithoutSubject(ms, fm, I);
    }
  }

  lemma MembersAreSql(root: Json, fm: FieldSpecMap, I: Interp)
    requires AsObject(root).Ok?
    ensures FieldsNoEmptyArrays(FieldsOf(SplitSubject(Parsed(root)).0))
       <==> forall m | m in AsObject(root).value :: MemberIsSql(m)
  {
    var ms := AsObject(root).value;
    OthersMean(ms, fm, I);
    if Lookup(ms, SUBJECT).None? {
      NothingDeleted(ms);
    }
  }

  /** The rule list, for any filter: with none or with null it has every rule, and what is not an object
      is refused. An object is refused exactly when one of its members means nothing; otherwise the list
      has exactly the rules for which every member holds, and is no query at all when a member other than
      the subject has an empty logical array. */
  lemma AccessFilterMeaning(raw: RawFilter, fm: FieldSpecMap, I: Interp)
    requires DistinctKeys(FieldsOf(raw))
    ensures var where := AccessWhere(raw, fm);
            match raw
            case NoFilter => where.Ok? && Execute(where.value, I) == Some(true)
            case Parsed(Null) => where.Ok? && Execute(where.value, I) == Some(true)
            case Parsed(Object(ms)) =>
              && (where.Ok? <==> forall m | m in ms :: MemberMeaning(m, fm, I).Ok?)
              && (where.Ok? ==>
                    Execute(where.value, I)
                    == if forall m | m in ms && m.key != "subject" :: NoEmptyArrays(m.value)
                       then Some(forall m | m in ms :: MemberMeaning(m, fm, I).value) else None)
            case _ => where.Err?
  {
    if raw.Parsed? && raw.root.Object? {
      MembersMean(raw.root, fm, I);
      SplitAccepts(raw, fm, I);
      if AccessWhere(raw, fm).Ok? {
        MembersAreSql(raw.root, fm, I);
        SplitMeaning(raw, fm, I);
      }
    }
  }
}
