/** The filter language, spelled out: which keys are which operators, and what each makes of its value. */
module FilterSpelling {
  import opened Wrappers
  import opened FilterJson
  import opened FilterWalk
  import opened FilterMatch

  /** `s` is the word `w` in any case; KELVIN SIGN is a K and LATIN CAPITAL I WITH DOT ABOVE an I. */
  predicate Spells(s: string, w: string) {
    |s| == |w| && forall i | 0 <= i < |s| ::
      || s[i] == w[i]
      || ('a' <= w[i] <= 'z' && s[i] as int == w[i] as int - 32)
      || (w[i] == 'k' && s[i] == '\U{212A}')
      || (w[i] == 'i' && s[i] == '\U{0130}')
  }

  predicate Word(w: string) {
    forall c | c in w :: c == '$' || 'a' <= c <= 'z'
  }

  lemma LowerSpells(s: string, w: string)
    requires Word(w)
    ensures Lower(s) == w <==> Spells(s, w)
  {
    forall i | 0 <= i < |s| && |s| == |w|
      ensures Lower(s)[i] == w[i] <==>
              || s[i] == w[i]
              || ('a' <= w[i] <= 'z' && s[i] as int == w[i] as int - 32)
              || (w[i] == 'k' && s[i] == '\U{212A}')
              || (w[i] == 'i' && s[i] == '\U{0130}')
    {
      assert w[i] in w;
    }
  }

  predicate Logical(op: string) {
    Spells(op, "$and") || Spells(op, "$or") || Spells(op, "$nor") || Spells(op, "$not")
  }

  lemma KindSpelled(op: string)
    ensures Kind(op) == And <==> Spells(op, "$and")
    ensures Kind(op) == Or <==> Spells(op, "$or")
    ensures Kind(op) == Nor <==> Spells(op, "$nor")
    ensures Kind(op) == Not <==> Spells(op, "$not")
  {
    LowerSpells(op, "$and");
    LowerSpells(op, "$or");
    LowerSpells(op, "$nor");
    LowerSpells(op, "$not");
  }

  // ----- What the operators do -----

  predicate ItemsMean(field: string, items: seq<Json>, b: Backend<bool>) {
    forall i | 0 <= i < |items| :: DenoteObject(field, items[i], b).Ok?
  }

  lemma {:induction false} ItemsDenote(field: string, items: seq<Json>, b: Backend<bool>)
    ensures var r := DenoteItems(field, items, b);
            && (r.Ok? <==> ItemsMean(field, items, b))
            && (r.Ok? ==>
                  && |r.value| == |items|
                  && forall i | 0 <= i < |items| :: r.value[i] == DenoteObject(field, items[i], b).value)
  {
    if items != [] {
      ItemsDenote(field, items[1..], b);
      assert forall i | 0 < i < |items| :: items[i] == items[1..][i - 1];
      assert ItemsMean(field, items, b) <==> DenoteObject(field, items[0], b).Ok? && ItemsMean(field, items[1..], b) by {
        assert forall i | 0 <= i < |items| - 1 :: items[1..][i] == items[i + 1];
      }
    }
  }

  /** $and holds when all of its elements hold, $or when one does, $nor when none does; they mean
      something exactly when each element does. Their value is an array, or null for an empty one. */
  lemma LogicalMeaning(field: string, op: string, j: Json, b: Backend<bool>)
    requires b.combiner == BOOL_COMBINER
    requires Spells(op, "$and") || Spells(op, "$or") || Spells(op, "$nor")
    ensures var r := DenoteOp(field, op, j, b);
            if !j.Null? && !j.Array? then r.Err?
            else
              var items := if j.Array? then j.items else [];
              && (r.Ok? <==> ItemsMean(field, items, b))
              && (r.Ok? ==>
                    r.value
                    == if Spells(op, "$and") then forall i | 0 <= i < |items| :: DenoteObject(field, items[i], b).value
                       else if Spells(op, "$or") then exists i | 0 <= i < |items| :: DenoteObject(field, items[i], b).value
                       else forall i | 0 <= i < |items| :: !DenoteObject(field, items[i], b).value)
  {
    KindSpelled(op);
    if j.Null? || j.Array? {
      ItemsDenote(field, if j.Array? then j.items else [], b);
    }
  }

  /** $not takes an operator object and holds when that does not. */
  lemma NotMeaning(field: string, op: string, j: Json, b: Backend<bool>)
    requires b.combiner == BOOL_COMBINER && Spells(op, "$not")
    ensures DenoteOp(field, op, j, b)
         == match DenoteObject(field, j, b) case Ok(v) => Ok(!v) case Err(e) => Err(e)
  {
    KindSpelled(op);
  }

  predicate OpsMean(field: string, ops: seq<Member>, b: Backend<bool>) {
    forall i | 0 <= i < |ops| :: DenoteOp(field, ops[i].key, ops[i].value, b).Ok?
  }

  lemma {:induction false} OpsDenote(field: string, ops: seq<Member>, b: Backend<bool>)
    ensures var r := DenoteOps(field, ops, b);
            && (r.Ok? <==> OpsMean(field, ops, b))
            && (r.Ok? ==>
                  && |r.value| == |ops|
                  && forall i | 0 <= i < |ops| :: r.value[i] == DenoteOp(field, ops[i].key, ops[i].value, b).value)
  {
    if ops != [] {
      OpsDenote(field, ops[1..], b);
      assert forall i | 0 < i < |ops| :: ops[i] == ops[1..][i - 1];
      assert OpsMean(field, ops, b) <==> DenoteOp(field, ops[0].key, ops[0].value, b).Ok? && OpsMean(field, ops[1..], b) by {
        assert forall i | 0 <= i < |ops| - 1 :: ops[1..][i] == ops[i + 1];
      }
    }
  }

  /** An operator object holds when all of its operators do, and means something exactly when it has
      some and each of them does. */
  lemma ObjectMeaning(field: string, j: Json, b: Backend<bool>)
    requires b.combiner == BOOL_COMBINER
    ensures var r := DenoteObject(field, j, b);
            if !j.Object? then r.Err?
            else
              && (r.Ok? <==> j.members != [] && OpsMean(field, j.members, b))
              && (r.Ok? ==>
                    r.value == forall i | 0 <= i < |j.members| ::
                                 DenoteOp(field, j.members[i].key, j.members[i].value, b).value)
  {
    if j.Object? {
      OpsDenote(field, j.members, b);
    }
  }
}
