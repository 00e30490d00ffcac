/** Two back ends whose leaves and combinations correspond give corresponding results on every tree. */
module FilterSimulation {
  import opened Wrappers
  import opened FilterJson
  import opened FilterTokens
  import opened FilterWalk

  ghost predicate Pairwise<P, Q>(ps: seq<P>, qs: seq<Q>, R: (P, Q) -> bool) {
    |ps| == |qs| && forall i | 0 <= i < |ps| :: R(ps[i], qs[i])
  }

  /** `b` gives what `a` gives, up to `R`; an error outside `except` is given by both. */
  ghost predicate Related<P, Q>(a: Result<P, Error>, b: Result<Q, Error>, R: (P, Q) -> bool, except: set<Error>) {
    && (a.Ok? ==> b.Ok? && R(a.value, b.value))
    && (a.Err? && a.error !in except ==> b.Err? && b.error == a.error)
  }

  ghost predicate RelatedSeq<P, Q>(a: Result<seq<P>, Error>, b: Result<seq<Q>, Error>, R: (P, Q) -> bool,
                                   except: set<Error>) {
    && (a.Ok? ==> b.Ok? && Pairwise(a.value, b.value, R))
    && (a.Err? && a.error !in except ==> b.Err? && b.error == a.error)
  }

  ghost predicate RelatedCombiners<P(!new), Q(!new)>(a: Combiner<P>, b: Combiner<Q>, R: (P, Q) -> bool) {
    && (forall p, q :: R(p, q) ==> R(a.not(p), b.not(q)))
    && (forall ps, qs :: Pairwise(ps, qs, R) ==>
          R(a.and(ps), b.and(qs)) && R(a.or(ps), b.or(qs)) && R(a.nor(ps), b.nor(qs)))
  }

  /** The leaves of one field correspond. */
  ghost predicate RelatedLeaves<P, Q>(a: Backend<P>, b: Backend<Q>, field: string, R: (P, Q) -> bool,
                                      except: set<Error>) {
    forall op, v :: Related(a.mapper(field, op, v), b.mapper(field, op, v), R, except)
  }

  lemma ConsRelated<P, Q>(p: Result<P, Error>, q: Result<Q, Error>, ps: Result<seq<P>, Error>,
                          qs: Result<seq<Q>, Error>, R: (P, Q) -> bool, except: set<Error>)
    requires Related(p, q, R, except) && RelatedSeq(ps, qs, R, except)
    ensures p.Err? && p.error !in except ==> q.Err? && q.error == p.error
    ensures p.Ok? ==> q.Ok? && RelatedSeq(Prepend([p.value], ps), Prepend([q.value], qs), R, except)
  {
  }

  lemma GroupRelated<P(!new), Q(!new)>(a: Backend<P>, b: Backend<Q>, ps: seq<P>, qs: seq<Q>, R: (P, Q) -> bool,
                           except: set<Error>)
    requires Pairwise(ps, qs, R) && RelatedCombiners(a.combiner, b.combiner, R)
    ensures Related(Group(ps, a), Group(qs, b), R, except)
  {
  }

  lemma {:induction false} OpsRelated<P(!new), Q(!new)>(field: string, ops: seq<Member>, a: Backend<P>, b: Backend<Q>,
                                            R: (P, Q) -> bool, except: set<Error>)
    requires RelatedLeaves(a, b, field, R, except) && RelatedCombiners(a.combiner, b.combiner, R)
    ensures RelatedSeq(DenoteOps(field, ops, a), DenoteOps(field, ops, b), R, except)
    decreases MembersSize(ops), 0
  {
    if ops != [] {
      OpRelated(field, ops[0].key, ops[0].value, a, b, R, except);
      OpsRelated(field, ops[1..], a, b, R, except);
      ConsRelated(DenoteOp(field, ops[0].key, ops[0].value, a), DenoteOp(field, ops[0].key, ops[0].value, b),
        DenoteOps(field, ops[1..], a), DenoteOps(field, ops[1..], b), R, except);
    }
  }

  lemma {:induction false} ObjectRelated<P(!new), Q(!new)>(field: string, j: Json, a: Backend<P>, b: Backend<Q>,
                                               R: (P, Q) -> bool, except: set<Error>)
    requires RelatedLeaves(a, b, field, R, except) && RelatedCombiners(a.combiner, b.combiner, R)
    ensures Related(DenoteObject(field, j, a), DenoteObject(field, j, b), R, except)
    decreases Size(j), 0
  {
    if AsObject(j).Ok? {
      var ops := AsObject(j).value;
      OpsRelated(field, ops, a, b, R, except);
      if DenoteOps(field, ops, a).Ok? {
        GroupRelated(a, b, DenoteOps(field, ops, a).value, DenoteOps(field, ops, b).value, R, except);
      }
    }
  }

  lemma {:induction false} OpRelated<P(!new), Q(!new)>(field: string, op: string, j: Json, a: Backend<P>, b: Backend<Q>,
                                           R: (P, Q) -> bool, except: set<Error>)
    requires RelatedLeaves(a, b, field, R, except) && RelatedCombiners(a.combiner, b.combiner, R)
    ensures Related(DenoteOp(field, op, j, a), DenoteOp(field, op, j, b), R, except)
    decreases Size(j), 1
  {
    match Kind(op)
    case Leaf =>
    case Not => ObjectRelated(field, j, a, b, R, except);
    case _ =>
      if AsArray(j).Ok? {
        ItemsRelated(field, AsArray(j).value, a, b, R, except);
      }
  }

  lemma {:induction false} ItemsRelated<P(!new), Q(!new)>(field: string, items: seq<Json>, a: Backend<P>, b: Backend<Q>,
                                              R: (P, Q) -> bool, except: set<Error>)
    requires RelatedLeaves(a, b, field, R, except) && RelatedCombiners(a.combiner, b.combiner, R)
    ensures RelatedSeq(DenoteItems(field, items, a), DenoteItems(field, items, b), R, except)
    decreases ItemsSize(items), 0
  {
    if items != [] {
      ObjectRelated(field, items[0], a, b, R, except);
      ItemsRelated(field, items[1..], a, b, R, except);
      ConsRelated(DenoteObject(field, items[0], a), DenoteObject(field, items[0], b),
        DenoteItems(field, items[1..], a), DenoteItems(field, items[1..], b), R, except);
    }
  }

  lemma {:induction false} DenoteRelated<P(!new), Q(!new)>(fields: seq<Member>, a: Backend<P>, b: Backend<Q>,
                                               R: (P, Q) -> bool, except: set<Error>)
    requires forall i | 0 <= i < |fields| :: RelatedLeaves(a, b, fields[i].key, R, except)
    requires RelatedCombiners(a.combiner, b.combiner, R)
    ensures RelatedSeq(Denote(fields, a), Denote(fields, b), R, except)
    decreases |fields|
  {
    if fields != [] {
      ObjectRelated(fields[0].key, fields[0].value, a, b, R, except);
      DenoteRelated(fields[1..], a, b, R, except);
      ConsRelated(DenoteObject(fields[0].key, fields[0].value, a), DenoteObject(fields[0].key, fields[0].value, b),
        Denote(fields[1..], a), Denote(fields[1..], b), R, except);
    }
  }
}
