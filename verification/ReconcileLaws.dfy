/** What discovery passes and removals keep. */
module ReconcileLaws {
  import opened Wrappers
  import opened Reconcile

  // ----- The upserts of a pass -----

  /** `u` came from `t` by storing guests of one instance: ids keep their places, other instances are
      untouched, and a new id is fresh, on the instance and at a reported number. */
  ghost predicate Extends(t: Tables, u: Tables, instance: int, live: set<int>) {
    && Sane(u) && u.rules == t.rules && u.instances == t.instances && u.instanceRules == t.instanceRules
    && t.nextGuest <= u.nextGuest
    && (forall id | id in t.guests ::
          id in u.guests && At(u.guests[id], t.guests[id].instance, t.guests[id].vmid)
          && (t.guests[id].instance != instance || t.guests[id].vmid !in live ==> u.guests[id] == t.guests[id]))
    && (forall id | id in u.guests && id !in t.guests ::
          id >= t.nextGuest && u.guests[id].instance == instance && u.guests[id].vmid in live)
  }

  ghost predicate AllStored(t: Tables, instance: int, rs: seq<Reported>, failing: set<nat>, n: nat)
    requires n <= |rs|
  {
    forall i | 0 <= i < n && rs[i].status == Running && i !in failing :: Stored(t, instance, rs[i].vmid)
  }

  lemma ExtendsFurther(t: Tables, u: Tables, v: Tables, instance: int, r: Reported, live: set<int>)
    requires Sane(t) && Extends(t, u, instance, live) && v == Upserted(u, instance, r)
    ensures Extends(t, v, instance, live + {r.vmid})
    ensures Stored(v, instance, r.vmid) && forall k | Stored(u, instance, k) :: Stored(v, instance, k)
  {
    UpsertedKeeps(u, instance, r);
    var id :| id in v.guests && v.guests[id] == Guest(r.kind, r.name, r.status, r.vmid, instance);
    assert IsAt(v, id, instance, r.vmid);
    forall k | Stored(u, instance, k)
      ensures Stored(v, instance, k)
    {
      var id :| IsAt(u, id, instance, k);
      assert IsAt(v, id, instance, k);
    }
  }

  lemma LiveNext(rs: seq<Reported>, n: nat)
    requires 0 < n <= |rs|
    ensures Live(rs, n) == if rs[n - 1].status == Running then Live(rs, n - 1) + {rs[n - 1].vmid} else Live(rs, n - 1)
  {
  }

  lemma MoreLive(t: Tables, u: Tables, instance: int, live: set<int>, more: set<int>)
    requires Extends(t, u, instance, live) && live <= more
    ensures Extends(t, u, instance, more)
  {
  }

  lemma {:induction false} UpsertsExtend(t: Tables, instance: int, rs: seq<Reported>, failing: set<nat>, n: nat)
    requires Sane(t) && n <= |rs|
    ensures var u := Upserts(t, instance, rs, failing, n);
            Extends(t, u, instance, Live(rs, n)) && AllStored(u, instance, rs, failing, n)
    decreases n
  {
    if n > 0 {
      UpsertsExtend(t, instance, rs, failing, n - 1);
      var u := Upserts(t, instance, rs, failing, n - 1);
      LiveNext(rs, n);
      if rs[n - 1].status == Running && n - 1 !in failing {
        ExtendsFurther(t, u, Upserted(u, instance, rs[n - 1]), instance, rs[n - 1], Live(rs, n - 1));
      } else {
        MoreLive(t, u, instance, Live(rs, n - 1), Live(rs, n));
      }
    }
  }

  // ----- A whole pass -----

  /** After a pass without error the instance has exactly the running guests that were reported. */
  lemma PassStoresRunning(t: Tables, instance: int, rs: seq<Reported>, f: Faults, vmid: int)
    requires Sane(t) && PassTrouble(rs, f) == None
    ensures Stored(StoredGuests(t, instance, rs, f), instance, vmid) <==> vmid in Live(rs, |rs|)
  {
    var all := Upserts(t, instance, rs, f.upserts, |rs|);
    var u := StoredGuests(t, instance, rs, f);
    UpsertsExtend(t, instance, rs, f.upserts, |rs|);
    assert u == Pruned(all, instance, Live(rs, |rs|));
    if vmid in Live(rs, |rs|) {
      var i :| 0 <= i < |rs| && rs[i].status == Running && rs[i].vmid == vmid;
      assert i !in f.upserts;
      assert Stored(all, instance, vmid);
      var id :| IsAt(all, id, instance, vmid);
      assert IsAt(u, id, instance, vmid);
    }
    if Stored(u, instance, vmid) {
      var id :| IsAt(u, id, instance, vmid);
      assert id in all.guests && id !in Stale(all, instance, Live(rs, |rs|));
    }
  }

  /** The guest stands in the tables as it was reported. */
  ghost predicate StoredAs(t: Tables, instance: int, r: Reported) {
    exists id :: id in t.guests && t.guests[id] == Guest(r.kind, r.name, r.status, r.vmid, instance)
  }

  /** The last report of its number among the first `n` that are running and stored. */
  predicate LastReport(rs: seq<Reported>, failing: set<nat>, i: nat, n: nat)
    requires i < n <= |rs|
  {
    && rs[i].status == Running && i !in failing
    && forall j | i < j < n && rs[j].status == Running && j !in failing :: rs[j].vmid != rs[i].vmid
  }

  lemma StaysStored(t: Tables, instance: int, r: Reported, q: Reported)
    requires Sane(t) && StoredAs(t, instance, r) && q.vmid != r.vmid
    ensures StoredAs(Upserted(t, instance, q), instance, r)
  {
    UpsertedKeeps(t, instance, q);
    var id :| id in t.guests && t.guests[id] == Guest(r.kind, r.name, r.status, r.vmid, instance);
    assert id in Upserted(t, instance, q).guests;
  }

  lemma {:induction false} UpsertsStore(t: Tables, instance: int, rs: seq<Reported>, failing: set<nat>, i: nat, n: nat)
    requires Sane(t) && i < n <= |rs| && LastReport(rs, failing, i, n)
    ensures StoredAs(Upserts(t, instance, rs, failing, n), instance, rs[i])
    decreases n
  {
    UpsertsExtend(t, instance, rs, failing, n - 1);
    var before := Upserts(t, instance, rs, failing, n - 1);
    if i == n - 1 {
      UpsertedKeeps(before, instance, rs[i]);
    } else {
      UpsertsStore(t, instance, rs, failing, i, n - 1);
      if rs[n - 1].status == Running && n - 1 !in failing {
        StaysStored(before, instance, rs[i], rs[n - 1]);
      }
    }
  }

  /** After a pass that is not cancelled, whatever else fails in it, a guest stands in the tables as the
      last report that was stored of its number has it. */
  lemma PassStoresReports(t: Tables, instance: int, rs: seq<Reported>, f: Faults, i: nat)
    requires Sane(t) && !Cancels(f, rs) && i < |rs| && LastReport(rs, f.upserts, i, |rs|)
    ensures StoredAs(StoredGuests(t, instance, rs, f), instance, rs[i])
  {
    UpsertsStore(t, instance, rs, f.upserts, i, |rs|);
    var all, u := Upserts(t, instance, rs, f.upserts, |rs|), StoredGuests(t, instance, rs, f);
    var id :| id in all.guests && all.guests[id] == Guest(rs[i].kind, rs[i].name, rs[i].status, rs[i].vmid, instance);
    assert rs[i].vmid in Live(rs, |rs|);
    assert id in u.guests && u.guests[id] == all.guests[id];
  }

  /** What a pass keeps, whatever fails in it: the tables stay sane; guests keep their ids, places and
      rules; other instances are untouched; only guests not reported as running are dropped, and nothing
      at all is when the pass is cancelled or the pruning fails; a dropped guest takes its rules along;
      and a new guest gets an id never used before. */
  lemma PassKeeps(t: Tables, instance: int, rs: seq<Reported>, f: Faults)
    requires Sane(t)
    ensures var u := StoredGuests(t, instance, rs, f);
            var prunes := !Cancels(f, rs) && !f.prune;
            && Sane(u) && t.nextGuest <= u.nextGuest
            && u.instances == t.instances && u.instanceRules == t.instanceRules
            && (forall id | id in t.guests ::
                  (id in u.guests <==> !prunes || t.guests[id].instance != instance || t.guests[id].vmid in Live(rs, |rs|)))
            && (forall id | id in t.guests && id in u.guests :: At(u.guests[id], t.guests[id].instance, t.guests[id].vmid))
            && (forall id | id in t.guests && t.guests[id].instance != instance ::
                  id in u.guests && u.guests[id] == t.guests[id])
            && (forall id | id in u.guests && id !in t.guests :: id >= t.nextGuest && u.guests[id].instance == instance)
            && (forall r | r in t.rules :: (r in u.rules <==> r.target in u.guests || r.target !in t.guests || !prunes))
            && u.rules <= t.rules
            && (forall r | r in u.rules :: r.target in t.guests ==> r.target in u.guests)
  {
    var n := if Cancels(f, rs) then f.cancelled.value else |rs|;
    UpsertsExtend(t, instance, rs, f.upserts, n);
    var all := Upserts(t, instance, rs, f.upserts, n);
    if !Cancels(f, rs) && !f.prune {
      PruneKeeps(t, all, instance, Live(rs, |rs|));
    }
  }

  /** Pruning after the upserts of a pass drops only what was there before and was not reported. */
  lemma PruneKeeps(t: Tables, all: Tables, instance: int, live: set<int>)
    requires Sane(t) && Extends(t, all, instance, live)
    ensures var u := Pruned(all, instance, live);
            && Sane(u)
            && (forall id | id in t.guests ::
                  (id in u.guests <==> t.guests[id].instance != instance || t.guests[id].vmid in live))
            && (forall id | id in u.guests :: u.guests[id] == all.guests[id])
            && (forall r | r in t.rules :: (r in u.rules <==> r.target in u.guests || r.target !in t.guests))
  {
    var u := Pruned(all, instance, live);
    var stale := Stale(all, instance, live);
    forall id | id in stale
      ensures id in t.guests
    {
      assert id in all.guests && all.guests[id].vmid !in live;
    }
    forall r | r in t.rules
      ensures r in u.rules <==> r.target in u.guests || r.target !in t.guests
    {
      assert r in u.rules <==> r.target !in stale;
    }
  }

  lemma RemovalKeeps(t: Tables, instance: int)
    requires Sane(t)
    ensures var u := InstanceRemoved(t, instance);
            && Sane(u) && u.nextGuest == t.nextGuest && instance !in u.instances
            && (forall id | id in t.guests :: (id in u.guests <==> t.guests[id].instance != instance))
            && (forall id | id in u.guests :: id in t.guests && u.guests[id] == t.guests[id])
            && (forall r | r in t.rules :: (r in u.rules <==> r.target !in t.guests || r.target in u.guests))
            && u.rules <= t.rules
            && (forall r | r in t.instanceRules :: (r in u.instanceRules <==> r.target != instance))
  {
    forall r | r in t.rules
      ensures r in InstanceRemoved(t, instance).rules
         <==> r.target !in t.guests || r.target in InstanceRemoved(t, instance).guests
    {
      assert r.target in Stale(t, instance, {}) <==> r.target in t.guests && t.guests[r.target].instance == instance;
    }
  }

  // ----- Runs -----

  datatype Event =
    | Pass(instance: int, reports: seq<Reported>, faults: Faults)
    | RemoveInstance(instance: int)
    | Grant(rule: Rule)
    | Withdraw(rule: Rule)

  ghost function Step(t: Tables, e: Event): Tables {
    match e
    case Pass(instance, reports, faults) => StoredGuests(t, instance, reports, faults)
    case RemoveInstance(instance) => InstanceRemoved(t, instance)
    case Grant(rule) => t.(rules := t.rules + {rule})
    case Withdraw(rule) => t.(rules := t.rules - {rule})
  }

  ghost function Run(t: Tables, es: seq<Event>): Tables {
    if es == [] then t else Step(Run(t, es[..|es| - 1]), es[|es| - 1])
  }

  lemma {:induction false} RunSane(t: Tables, es: seq<Event>)
    requires Sane(t)
    ensures Sane(Run(t, es)) && t.nextGuest <= Run(t, es).nextGuest
  {
    if es != [] {
      var before, e := Run(t, es[..|es| - 1]), es[|es| - 1];
      RunSane(t, es[..|es| - 1]);
      StepSane(before, e);
    }
  }

  lemma StepSane(t: Tables, e: Event)
    requires Sane(t)
    ensures Sane(Step(t, e)) && t.nextGuest <= Step(t, e).nextGuest
  {
    match e {
      case Pass(instance, reports, faults) => PassKeeps(t, instance, reports, faults);
      case RemoveInstance(instance) => RemovalKeeps(t, instance);
      case Grant(_) =>
      case Withdraw(_) =>
    }
  }

  /** A guest that is gone for good: its id is behind, its row and every rule for it are gone. */
  predicate Gone(t: Tables, id: int) {
    id < t.nextGuest && id !in t.guests && forall r | r in t.rules :: r.target != id
  }

  lemma DroppedIsGone(t: Tables, e: Event, id: int)
    requires Sane(t) && id in t.guests && id !in Step(t, e).guests
    ensures Gone(Step(t, e), id)
  {
    match e {
      case Pass(instance, reports, faults) => PassKeeps(t, instance, reports, faults);
      case RemoveInstance(instance) => RemovalKeeps(t, instance);
      case Grant(_) =>
      case Withdraw(_) =>
    }
  }

  lemma GoneStays(t: Tables, e: Event, id: int)
    requires Sane(t) && Gone(t, id) && !(e.Grant? && e.rule.target == id)
    ensures Gone(Step(t, e), id)
  {
    match e {
      case Pass(instance, reports, faults) => PassKeeps(t, instance, reports, faults);
      case RemoveInstance(instance) => RemovalKeeps(t, instance);
      case Grant(_) =>
      case Withdraw(_) =>
    }
  }

  lemma {:induction false} GoneForGood(t: Tables, es: seq<Event>, id: int)
    requires Sane(t) && Gone(t, id) && forall i | 0 <= i < |es| :: !(es[i].Grant? && es[i].rule.target == id)
    ensures Sane(Run(t, es)) && Gone(Run(t, es), id)
  {
    if es != [] {
      GoneForGood(t, es[..|es| - 1], id);
      GoneStays(Run(t, es[..|es| - 1]), es[|es| - 1], id);
      StepSane(Run(t, es[..|es| - 1]), es[|es| - 1]);
    }
  }

  /** Once a pass or the removal of its instance has dropped a guest, access to its id can only come from
      the default policy, whatever passes, removals, grants for others and withdrawals follow. */
  lemma NoAccessAfterRemoval(t: Tables, e: Event, es: seq<Event>, id: int, p: Policy, m: Members, client: int)
    requires Sane(t) && id in t.guests && id !in Step(t, e).guests
    requires forall i | 0 <= i < |es| :: !(es[i].Grant? && es[i].rule.target == id)
    ensures var after := Run(Step(t, e), es);
            id !in after.guests && (HasAccess(after.rules, p, m, client, id) <==> PolicyAdmits(p, m, client))
  {
    DroppedIsGone(t, e, id);
    StepSane(t, e);
    GoneForGood(Step(t, e), es, id);
  }

  /** The event leaves a guest at this place alone: its instance stays, and a pass over it that prunes
      reports the guest as running. */
  predicate Leaves(e: Event, instance: int, vmid: int) {
    match e
    case Pass(i, reports, faults) =>
      i != instance || Cancels(faults, reports) || faults.prune || vmid in Live(reports, |reports|)
    case RemoveInstance(i) => i != instance
    case _ => true
  }

  /** Granted and not withdrawn since, or there before and never withdrawn. */
  predicate Standing(r: Rule, before: bool, es: seq<Event>) {
    if es == [] then before
    else
      var last := es[|es| - 1];
      last == Grant(r) || (last != Withdraw(r) && Standing(r, before, es[..|es| - 1]))
  }

  /** One event: whether it leaves the guest, and what it does to a rule for it. */
  lemma StepLeaves(t: Tables, e: Event, id: int, r: Rule)
    requires Sane(t) && id in t.guests && r.target == id
    ensures var g, u := t.guests[id], Step(t, e);
            && (id in u.guests <==> Leaves(e, g.instance, g.vmid))
            && (id in u.guests ==>
                  && At(u.guests[id], g.instance, g.vmid)
                  && (r in u.rules <==> e == Grant(r) || (e != Withdraw(r) && r in t.rules)))
  {
    match e {
      case Pass(instance, reports, faults) => PassKeeps(t, instance, reports, faults);
      case RemoveInstance(instance) => RemovalKeeps(t, instance);
      case Grant(_) =>
      case Withdraw(_) =>
    }
  }

  lemma IdStaysBehind(t: Tables, e: Event, id: int)
    requires Sane(t) && id < t.nextGuest && id !in t.guests
    ensures id !in Step(t, e).guests
  {
    match e {
      case Pass(instance, reports, faults) => PassKeeps(t, instance, reports, faults);
      case RemoveInstance(instance) => RemovalKeeps(t, instance);
      case Grant(_) =>
      case Withdraw(_) =>
    }
  }

  predicate AllLeave(es: seq<Event>, instance: int, vmid: int) {
    forall i | 0 <= i < |es| :: Leaves(es[i], instance, vmid)
  }

  /** Over every run: a guest keeps its id exactly as long as its instance stays and every pass that
      prunes reports it as running; and while it does, the rules for it are exactly those granted and
      not withdrawn since. */
  lemma {:induction false} RulesSurvive(t: Tables, es: seq<Event>, id: int, r: Rule)
    requires Sane(t) && id in t.guests && r.target == id
    ensures var g, u := t.guests[id], Run(t, es);
            && (id in u.guests <==> AllLeave(es, g.instance, g.vmid))
            && (id in u.guests ==>
                  At(u.guests[id], g.instance, g.vmid) && (r in u.rules <==> Standing(r, r in t.rules, es)))
  {
    if es != [] {
      var n, g := |es| - 1, t.guests[id];
      var before := Run(t, es[..n]);
      RulesSurvive(t, es[..n], id, r);
      RunSane(t, es[..n]);
      assert AllLeave(es, g.instance, g.vmid) <==> AllLeave(es[..n], g.instance, g.vmid) && Leaves(es[n], g.instance, g.vmid);
      if id in before.guests {
        StepLeaves(before, es[n], id, r);
      } else {
        IdStaysBehind(before, es[n], id);
      }
    }
  }
}
