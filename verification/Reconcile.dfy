/** Storing what discovery reports, and the access rules that hang on it
    (internal/proxmox/reconcile.go, internal/db/sql_repository.go). */
module Reconcile {
  import opened Wrappers

  datatype Status = Running | Stopped

  datatype Guest = Guest(kind: string, name: string, status: Status, vmid: int, instance: int)

  datatype Reported = Reported(kind: string, name: string, status: Status, vmid: int)

  datatype Subject = Client(id: int) | Group(id: int)

  datatype Rule = Rule(subject: Subject, target: int)

  /** The tables, keyed by row id. Guest ids are handed out in order and never again. */
  datatype Tables = Tables(guests: map<int, Guest>, nextGuest: int, rules: set<Rule>,
                           instances: set<int>, instanceRules: set<Rule>)

  predicate At(g: Guest, instance: int, vmid: int) {
    g.instance == instance && g.vmid == vmid
  }

  /** Ids below the next one, and a number used once on an instance. */
  predicate Sane(t: Tables) {
    && (forall id | id in t.guests :: id < t.nextGuest)
    && (forall a, b | a in t.guests && b in t.guests && a != b ::
          !At(t.guests[a], t.guests[b].instance, t.guests[b].vmid))
  }

  function ToSet(s: seq<int>): set<int> {
    set x | x in s
  }

  // ----- One guest -----

  predicate IsAt(t: Tables, id: int, instance: int, vmid: int) {
    id in t.guests && At(t.guests[id], instance, vmid)
  }

  ghost predicate Stored(t: Tables, instance: int, vmid: int) {
    exists id :: IsAt(t, id, instance, vmid)
  }

  /** The row of a guest already stored is updated, keeping its id and place; otherwise one is added. */
  ghost function Upserted(t: Tables, instance: int, r: Reported): Tables {
    if Stored(t, instance, r.vmid) then
      var id :| IsAt(t, id, instance, r.vmid);
      t.(guests := t.guests[id := t.guests[id].(kind := r.kind, name := r.name, status := r.status)])
    else
      t.(guests := t.guests[t.nextGuest := Guest(r.kind, r.name, r.status, r.vmid, instance)],
         nextGuest := t.nextGuest + 1)
  }

  /** The guests of an instance whose numbers are not to be kept. */
  function Stale(t: Tables, instance: int, keep: set<int>): set<int> {
    set id | id in t.guests && t.guests[id].instance == instance && t.guests[id].vmid !in keep
  }

  /** Guests leave together with the rules that grant them. */
  function Without(t: Tables, ids: set<int>): Tables {
    t.(guests := t.guests - ids, rules := set r | r in t.rules && r.target !in ids)
  }

  function Pruned(t: Tables, instance: int, keep: set<int>): Tables {
    Without(t, Stale(t, instance, keep))
  }

  function InstanceRemoved(t: Tables, instance: int): Tables {
    Without(t, Stale(t, instance, {})).(
      instances := t.instances - {instance},
      instanceRules := set r | r in t.instanceRules && r.target != instance)
  }

  // ----- One discovery pass -----

  /** What goes wrong during a pass: the context is cancelled before guest `cancelled`, the upserts of
      some guests fail, or the pruning does. */
  datatype Faults = Faults(cancelled: Option<nat>, upserts: set<nat>, prune: bool)

  datatype Trouble = Cancelled | UpsertFailed | PruneFailed

  /** The numbers reported as running among the first `n` guests. */
  function Live(rs: seq<Reported>, n: nat): set<int>
    requires n <= |rs|
  {
    set i | 0 <= i < n && rs[i].status == Running :: rs[i].vmid
  }

  ghost function Upserts(t: Tables, instance: int, rs: seq<Reported>, failing: set<nat>, n: nat): Tables
    requires n <= |rs|
  {
    if n == 0 then t
    else
      var before := Upserts(t, instance, rs, failing, n - 1);
      if rs[n - 1].status == Running && n - 1 !in failing then Upserted(before, instance, rs[n - 1]) else before
  }

  predicate Cancels(f: Faults, rs: seq<Reported>) {
    f.cancelled.Some? && f.cancelled.value < |rs|
  }

  ghost function StoredGuests(t: Tables, instance: int, rs: seq<Reported>, f: Faults): Tables {
    if Cancels(f, rs) then Upserts(t, instance, rs, f.upserts, f.cancelled.value)
    else
      var all := Upserts(t, instance, rs, f.upserts, |rs|);
      if f.prune then all else Pruned(all, instance, Live(rs, |rs|))
  }

  predicate FailsBefore(rs: seq<Reported>, failing: set<nat>, n: nat)
    requires n <= |rs|
  {
    exists i | 0 <= i < n :: rs[i].status == Running && i in failing
  }

  /** How many of the first `n` guests are stored. */
  function Successes(rs: seq<Reported>, failing: set<nat>, n: nat): nat
    requires n <= |rs|
  {
    if n == 0 then 0
    else Successes(rs, failing, n - 1) + (if rs[n - 1].status == Running && n - 1 !in failing then 1 else 0)
  }

  function PassTrouble(rs: seq<Reported>, f: Faults): Option<Trouble> {
    if Cancels(f, rs) then Some(Cancelled)
    else if f.prune then Some(PruneFailed)
    else if FailsBefore(rs, f.upserts, |rs|) then Some(UpsertFailed)
    else None
  }

  // ----- Access -----

  datatype Policy = Policy(clients: seq<int>, groups: seq<int>)

  /** Memberships as recorded on either side. */
  datatype Members = Members(clientGroups: map<int, seq<int>>, groupClients: map<int, seq<int>>)

  ghost predicate MemberOf(m: Members, client: int, group: int) {
    || (client in m.clientGroups && group in m.clientGroups[client])
    || (group in m.groupClients && client in m.groupClients[group])
  }

  ghost predicate PolicyAdmits(p: Policy, m: Members, client: int) {
    client in p.clients || exists g | g in p.groups :: MemberOf(m, client, g)
  }

  /** A rule for the client or for any of its groups, or else the default policy. */
  ghost predicate HasAccess(rules: set<Rule>, p: Policy, m: Members, client: int, guest: int) {
    || Rule(Client(client), guest) in rules
    || (exists g: int :: MemberOf(m, client, g) && Rule(Group(g), guest) in rules)
    || PolicyAdmits(p, m, client)
  }

  // ----- The repository as the program has it -----

  class Repository {
    var tables: Tables
    var members: Members
    var policy: Policy

    constructor (tables: Tables, members: Members, policy: Policy)
      ensures this.tables == tables && this.members == members && this.policy == policy
    {
      this.tables, this.members, this.policy := tables, members, policy;
    }

    method UpsertGuest(instance: int, r: Reported, fails: bool) returns (ok: bool)
      requires Sane(tables)
      modifies this`tables
      ensures ok == !fails
      ensures tables == if fails then old(tables) else Upserted(old(tables), instance, r)
    {
      if fails {
        return false;
      }
      if id :| id in tables.guests && tables.guests[id].vmid == r.vmid && tables.guests[id].instance == instance {
        assert IsAt(tables, id, instance, r.vmid);
        var g := tables.guests[id].(kind := r.kind, name := r.name, status := r.status);
        tables := tables.(guests := tables.guests[id := g]);
      } else {
        var g := Guest(r.kind, r.name, r.status, r.vmid, instance);
        assert forall id :: !IsAt(tables, id, instance, r.vmid);
        tables := tables.(guests := tables.guests[tables.nextGuest := g], nextGuest := tables.nextGuest + 1);
      }
      ok := true;
    }

    /** The ids to drop, collected before anything is deleted. */
    method CollectStale(instance: int, keep: set<int>) returns (stale: seq<int>)
      ensures forall id :: id in stale <==> id in Stale(tables, instance, keep)
      ensures |stale| == |Stale(tables, instance, keep)|
    {
      stale := [];
      ghost var all := Stale(tables, instance, keep);
      var left: set<int> := tables.guests.Keys;
      assert all - left == {};
      while exists x :: x in left
        invariant left <= tables.guests.Keys
        invariant ToSet(stale) == all - left && |stale| == |all - left|
        decreases |left|
      {
        var id :| id in left;
        if tables.guests[id].instance == instance && tables.guests[id].vmid !in keep {
          StaleTaken(all, left, id, stale);
          stale := stale + [id];
        } else {
          StaleSkipped(all, left, id);
        }
        left := left - {id};
      }
      assert all - left == all;
      assert forall id :: id in stale <==> id in ToSet(stale);
    }

    /** Deletes the listed guests and their rules, one id at a time. */
    method Delete(ids: seq<int>)
      modifies this`tables
      ensures tables == Without(old(tables), ToSet(ids))
    {
      for i := 0 to |ids|
        invariant tables == Without(old(tables), ToSet(ids[..i]))
      {
        assert ids[..i + 1] == ids[..i] + [ids[i]];
        AppendMember(ids[..i], ids[i]);
        tables := tables.(rules := set r | r in tables.rules && r.target != ids[i]);
        tables := tables.(guests := tables.guests - {ids[i]});
      }
      assert ids[..|ids|] == ids;
    }

    method RemoveGuestsNotIn(instance: int, keep: seq<int>, fails: bool) returns (r: Result<nat, ()>)
      modifies this`tables
      ensures var kept := ToSet(keep);
              match r
              case Err(_) => fails && tables == old(tables)
              case Ok(n) => !fails && n == |Stale(old(tables), instance, kept)|
                            && tables == Pruned(old(tables), instance, kept)
    {
      var keepSet := ToSet(keep);
      var stale := CollectStale(instance, keepSet);
      if fails {
        return Err(());
      }
      assert forall id :: id in ToSet(stale) <==> id in Stale(tables, instance, keepSet);
      Delete(stale);
      return Ok(|stale|);
    }

    method RemoveProxmoxInstance(instance: int)
      modifies this`tables
      ensures tables == InstanceRemoved(old(tables), instance)
    {
      var ids := CollectStale(instance, {});
      assert forall id :: id in ToSet(ids) <==> id in Stale(tables, instance, {});
      Delete(ids);
      tables := tables.(instanceRules := set r | r in tables.instanceRules && r.target != instance);
      tables := tables.(instances := tables.instances - {instance});
    }

    /** Stores the running guests of one pass and prunes whatever else the instance has. */
    method StoreGuests(instance: int, rs: seq<Reported>, f: Faults)
      returns (stored: nat, removed: nat, trouble: Option<Trouble>)
      requires Sane(tables)
      modifies this`tables
      ensures tables == StoredGuests(old(tables), instance, rs, f)
      ensures trouble == PassTrouble(rs, f)
      ensures stored == Successes(rs, f.upserts, if Cancels(f, rs) then f.cancelled.value else |rs|)
      ensures removed == if Cancels(f, rs) || f.prune then 0
                         else |Stale(Upserts(old(tables), instance, rs, f.upserts, |rs|), instance, Live(rs, |rs|))|
    {
      var live: seq<int> := [];
      trouble, stored, removed := None, 0, 0;
      for i := 0 to |rs|
        invariant Sane(tables) && tables == Upserts(old(tables), instance, rs, f.upserts, i)
        invariant stored == Successes(rs, f.upserts, i) && (f.cancelled.Some? ==> i <= f.cancelled.value)
        invariant ToSet(live) == Live(rs, i)
        invariant trouble == if FailsBefore(rs, f.upserts, i) then Some(UpsertFailed) else None
      {
        LiveGrows(rs, i, live);
        if f.cancelled == Some(i) {
          return stored, 0, Some(Cancelled);
        }
        if rs[i].status != Running {
          continue;
        }
        UpsertedKeeps(tables, instance, rs[i]);
        var ok := UpsertGuest(instance, rs[i], i in f.upserts);
        live := live + [rs[i].vmid];
        if !ok {
          if trouble.None? {
            trouble := Some(UpsertFailed);
          }
          continue;
        }
        stored := stored + 1;
      }
      var n := RemoveGuestsNotIn(instance, live, f.prune);
      if n.Err? {
        return stored, 0, Some(PruneFailed);
      }
      removed := n.value;
    }

    method ClientGroupIDs(client: int) returns (seen: set<int>)
      ensures forall g :: g in seen <==> MemberOf(members, client, g)
    {
      seen := {};
      if client in members.clientGroups {
        seen := set g | g in members.clientGroups[client];
      }
      var left: set<int> := members.groupClients.Keys;
      while exists x :: x in left
        invariant left <= members.groupClients.Keys
        invariant forall g :: g in seen <==>
                    || (client in members.clientGroups && g in members.clientGroups[client])
                    || (g in members.groupClients && g !in left && client in members.groupClients[g])
        decreases |left|
      {
        var g :| g in left;
        left := left - {g};
        if client in members.groupClients[g] {
          seen := seen + {g};
        }
      }
    }

    method CheckAccess(client: int, guest: int) returns (ok: bool)
      ensures ok <==> HasAccess(tables.rules, policy, members, client, guest)
    {
      if Rule(Client(client), guest) in tables.rules {
        return true;
      }
      var groups := ClientGroupIDs(client);
      if g :| g in groups && Rule(Group(g), guest) in tables.rules {
        return true;
      }
      assert !exists g :: MemberOf(members, client, g) && Rule(Group(g), guest) in tables.rules;
      if client in policy.clients {
        return true;
      }
      ok := exists g | g in policy.groups :: g in groups;
      assert ok <==> exists g | g in policy.groups :: MemberOf(members, client, g);
    }
  }

  lemma StaleTaken(all: set<int>, left: set<int>, id: int, stale: seq<int>)
    requires id in left && id in all && ToSet(stale) == all - left && |stale| == |all - left|
    ensures ToSet(stale + [id]) == all - (left - {id}) && |stale + [id]| == |all - (left - {id})|
  {
    AppendMember(stale, id);
    assert all - (left - {id}) == all - left + {id};
  }

  lemma StaleSkipped(all: set<int>, left: set<int>, id: int)
    requires id !in all
    ensures all - (left - {id}) == all - left
  {
  }

  lemma AppendMember(s: seq<int>, x: int)
    ensures ToSet(s + [x]) == ToSet(s) + {x}
  {
    assert forall y :: y in s + [x] <==> y in s || y == x;
  }

  lemma LiveGrows(rs: seq<Reported>, i: nat, live: seq<int>)
    requires i < |rs| && ToSet(live) == Live(rs, i)
    ensures Live(rs, i + 1) == if rs[i].status == Running then Live(rs, i) + {rs[i].vmid} else Live(rs, i)
    ensures ToSet(live + [rs[i].vmid]) == Live(rs, i) + {rs[i].vmid}
  {
    assert forall v :: v in live + [rs[i].vmid] <==> v in live || v == rs[i].vmid;
    assert forall v :: v in live <==> v in Live(rs, i);
  }

  /** Upserting keeps the tables sane, every id in its place, and everything but the one guest. */
  lemma UpsertedKeeps(t: Tables, instance: int, r: Reported)
    requires Sane(t)
    ensures var u := Upserted(t, instance, r);
            && Sane(u) && u.rules == t.rules && u.instances == t.instances && u.instanceRules == t.instanceRules
            && t.nextGuest <= u.nextGuest
            && (forall id | id in t.guests ::
                  id in u.guests && At(u.guests[id], t.guests[id].instance, t.guests[id].vmid)
                  && (!At(t.guests[id], instance, r.vmid) ==> u.guests[id] == t.guests[id]))
            && (forall id | id in u.guests && id !in t.guests ::
                  id >= t.nextGuest && At(u.guests[id], instance, r.vmid))
            && (exists id :: id in u.guests && u.guests[id] == Guest(r.kind, r.name, r.status, r.vmid, instance))
  {
    var u := Upserted(t, instance, r);
    if Stored(t, instance, r.vmid) {
      var id :| IsAt(t, id, instance, r.vmid)
                && u == t.(guests := t.guests[id := t.guests[id].(kind := r.kind, name := r.name, status := r.status)]);
      assert u.guests[id] == Guest(r.kind, r.name, r.status, r.vmid, instance);
    } else {
      assert forall id | id in t.guests :: !IsAt(t, id, instance, r.vmid);
      assert u.guests[t.nextGuest] == Guest(r.kind, r.name, r.status, r.vmid, instance);
    }
  }
}
